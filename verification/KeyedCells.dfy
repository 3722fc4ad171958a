/**
 * Finding a run's cells inside the flat KV bucket, for any key layout that can be parsed back.
 * ExecKeys shows that the layout of internal/scheduler/reconciler.go is one.
 */
module KeyedCells {
  import opened Text
  import opened StepLedger
  import opened ExecKeys
  import opened RunLedger
  import opened LedgerCells

  type Entries = map<string, Value>

  /** `plain` tells the run ids whose keys the layout can take apart again. */
  datatype Layout = Layout(key: KeyRef -> string, parse: string -> Option<KeyRef>, plain: string -> bool)

  /** Keys of plain runs parse back, and every key that parses was built that way. */
  ghost predicate Lawful(l: Layout) {
    && (forall ref: KeyRef :: l.plain(ref.run) ==> l.parse(l.key(ref)) == Some(ref))
    && (forall k: string :: l.parse(k).Some? ==> l.plain(l.parse(k).value.run) && l.key(l.parse(k).value) == k)
  }

  const EXEC_LAYOUT := Layout(ref => KvKey(ref), k => ParseKey(k), run => '/' !in run)

  lemma ExecLayoutLawful()
    ensures Lawful(EXEC_LAYOUT)
  {
    forall ref: KeyRef | EXEC_LAYOUT.plain(ref.run) ensures EXEC_LAYOUT.parse(EXEC_LAYOUT.key(ref)) == Some(ref) {
      ParseBuilt(ref);
    }
    forall k: string | EXEC_LAYOUT.parse(k).Some?
      ensures EXEC_LAYOUT.plain(EXEC_LAYOUT.parse(k).value.run) && EXEC_LAYOUT.key(EXEC_LAYOUT.parse(k).value) == k
    {
      BuiltParsed(k);
    }
  }

  // ----- a run's cells -----

  /** `c` holds exactly the run's values, looked up by key. */
  ghost predicate AreCells(l: Layout, c: Cells, kv: Entries, run: string) {
    && (forall s :: s in c.steps <==> l.key(StepRef(run, s)) in kv)
    && (forall s :: s in c.steps ==> c.steps[s] == kv[l.key(StepRef(run, s))])
    && (forall s :: s in c.redrives <==> l.key(RedriveRef(run, s)) in kv)
    && (forall s :: s in c.redrives ==> c.redrives[s] == kv[l.key(RedriveRef(run, s))])
  }

  /** Every bucket determines the cells of every run. */
  lemma CellsExist(l: Layout, kv: Entries, run: string) returns (c: Cells)
    requires Lawful(l) && l.plain(run)
    ensures AreCells(l, c, kv, run)
  {
    var names := set k | k in kv && l.parse(k).Some? :: l.parse(k).value.step;
    c := Cells(map s | s in names && l.key(StepRef(run, s)) in kv :: kv[l.key(StepRef(run, s))],
               map s | s in names && l.key(RedriveRef(run, s)) in kv :: kv[l.key(RedriveRef(run, s))]);
    forall s
      ensures l.key(StepRef(run, s)) in kv ==> s in names
      ensures l.key(RedriveRef(run, s)) in kv ==> s in names
    {
      assert l.parse(l.key(StepRef(run, s))) == Some(StepRef(run, s));
      assert l.parse(l.key(RedriveRef(run, s))) == Some(RedriveRef(run, s));
    }
  }

  lemma CellsUnique(l: Layout, c: Cells, d: Cells, kv: Entries, run: string)
    requires AreCells(l, c, kv, run) && AreCells(l, d, kv, run)
    ensures c == d
  {
    assert c.steps == d.steps && c.redrives == d.redrives;
  }

  function PutCell(c: Cells, ref: KeyRef, v: Value): Cells {
    match ref
    case StepRef(_, s) => c.(steps := c.steps[s := v])
    case RedriveRef(_, s) => c.(redrives := c.redrives[s := v])
  }

  /** What a put under one cell's key does to the lookup of any cell. */
  lemma PutEntry(l: Layout, kv: Entries, ref: KeyRef, v: Value, q: KeyRef, after: Entries)
    requires Lawful(l) && l.plain(ref.run) && l.plain(q.run) && after == kv[l.key(ref) := v]
    ensures l.key(q) in after <==> q == ref || l.key(q) in kv
    ensures l.key(q) in after ==> after[l.key(q)] == if q == ref then v else kv[l.key(q)]
  {
    assert l.parse(l.key(q)) == Some(q);
    assert l.parse(l.key(ref)) == Some(ref);
  }

  /** A put under one of the run's keys changes that cell and no other of the run. */
  lemma PutCells(l: Layout, c: Cells, kv: Entries, ref: KeyRef, v: Value, after: Entries, d: Cells)
    requires Lawful(l) && l.plain(ref.run) && AreCells(l, c, kv, ref.run) && after == kv[l.key(ref) := v]
    requires d == PutCell(c, ref, v)
    ensures AreCells(l, d, after, ref.run)
  {
    forall s
      ensures s in d.steps <==> l.key(StepRef(ref.run, s)) in after
      ensures s in d.steps ==> d.steps[s] == after[l.key(StepRef(ref.run, s))]
    {
      PutEntry(l, kv, ref, v, StepRef(ref.run, s), after);
    }
    forall s
      ensures s in d.redrives <==> l.key(RedriveRef(ref.run, s)) in after
      ensures s in d.redrives ==> d.redrives[s] == after[l.key(RedriveRef(ref.run, s))]
    {
      PutEntry(l, kv, ref, v, RedriveRef(ref.run, s), after);
    }
  }

  // ----- the parsed ledger -----

  /** runLedger: one run's parsed ledger state; `keys` are the raw keys a collection deletes. */
  datatype Ledger = Ledger(records: map<string, StepRecord>, keys: seq<string>, latest: int)

  const EMPTY_LEDGER := Ledger(map[], [], ZERO_TIME)

  /** A pass tracks every counter, and every step value that parses as a record. */
  predicate Tracks(ref: KeyRef, v: Value, run: string) {
    ref.run == run && (ref.RedriveRef? || v.StepJson?)
  }

  predicate Tracked(l: Layout, kv: Entries, k: string, run: string) {
    k in kv && l.parse(k).Some? && Tracks(l.parse(k).value, kv[k], run)
  }

  ghost predicate AreRecords(l: Layout, records: map<string, StepRecord>, kv: Entries, run: string) {
    && (forall s :: s in records <==> l.key(StepRef(run, s)) in kv && kv[l.key(StepRef(run, s))].StepJson?)
    && (forall s :: s in records ==> records[s] == kv[l.key(StepRef(run, s))].rec)
  }

  lemma CellsGiveRecords(l: Layout, c: Cells, records: map<string, StepRecord>, kv: Entries, run: string)
    requires AreCells(l, c, kv, run) && AreRecords(l, records, kv, run)
    ensures records == RecordsOf(c)
  {
  }

  ghost predicate IsLedger(l: Layout, d: Ledger, kv: Entries, run: string) {
    && AreRecords(l, d.records, kv, run)
    && d.latest == Latest(d.records)
    && (forall k :: k in d.keys <==> Tracked(l, kv, k, run))
  }

  /** Exactly the runs with a tracked key have a ledger, and each is that run's. */
  ghost predicate AreLedgers(l: Layout, runs: map<string, Ledger>, kv: Entries) {
    && (forall run :: run in runs ==> l.plain(run) && IsLedger(l, runs[run], kv, run))
    && (forall run, k :: Tracked(l, kv, k, run) ==> run in runs)
    && (forall run :: run in runs ==> exists k :: Tracked(l, kv, k, run))
  }

  function LedgerFor(runs: map<string, Ledger>, run: string): Ledger {
    if run in runs then runs[run] else EMPTY_LEDGER
  }

  /** How one tracked key is filed in its run's ledger. */
  function Filed(d: Ledger, k: string, ref: KeyRef, v: Value): Ledger {
    if ref.RedriveRef? || !v.StepJson? then d.(keys := d.keys + [k])
    else Ledger(d.records[ref.step := v.rec], d.keys + [k],
                if v.rec.completedAt > d.latest then v.rec.completedAt else d.latest)
  }

  lemma LedgerForIsLedger(l: Layout, runs: map<string, Ledger>, kv: Entries, run: string)
    requires Lawful(l) && AreLedgers(l, runs, kv) && l.plain(run)
    ensures IsLedger(l, LedgerFor(runs, run), kv, run)
  {
    if run !in runs {
      forall s ensures !(l.key(StepRef(run, s)) in kv && kv[l.key(StepRef(run, s))].StepJson?) {
        assert l.parse(l.key(StepRef(run, s))) == Some(StepRef(run, s));
        assert !Tracked(l, kv, l.key(StepRef(run, s)), run);
      }
    }
  }

  lemma TrackedAfter(l: Layout, kv: Entries, k: string, v: Value, after: Entries)
    requires k !in kv && after == kv[k := v]
    ensures forall j, run :: Tracked(l, after, j, run) <==>
      (Tracked(l, kv, j, run) || (j == k && l.parse(k).Some? && Tracks(l.parse(k).value, v, run)))
  {
    forall j, run
      ensures Tracked(l, after, j, run) <==>
        (Tracked(l, kv, j, run) || (j == k && l.parse(k).Some? && Tracks(l.parse(k).value, v, run)))
    {
      if j != k {
        assert j in after <==> j in kv;
      }
    }
  }

  /** What a newly scanned key does to a run's records. */
  lemma RecordsAfter(l: Layout, records: map<string, StepRecord>, kv: Entries, k: string, v: Value, run: string)
    requires Lawful(l) && k !in kv && l.plain(run) && AreRecords(l, records, kv, run)
    ensures AreRecords(
      l,
      if l.parse(k).Some? && l.parse(k).value.StepRef? && Tracks(l.parse(k).value, v, run)
      then records[l.parse(k).value.step := v.rec] else records,
      kv[k := v], run)
    ensures l.parse(k).Some? && l.parse(k).value.StepRef? && l.parse(k).value.run == run ==>
      l.parse(k).value.step !in records
  {
    forall s
      ensures l.key(StepRef(run, s)) == k <==> l.parse(k) == Some(StepRef(run, s))
    {
      assert l.parse(l.key(StepRef(run, s))) == Some(StepRef(run, s));
    }
  }

  /** A scanned key that is not tracked changes no ledger. */
  lemma SkipKeepsLedgers(l: Layout, runs: map<string, Ledger>, kv: Entries, k: string, v: Value, after: Entries)
    requires Lawful(l) && AreLedgers(l, runs, kv) && k !in kv && after == kv[k := v]
    requires l.parse(k).None? || (l.parse(k).value.StepRef? && !v.StepJson?)
    ensures AreLedgers(l, runs, after)
  {
    TrackedAfter(l, kv, k, v, after);
    forall run | run in runs
      ensures IsLedger(l, runs[run], after, run) && exists j :: Tracked(l, after, j, run)
    {
      RecordsAfter(l, runs[run].records, kv, k, v, run);
      var j :| Tracked(l, kv, j, run);
      assert Tracked(l, after, j, run);
    }
  }

  lemma FiledIsLedger(l: Layout, d: Ledger, kv: Entries, k: string, v: Value, ref: KeyRef, after: Entries)
    requires Lawful(l) && k !in kv && l.parse(k) == Some(ref) && Tracks(ref, v, ref.run) && after == kv[k := v]
    requires IsLedger(l, d, kv, ref.run)
    ensures IsLedger(l, Filed(d, k, ref, v), after, ref.run)
  {
    TrackedAfter(l, kv, k, v, after);
    RecordsAfter(l, d.records, kv, k, v, ref.run);
    if ref.StepRef? {
      LatestOfMore(d.records, ref.step, v.rec);
    }
  }

  lemma OthersKeepLedger(
      l: Layout, d: Ledger, kv: Entries, k: string, v: Value, ref: KeyRef, after: Entries, run: string)
    requires Lawful(l) && k !in kv && l.parse(k) == Some(ref) && after == kv[k := v]
    requires l.plain(run) && run != ref.run && IsLedger(l, d, kv, run)
    ensures IsLedger(l, d, after, run)
  {
    TrackedAfter(l, kv, k, v, after);
    RecordsAfter(l, d.records, kv, k, v, run);
  }

  lemma OtherLedgersKept(
      l: Layout, runs: map<string, Ledger>, kv: Entries, k: string, v: Value, ref: KeyRef, after: Entries, run: string)
    requires Lawful(l) && AreLedgers(l, runs, kv) && k !in kv && after == kv[k := v]
    requires l.parse(k) == Some(ref) && run in runs && run != ref.run
    ensures IsLedger(l, runs[run], after, run) && exists j :: Tracked(l, after, j, run)
  {
    OthersKeepLedger(l, runs[run], kv, k, v, ref, after, run);
    var j :| Tracked(l, kv, j, run);
    assert Tracked(l, after, j, run);
  }

  /** A tracked key goes into its run's ledger and into no other. */
  lemma FileKeepsLedgers(
      l: Layout, runs: map<string, Ledger>, kv: Entries, k: string, v: Value, ref: KeyRef, after: Entries,
      more: map<string, Ledger>)
    requires Lawful(l) && AreLedgers(l, runs, kv) && k !in kv && after == kv[k := v]
    requires l.parse(k) == Some(ref) && Tracks(ref, v, ref.run)
    requires more == runs[ref.run := Filed(LedgerFor(runs, ref.run), k, ref, v)]
    ensures AreLedgers(l, more, after)
  {
    assert l.plain(ref.run);
    LedgerForIsLedger(l, runs, kv, ref.run);
    FiledIsLedger(l, LedgerFor(runs, ref.run), kv, k, v, ref, after);
    TrackedAfter(l, kv, k, v, after);
    assert Tracked(l, after, k, ref.run);
    forall run | run in more
      ensures l.plain(run) && IsLedger(l, more[run], after, run) && exists j :: Tracked(l, after, j, run)
    {
      if run != ref.run {
        OtherLedgersKept(l, runs, kv, k, v, ref, after, run);
      }
    }
  }

  /** One step of the scan: the key is filed, or skipped when it parses as nothing that is tracked. */
  lemma ScanKeepsLedgers(
      l: Layout, runs: map<string, Ledger>, kv: Entries, k: string, v: Value, after: Entries,
      more: map<string, Ledger>)
    requires Lawful(l) && AreLedgers(l, runs, kv) && k !in kv && after == kv[k := v]
    requires more == if l.parse(k).Some? && (l.parse(k).value.RedriveRef? || v.StepJson?)
                     then var ref := l.parse(k).value; runs[ref.run := Filed(LedgerFor(runs, ref.run), k, ref, v)]
                     else runs
    ensures AreLedgers(l, more, after)
  {
    if l.parse(k).Some? && (l.parse(k).value.RedriveRef? || v.StepJson?) {
      FileKeepsLedgers(l, runs, kv, k, v, l.parse(k).value, after, more);
    } else {
      SkipKeepsLedgers(l, runs, kv, k, v, after);
    }
  }

  // ----- deletes -----

  /** How the outside world answers the pass over one run. */
  function AnswersFor(l: Layout, c: Cells, run: string, answers: Answers, deleteFails: set<string>): RunAnswers {
    RunAnswers(answers,
               set s | s in c.steps && l.key(StepRef(run, s)) in deleteFails,
               set s | s in c.redrives && l.key(RedriveRef(run, s)) in deleteFails)
  }

  /** Deleting a run's tracked keys, except where the delete fails, collects its cells. */
  lemma DeleteCells(
      l: Layout, c: Cells, kv: Entries, after: Entries, run: string, answers: Answers, deleteFails: set<string>)
    requires Lawful(l) && l.plain(run) && AreCells(l, c, kv, run)
    requires forall k :: k in after <==> k in kv && (k in deleteFails || !Tracked(l, kv, k, run))
    requires forall k :: k in after ==> after[k] == kv[k]
    ensures AreCells(l, CellCollect(c, AnswersFor(l, c, run, answers, deleteFails)), after, run)
  {
    var a := AnswersFor(l, c, run, answers, deleteFails);
    forall s
      ensures s in CellCollect(c, a).steps <==> l.key(StepRef(run, s)) in after
      ensures s in CellCollect(c, a).redrives <==> l.key(RedriveRef(run, s)) in after
    {
      assert l.parse(l.key(StepRef(run, s))) == Some(StepRef(run, s));
      assert l.parse(l.key(RedriveRef(run, s))) == Some(RedriveRef(run, s));
    }
  }
}
