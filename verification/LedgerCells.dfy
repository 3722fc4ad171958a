/**
 * One run's part of the execution bucket as stored values (internal/scheduler/reconciler.go),
 * and the reconcile pass over it, proved against the view of RunLedger.
 */
module LedgerCells {
  import opened StepLedger
  import opened RunLedger

  /**
   * What a KV value can be read as: JSON of a step record, a decimal counter, or neither.
   * Text that json.Unmarshal rejects is skipped; text that Atoi rejects counts as 0.
   */
  datatype Value = StepJson(rec: StepRecord) | Number(n: int) | Opaque

  /** The values under exec/<run>/step/ and exec/<run>/redrive/, by step key. */
  datatype Cells = Cells(steps: map<string, Value>, redrives: map<string, Value>)

  function RecordsOf(c: Cells): map<string, StepRecord> {
    map s | s in c.steps && c.steps[s].StepJson? :: c.steps[s].rec
  }

  function CountersOf(c: Cells): map<string, int> {
    map s | s in c.redrives && c.redrives[s].Number? :: c.redrives[s].n
  }

  function ViewOf(c: Cells): View { View(RecordsOf(c), CountersOf(c)) }

  function PutRecord(c: Cells, s: string, rec: StepRecord): Cells { c.(steps := c.steps[s := StepJson(rec)]) }

  function PutCounter(c: Cells, s: string, n: int): Cells { c.(redrives := c.redrives[s := Number(n)]) }

  lemma PutRecordView(c: Cells, s: string, rec: StepRecord)
    ensures ViewOf(PutRecord(c, s, rec)) == ViewOf(c).(records := RecordsOf(c)[s := rec])
  {
    assert RecordsOf(PutRecord(c, s, rec)) == RecordsOf(c)[s := rec];
  }

  lemma PutCounterView(c: Cells, s: string, n: int)
    ensures ViewOf(PutCounter(c, s, n)) == ViewOf(c).(counters := CountersOf(c)[s := n])
  {
    assert CountersOf(PutCounter(c, s, n)) == CountersOf(c)[s := n];
  }

  // ----- the parsed ledger -----

  /** Step records that do not parse are not tracked; re-drive counters always are. */
  function TrackedSteps(c: Cells): set<string> { RecordsOf(c).Keys }

  function TrackedRedrives(c: Cells): set<string> { c.redrives.Keys }

  // ----- a pass -----

  function CellDriveHop(c: Cells, hop: EmitRecord, a: HopAnswer, now: int): Cells {
    var attempts := Attempts(ViewOf(c), hop.stepKey);
    if attempts >= MAX_REDRIVES then
      if a.written then PutRecord(c, hop.stepKey, FailedRecord(hop, now)) else c
    else if a.acked && a.written then PutCounter(c, hop.stepKey, attempts + 1)
    else c
  }

  function CellDriveHops(c: Cells, hops: seq<EmitRecord>, answers: Answers, now: int, n: nat): Cells
    requires n <= |hops|
  {
    if n == 0 then c
    else CellDriveHop(CellDriveHops(c, hops, answers, now, n - 1), hops[n - 1], answers(n - 1), now)
  }

  lemma CellDriveHopRefines(c: Cells, hop: EmitRecord, a: HopAnswer, now: int)
    ensures ViewOf(CellDriveHop(c, hop, a, now)) == DriveHop(ViewOf(c), hop, a, now)
  {
    PutRecordView(c, hop.stepKey, FailedRecord(hop, now));
    PutCounterView(c, hop.stepKey, Attempts(ViewOf(c), hop.stepKey) + 1);
  }

  lemma {:induction false} CellDriveHopsRefines(c: Cells, hops: seq<EmitRecord>, answers: Answers, now: int, n: nat)
    requires n <= |hops|
    ensures ViewOf(CellDriveHops(c, hops, answers, now, n)) == DriveHops(ViewOf(c), hops, answers, now, n)
    decreases n
  {
    if n > 0 {
      CellDriveHopsRefines(c, hops, answers, now, n - 1);
      CellDriveHopRefines(CellDriveHops(c, hops, answers, now, n - 1), hops[n - 1], answers(n - 1), now);
    }
  }

  /** How the outside world answers the pass over one run; the sets name deletes that fail. */
  datatype RunAnswers = RunAnswers(hops: Answers, keptSteps: set<string>, keptRedrives: set<string>)

  /** Deletes every tracked key whose delete succeeds. */
  function CellCollect(c: Cells, a: RunAnswers): Cells {
    Cells(c.steps - (TrackedSteps(c) - a.keptSteps), c.redrives - (TrackedRedrives(c) - a.keptRedrives))
  }

  function DeletionsOf(c: Cells, a: RunAnswers): Deletions {
    Deletions(TrackedSteps(c) - a.keptSteps, TrackedRedrives(c) - a.keptRedrives)
  }

  lemma CollectRefines(c: Cells, a: RunAnswers)
    ensures ViewOf(CellCollect(c, a)) == Collect(ViewOf(c), DeletionsOf(c, a))
  {
    assert RecordsOf(CellCollect(c, a)) == Collect(ViewOf(c), DeletionsOf(c, a)).records;
    assert CountersOf(CellCollect(c, a)) == Collect(ViewOf(c), DeletionsOf(c, a)).counters;
  }

  ghost function PassRun(c: Cells, frontier: seq<EmitRecord>, a: RunAnswers, now: int): Cells {
    var age := now - Latest(RecordsOf(c));
    if frontier == [] then (if age > GC_AFTER then CellCollect(c, a) else c)
    else if age < STALE_AFTER then c
    else CellDriveHops(c, frontier, a.hops, now, |frontier|)
  }

  /** On stored values a pass does to the run's view exactly what the one-run model says. */
  lemma PassRefines(c: Cells, frontier: seq<EmitRecord>, a: RunAnswers, now: int)
    ensures ViewOf(PassRun(c, frontier, a, now)) == PassView(ViewOf(c), frontier, a.hops, DeletionsOf(c, a), now)
  {
    CellDriveHopsRefines(c, frontier, a.hops, now, |frontier|);
    CollectRefines(c, a);
  }

  /**
   * With deletes succeeding, collecting a run removes every record and counter it has; only
   * step values that never parsed as records stay behind.
   */
  lemma CollectionIsComplete(c: Cells, a: RunAnswers)
    requires a.keptSteps == {} && a.keptRedrives == {}
    ensures CellCollect(c, a).redrives == map[]
    ensures forall s :: s in CellCollect(c, a).steps <==> s in c.steps && !c.steps[s].StepJson?
  {
  }

  // ----- scanning -----

  lemma LatestOfMore(records: map<string, StepRecord>, s: string, rec: StepRecord)
    requires s !in records
    ensures Latest(records[s := rec])
         == if rec.completedAt > Latest(records) then rec.completedAt else Latest(records)
  {
    LatestIsLatest(records);
    var more := records[s := rec];
    var t := if rec.completedAt > Latest(records) then rec.completedAt else Latest(records);
    assert more[s] == rec;
    if t == Latest(records) && t != ZERO_TIME {
      var k :| k in records && records[k].completedAt == t;
      assert k in more && more[k].completedAt == t;
    }
    LatestUnique(more, t);
  }
}
