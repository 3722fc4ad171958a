/**
 * The run reconciler's loops over the KV bucket (internal/scheduler/reconciler.go).
 *
 * A pass is atomic with respect to the rest of the system: no value appears, changes or
 * disappears between its Keys call and its last write. Broker and KV outcomes, iteration
 * orders aside, are parameters.
 */
module Reconciler {
  import opened Text
  import opened StepLedger
  import opened ExecKeys
  import opened ExecBucket
  import opened RunLedger
  import opened LedgerCells
  import opened KeyedCells

  predicate SameEntry(kv: Entries, other: Entries, k: string) {
    (k in kv <==> k in other) && (k in kv ==> kv[k] == other[k])
  }

  /** Nothing of the run changed. */
  ghost predicate RunKept(l: Layout, before: Entries, after: Entries, run: string) {
    forall ref: KeyRef :: ref.run == run ==> SameEntry(before, after, l.key(ref))
  }

  /** Only keys of this run may have changed. */
  ghost predicate OthersKept(l: Layout, before: Entries, after: Entries, run: string) {
    && StrangersKept(l, before, after)
    && (forall other :: other != run && l.plain(other) ==> RunKept(l, before, after, other))
  }

  /** Keys that belong to no run are as they were. */
  ghost predicate StrangersKept(l: Layout, before: Entries, after: Entries) {
    forall k :: l.parse(k).None? ==> SameEntry(before, after, k)
  }

  /** One run's turn in a pass: what it had, how its map iterations went, and how the world answered. */
  datatype Visit = Visit(
    cells: Cells, frontier: seq<EmitRecord>, answers: Answers, deleteFails: set<string>, now: int)

  ghost predicate AnsweredBy(v: Visit, answers: Answers, deleteFails: set<string>, now: int) {
    v.answers == answers && v.deleteFails == deleteFails && v.now == now
  }

  ghost predicate AllAnswered(
      visits: map<string, Visit>, answers: string -> Answers, deleteFails: set<string>, now: int)
  {
    forall run <- visits :: AnsweredBy(visits[run], answers(run), deleteFails, now)
  }

  lemma AnsweredMore(
      visits: map<string, Visit>, answers: string -> Answers, deleteFails: set<string>, now: int,
      run: string, v: Visit)
    requires AllAnswered(visits, answers, deleteFails, now)
    requires AnsweredBy(v, answers(run), deleteFails, now)
    ensures AllAnswered(visits[run := v], answers, deleteFails, now)
    ensures visits[run := v].Keys == visits.Keys + {run}
  {
  }

  lemma OneMoreKey(all: set<string>, todo: set<string>, run: string)
    requires run in todo && todo <= all
    ensures all - (todo - {run}) == all - todo + {run}
    ensures |todo - {run}| < |todo|
  {
  }

  ghost predicate AllFiled(l: Layout, runs: map<string, Ledger>, kv: Entries) {
    forall run <- runs :: l.plain(run) && IsLedger(l, runs[run], kv, run)
  }

  ghost function CellsAfter(l: Layout, run: string, v: Visit): Cells {
    PassRun(v.cells, v.frontier, AnswersFor(l, v.cells, run, v.answers, v.deleteFails), v.now)
  }

  /** The visited cells went through one pass, with a frontier the run really had. */
  ghost predicate RunPassed(l: Layout, after: Entries, run: string, v: Visit) {
    && IsFrontier(ViewOf(v.cells), v.frontier)
    && AreCells(l, CellsAfter(l, run, v), after, run)
  }

  /** The hops that a pass over the run publishes and sees acknowledged. */
  ghost function SentBy(v: Visit): seq<EmitRecord> {
    if v.frontier != [] && IsStale(ViewOf(v.cells), v.now)
    then Redriven(ViewOf(v.cells), v.frontier, v.answers, v.now, |v.frontier|)
    else []
  }

  /** The part of a message log that belongs to one run. */
  function SentFor(msgs: seq<Msg>, run: string): seq<EmitRecord> {
    if msgs == [] then []
    else SentFor(msgs[..|msgs| - 1], run) + (if msgs[|msgs| - 1].runId == run then [msgs[|msgs| - 1].hop] else [])
  }

  function Tagged(run: string, hops: seq<EmitRecord>): seq<Msg> {
    seq(|hops|, i requires 0 <= i < |hops| => Msg(run, hops[i]))
  }

  lemma SentForMore(msgs: seq<Msg>, m: Msg, run: string)
    ensures SentFor(msgs + [m], run) == SentFor(msgs, run) + (if m.runId == run then [m.hop] else [])
  {
    assert (msgs + [m])[..|msgs|] == msgs;
  }

  lemma TaggedSnoc(msgs: seq<Msg>, run: string, hops: seq<EmitRecord>, n: nat)
    requires |hops| == n + 1
    ensures msgs + Tagged(run, hops) == (msgs + Tagged(run, hops[..n])) + [Msg(run, hops[n])]
  {
    assert Tagged(run, hops) == Tagged(run, hops[..n]) + [Msg(run, hops[n])];
  }

  lemma {:induction false} SentForTagged(msgs: seq<Msg>, run: string, hops: seq<EmitRecord>, other: string)
    ensures SentFor(msgs + Tagged(run, hops), other) == SentFor(msgs, other) + (if other == run then hops else [])
    decreases |hops|
  {
    if hops == [] {
      assert msgs + Tagged(run, hops) == msgs;
    } else {
      var n := |hops| - 1;
      var front := msgs + Tagged(run, hops[..n]);
      SentForTagged(msgs, run, hops[..n], other);
      TaggedSnoc(msgs, run, hops, n);
      SentForMore(front, Msg(run, hops[n]), other);
      SnocJoins(SentFor(msgs, other), hops, n);
    }
  }

  lemma SnocJoins(sent: seq<EmitRecord>, hops: seq<EmitRecord>, n: nat)
    requires |hops| == n + 1
    ensures sent + hops[..n] + [hops[n]] == sent + hops
  {
    assert hops == hops[..n] + [hops[n]];
  }

  lemma TaggedMore(sent: seq<Msg>, run: string, hops: seq<EmitRecord>, more: seq<EmitRecord>)
    ensures sent + Tagged(run, hops) + Tagged(run, more) == sent + Tagged(run, hops + more)
  {
  }

  lemma FewTagged(sent: seq<Msg>, run: string, hop: EmitRecord)
    ensures sent + Tagged(run, []) == sent
    ensures sent + Tagged(run, [hop]) == sent + [Msg(run, hop)]
  {
    assert Tagged(run, []) == [] && Tagged(run, [hop]) == [Msg(run, hop)];
  }

  lemma AllKept(l: Layout, kv: Entries, run: string)
    ensures OthersKept(l, kv, kv, run)
  {
  }

  lemma KeptKeepsCells(l: Layout, before: Entries, after: Entries, run: string, c: Cells)
    requires RunKept(l, before, after, run) && AreCells(l, c, before, run)
    ensures AreCells(l, c, after, run)
  {
    forall s
      ensures SameEntry(before, after, l.key(StepRef(run, s))) && SameEntry(before, after, l.key(RedriveRef(run, s)))
    {
      assert StepRef(run, s).run == run && RedriveRef(run, s).run == run;
    }
  }

  lemma KeptKeepsLedger(l: Layout, before: Entries, after: Entries, run: string, d: Ledger)
    requires Lawful(l) && RunKept(l, before, after, run) && IsLedger(l, d, before, run)
    ensures IsLedger(l, d, after, run)
  {
    forall s ensures SameEntry(before, after, l.key(StepRef(run, s))) {
      assert StepRef(run, s).run == run;
    }
    forall k ensures Tracked(l, before, k, run) <==> Tracked(l, after, k, run) {
      if l.parse(k).Some? && l.parse(k).value.run == run {
        assert SameEntry(before, after, l.key(l.parse(k).value));
      }
    }
  }

  /** A ledger taken from the bucket is the one-run view of it. */
  lemma LedgerIsView(l: Layout, d: Ledger, kv: Entries, run: string, c: Cells)
    requires IsLedger(l, d, kv, run) && AreCells(l, c, kv, run)
    ensures ViewOf(c).records == d.records
  {
    CellsGiveRecords(l, c, d.records, kv, run);
  }

  lemma PutKeepsOthers(l: Layout, before: Entries, after: Entries, ref: KeyRef, v: Value)
    requires Lawful(l) && l.plain(ref.run) && after == before[l.key(ref) := v]
    ensures OthersKept(l, before, after, ref.run)
  {
    assert l.parse(l.key(ref)) == Some(ref);
    forall run, q: KeyRef | run != ref.run && l.plain(run) && q.run == run
      ensures SameEntry(before, after, l.key(q))
    {
      PutEntry(l, before, ref, v, q, after);
    }
  }

  lemma KeptTwice(l: Layout, before: Entries, mid: Entries, after: Entries, run: string)
    requires RunKept(l, before, mid, run) && RunKept(l, mid, after, run)
    ensures RunKept(l, before, after, run)
  {
    forall ref: KeyRef | ref.run == run ensures SameEntry(before, after, l.key(ref)) {
      assert SameEntry(before, mid, l.key(ref)) && SameEntry(mid, after, l.key(ref));
    }
  }

  lemma OthersKeptTwice(l: Layout, before: Entries, mid: Entries, after: Entries, run: string)
    requires OthersKept(l, before, mid, run) && OthersKept(l, mid, after, run)
    ensures OthersKept(l, before, after, run)
  {
    forall other | other != run && l.plain(other) ensures RunKept(l, before, after, other) {
      KeptTwice(l, before, mid, after, other);
    }
    StrangersKeptTwice(l, before, mid, after);
  }

  lemma StrangersKeptTwice(l: Layout, before: Entries, mid: Entries, after: Entries)
    requires StrangersKept(l, before, mid) && StrangersKept(l, mid, after)
    ensures StrangersKept(l, before, after)
  {
    forall k | l.parse(k).None? ensures SameEntry(before, after, k) {
      assert SameEntry(before, mid, k) && SameEntry(mid, after, k);
    }
  }

  lemma DeleteKeepsOthers(l: Layout, before: Entries, after: Entries, run: string)
    requires Lawful(l)
    requires forall k :: k in after ==> k in before && after[k] == before[k]
    requires forall k :: k in before && k !in after ==> Tracked(l, before, k, run)
    ensures OthersKept(l, before, after, run)
  {
    forall other, ref: KeyRef | other != run && l.plain(other) && ref.run == other
      ensures SameEntry(before, after, l.key(ref))
    {
      assert l.parse(l.key(ref)) == Some(ref);
    }
  }

  lemma HopOutcome(c: Cells, hop: EmitRecord, a: HopAnswer, now: int, attempts: int, d: Cells)
    requires attempts == Attempts(ViewOf(c), hop.stepKey) && d == CellDriveHop(c, hop, a, now)
    ensures attempts >= MAX_REDRIVES ==>
      d == if a.written then PutRecord(c, hop.stepKey, FailedRecord(hop, now)) else c
    ensures attempts < MAX_REDRIVES ==>
      d == if a.acked && a.written then PutCounter(c, hop.stepKey, attempts + 1) else c
  {
  }

  /** The bucket and the messages sent so far, at one point of a pass. */
  datatype Moment = Moment(kv: Entries, sent: seq<Msg>)

  function Hops(msgs: seq<Msg>): seq<EmitRecord> {
    seq(|msgs|, i requires 0 <= i < |msgs| => msgs[i].hop)
  }

  lemma HopsOfTagged(msgs: seq<Msg>, run: string, hops: seq<EmitRecord>)
    ensures Hops(msgs + Tagged(run, hops)) == Hops(msgs) + hops
  {
  }

  lemma HopsGrow(start: Moment, mid: Moment, after: Moment, run: string, sent: seq<EmitRecord>, more: seq<EmitRecord>)
    requires Hops(mid.sent) == Hops(start.sent) + sent && after.sent == mid.sent + Tagged(run, more)
    ensures Hops(after.sent) == Hops(start.sent) + (sent + more)
  {
    HopsOfTagged(mid.sent, run, more);
  }

  /** Between the two moments the run had exactly one turn, and sent what that turn calls for. */
  ghost predicate RunDone(l: Layout, before: Moment, after: Moment, run: string, v: Visit) {
    && l.plain(run)
    && AreCells(l, v.cells, before.kv, run)
    && RunPassed(l, after.kv, run, v)
    && SentFor(after.sent, run) == SentFor(before.sent, run) + SentBy(v)
  }

  ghost predicate RunUntouched(l: Layout, before: Moment, after: Moment, run: string) {
    && (l.plain(run) ==> RunKept(l, before.kv, after.kv, run))
    && SentFor(after.sent, run) == SentFor(before.sent, run)
  }

  ghost predicate AllDone(l: Layout, before: Moment, after: Moment, visits: map<string, Visit>) {
    forall run <- visits :: RunDone(l, before, after, run, visits[run])
  }

  ghost predicate RestUntouched(l: Layout, before: Moment, after: Moment, visits: map<string, Visit>) {
    forall run :: run !in visits ==> RunUntouched(l, before, after, run)
  }

  lemma LedgerSurvives(l: Layout, before: Moment, mid: Moment, run: string, d: Ledger, c: Cells)
    requires Lawful(l) && l.plain(run) && RunUntouched(l, before, mid, run)
    requires IsLedger(l, d, before.kv, run) && AreCells(l, c, before.kv, run)
    ensures IsLedger(l, d, mid.kv, run) && AreCells(l, c, mid.kv, run)
  {
    KeptKeepsLedger(l, before.kv, mid.kv, run, d);
    KeptKeepsCells(l, before.kv, mid.kv, run, c);
  }

  /** A run that had its turn is as that turn left it while another run has its own. */
  lemma DoneStaysDone(
      l: Layout, before: Moment, mid: Moment, after: Moment, run: string, more: seq<EmitRecord>,
      other: string, v: Visit)
    requires other != run && OthersKept(l, mid.kv, after.kv, run)
    requires after.sent == mid.sent + Tagged(run, more)
    requires RunDone(l, before, mid, other, v)
    ensures RunDone(l, before, after, other, v)
  {
    SentForTagged(mid.sent, run, more, other);
    KeptKeepsCells(l, mid.kv, after.kv, other, CellsAfter(l, other, v));
  }

  lemma UntouchedStaysUntouched(
      l: Layout, before: Moment, mid: Moment, after: Moment, run: string, more: seq<EmitRecord>, other: string)
    requires other != run && OthersKept(l, mid.kv, after.kv, run)
    requires after.sent == mid.sent + Tagged(run, more)
    requires RunUntouched(l, before, mid, other)
    ensures RunUntouched(l, before, after, other)
  {
    SentForTagged(mid.sent, run, more, other);
    if l.plain(other) {
      KeptTwice(l, before.kv, mid.kv, after.kv, other);
    }
  }

  lemma ThisRunDone(l: Layout, before: Moment, mid: Moment, after: Moment, run: string, v: Visit)
    requires l.plain(run) && RunUntouched(l, before, mid, run) && AreCells(l, v.cells, before.kv, run)
    requires RunPassed(l, after.kv, run, v) && after.sent == mid.sent + Tagged(run, SentBy(v))
    ensures RunDone(l, before, after, run, v)
  {
    SentForTagged(mid.sent, run, SentBy(v), run);
  }

  lemma OthersStayDone(
      l: Layout, before: Moment, mid: Moment, after: Moment, run: string, more: seq<EmitRecord>,
      visits: map<string, Visit>)
    requires run !in visits && OthersKept(l, mid.kv, after.kv, run)
    requires AllDone(l, before, mid, visits) && after.sent == mid.sent + Tagged(run, more)
    ensures AllDone(l, before, after, visits)
  {
    forall other | other in visits ensures RunDone(l, before, after, other, visits[other]) {
      DoneStaysDone(l, before, mid, after, run, more, other, visits[other]);
    }
  }

  lemma OthersStayUntouched(
      l: Layout, before: Moment, mid: Moment, after: Moment, run: string, more: seq<EmitRecord>,
      visits: map<string, Visit>, v: Visit)
    requires OthersKept(l, mid.kv, after.kv, run) && after.sent == mid.sent + Tagged(run, more)
    requires RestUntouched(l, before, mid, visits)
    ensures RestUntouched(l, before, after, visits[run := v])
  {
    forall other | other !in visits[run := v] ensures RunUntouched(l, before, after, other) {
      UntouchedStaysUntouched(l, before, mid, after, run, more, other);
    }
  }

  lemma DoneMore(l: Layout, before: Moment, after: Moment, run: string, v: Visit, visits: map<string, Visit>)
    requires AllDone(l, before, after, visits) && RunDone(l, before, after, run, v)
    ensures AllDone(l, before, after, visits[run := v])
  {
  }

  /** The loop step of reconcileRuns. */
  lemma OneMoreDone(
      l: Layout, before: Moment, mid: Moment, after: Moment, run: string, v: Visit, visits: map<string, Visit>)
    requires run !in visits && l.plain(run)
    requires AllDone(l, before, mid, visits) && RestUntouched(l, before, mid, visits)
    requires StrangersKept(l, before.kv, mid.kv)
    requires OthersKept(l, mid.kv, after.kv, run) && AreCells(l, v.cells, before.kv, run)
    requires RunPassed(l, after.kv, run, v) && after.sent == mid.sent + Tagged(run, SentBy(v))
    ensures AllDone(l, before, after, visits[run := v]) && RestUntouched(l, before, after, visits[run := v])
    ensures StrangersKept(l, before.kv, after.kv)
  {
    assert RunUntouched(l, before, mid, run);
    ThisRunDone(l, before, mid, after, run, v);
    OthersStayDone(l, before, mid, after, run, SentBy(v), visits);
    DoneMore(l, before, after, run, v, visits);
    OthersStayUntouched(l, before, mid, after, run, SentBy(v), visits, v);
    StrangersKeptTwice(l, before.kv, mid.kv, after.kv);
  }

  // ----- failures -----

  /** The bucket holds a record of the step, and it parses. */
  predicate HasRecord(l: Layout, kv: Entries, run: string, s: string) {
    l.key(StepRef(run, s)) in kv && kv[l.key(StepRef(run, s))].StepJson?
  }

  function RecordAt(l: Layout, kv: Entries, run: string, s: string): StepRecord
    requires HasRecord(l, kv, run, s)
  {
    kv[l.key(StepRef(run, s))].rec
  }

  /** A recorded step of the run lists the hop. */
  ghost predicate ListsHop(l: Layout, kv: Entries, run: string, hop: EmitRecord) {
    exists p :: HasRecord(l, kv, run, p) && hop in RecordAt(l, kv, run, p).emits
  }

  /** A terminal failure dated `now`, at the target of a listed hop with this key. */
  ghost predicate FailedNow(l: Layout, kv: Entries, run: string, s: string, rec: StepRecord, now: int) {
    && rec.completedAt == now && rec.status == Failed && rec.emits == [] && rec.error != ""
    && exists hop :: ListsHop(l, kv, run, hop) && hop.stepKey == s && hop.to == rec.node
  }

  /** Every record that the bucket has gained is a failure dated `now` of a hop that some record listed. */
  ghost predicate FailuresDated(l: Layout, before: Entries, after: Entries, now: int) {
    forall run, s :: l.plain(run) && HasRecord(l, after, run, s) && !HasRecord(l, before, run, s) ==>
      FailedNow(l, before, run, s, RecordAt(l, after, run, s), now)
  }

  lemma TurnDatesFailures(l: Layout, before: Moment, after: Moment, run: string, v: Visit, s: string)
    requires RunDone(l, before, after, run, v)
    requires HasRecord(l, after.kv, run, s) && !HasRecord(l, before.kv, run, s)
    ensures FailedNow(l, before.kv, run, s, RecordAt(l, after.kv, run, s), v.now)
  {
    var a := AnswersFor(l, v.cells, run, v.answers, v.deleteFails);
    var view, later := ViewOf(v.cells), ViewOf(CellsAfter(l, run, v));
    PassRefines(v.cells, v.frontier, a, v.now);
    AddedRecordsAreDated(view, v.frontier, a.hops, DeletionsOf(v.cells, a), v.now);
    assert s in later.records && s !in view.records && GaveUp(later.records[s], s, v.frontier, v.now);
    var h :| h in v.frontier && h.stepKey == s && h.to == later.records[s].node;
    FrontierIsPending(view, v.frontier, h);
    var p :| p in view.records && h in view.records[p].emits;
    assert HasRecord(l, before.kv, run, p) && h in RecordAt(l, before.kv, run, p).emits;
  }

  lemma UntouchedGainsNothing(l: Layout, before: Moment, after: Moment, run: string, s: string)
    requires l.plain(run) && RunUntouched(l, before, after, run)
    ensures HasRecord(l, after.kv, run, s) <==> HasRecord(l, before.kv, run, s)
  {
    assert StepRef(run, s).run == run && SameEntry(before.kv, after.kv, l.key(StepRef(run, s)));
  }

  lemma PassDatesFailures(
      l: Layout, before: Moment, after: Moment, visits: map<string, Visit>, answers: string -> Answers,
      deleteFails: set<string>, now: int)
    requires AllDone(l, before, after, visits) && RestUntouched(l, before, after, visits)
    requires AllAnswered(visits, answers, deleteFails, now)
    ensures FailuresDated(l, before.kv, after.kv, now)
  {
    forall run, s | l.plain(run) && HasRecord(l, after.kv, run, s) && !HasRecord(l, before.kv, run, s)
      ensures FailedNow(l, before.kv, run, s, RecordAt(l, after.kv, run, s), now)
    {
      if run !in visits { UntouchedGainsNothing(l, before, after, run, s); }
      TurnDatesFailures(l, before, after, run, visits[run], s);
      assert AnsweredBy(visits[run], answers(run), deleteFails, now);
    }
  }

  /** One leader tick: how the world answers each run's hops, which deletes fail, and the time. */
  datatype Tick = Tick(answers: string -> Answers, deleteFails: set<string>, now: int)

  /** `turns[i]` is what the i-th pass did between `moments[i]` and `moments[i + 1]`. */
  ghost predicate IsSchedule(l: Layout, ticks: seq<Tick>, moments: seq<Moment>, turns: seq<map<string, Visit>>) {
    && |moments| == |ticks| + 1 && |turns| == |ticks|
    && (forall i :: PassAt(l, ticks, moments, turns, i))
  }

  ghost predicate PassAt(l: Layout, ticks: seq<Tick>, moments: seq<Moment>, turns: seq<map<string, Visit>>, i: nat)
    requires |moments| == |ticks| + 1 && |turns| == |ticks|
  {
    i < |ticks| ==> IsPass(l, ticks[i], moments[i], moments[i + 1], turns[i])
  }

  ghost predicate IsPass(l: Layout, t: Tick, before: Moment, after: Moment, visits: map<string, Visit>) {
    && (forall run :: run in visits <==> exists k :: Tracked(l, before.kv, k, run))
    && AllAnswered(visits, t.answers, t.deleteFails, t.now)
    && AllDone(l, before, after, visits) && RestUntouched(l, before, after, visits)
  }

  lemma ScheduledPass(l: Layout, ticks: seq<Tick>, moments: seq<Moment>, turns: seq<map<string, Visit>>, i: nat)
    requires IsSchedule(l, ticks, moments, turns) && i < |ticks|
    ensures IsPass(l, ticks[i], moments[i], moments[i + 1], turns[i])
  {
    assert PassAt(l, ticks, moments, turns, i);
  }

  lemma ScheduleGrows(
      l: Layout, ticks: seq<Tick>, i: nat, moments: seq<Moment>, turns: seq<map<string, Visit>>,
      after: Moment, visits: map<string, Visit>)
    requires i < |ticks| && IsSchedule(l, ticks[..i], moments, turns)
    requires IsPass(l, ticks[i], moments[i], after, visits)
    ensures IsSchedule(l, ticks[..i + 1], moments + [after], turns + [visits])
  {
    var ts, ms, vs := ticks[..i + 1], moments + [after], turns + [visits];
    forall k: nat ensures PassAt(l, ts, ms, vs, k) {
      if k < i {
        assert PassAt(l, ticks[..i], moments, turns, k);
        assert ts[k] == ticks[..i][k] && ms[k] == moments[k] && ms[k + 1] == moments[k + 1] && vs[k] == turns[k];
      } else if k == i {
        assert ts[k] == ticks[i] && ms[k] == moments[i] && ms[k + 1] == after && vs[k] == visits;
      }
    }
  }

  class Schedule {
    const execKv: Bucket<Value>
    const layout: Layout
    // Every message handed to msgHandler and acknowledged.
    var published: seq<Msg>

    ghost predicate Valid() { Lawful(layout) }

    ghost function At(): Moment
      reads this, execKv
    {
      Moment(execKv.entries, published)
    }

    constructor (execKv: Bucket<Value>)
      ensures Valid() && this.execKv == execKv && layout == EXEC_LAYOUT && published == []
    {
      this.execKv := execKv;
      layout := EXEC_LAYOUT;
      published := [];
      ExecLayoutLawful();
    }

    /** Scans the bucket and groups records and counters by run. */
    method ReadLedger() returns (runs: map<string, Ledger>)
      requires Valid()
      ensures AreLedgers(layout, runs, execKv.entries)
    {
      runs := map[];
      var rest := execKv.entries.Keys;
      ghost var scanned: Entries := map[];
      while rest != {}
        invariant rest <= execKv.entries.Keys
        invariant scanned.Keys == execKv.entries.Keys - rest
        invariant forall k :: k in scanned ==> scanned[k] == execKv.entries[k]
        invariant AreLedgers(layout, runs, scanned)
        decreases |rest|
      {
        var k :| k in rest;
        var v := execKv.entries[k];
        ghost var was, more := runs, scanned[k := v];
        var parsed := layout.parse(k);
        if parsed.Some? && (parsed.value.RedriveRef? || v.StepJson?) {
          var ref := parsed.value;
          runs := runs[ref.run := Filed(LedgerFor(runs, ref.run), k, ref, v)];
        }
        ScanKeepsLedgers(layout, was, scanned, k, v, more, runs);
        scanned := more;
        rest := rest - {k};
      }
      assert scanned == execKv.entries;
    }

    /** Hops emitted by recorded steps that have no record of their own. */
    method FrontierOf(d: Ledger) returns (frontier: seq<EmitRecord>)
      ensures forall counters :: IsFrontier(View(d.records, counters), frontier)
    {
      frontier := [];
      var rest := d.records.Keys;
      ghost var order: seq<string> := [];
      while rest != {}
        invariant rest <= d.records.Keys
        invariant Visits(order, d.records.Keys - rest)
        invariant frontier == FrontierAlong(d.records, order)
        decreases |rest|
      {
        var p :| p in rest;
        var emits := d.records[p].emits;
        ghost var start := frontier;
        var i := 0;
        while i < |emits|
          invariant 0 <= i <= |emits|
          invariant frontier == start + Outstanding(d.records, emits[..i])
        {
          if emits[i].stepKey !in d.records {
            frontier := frontier + [emits[i]];
          }
          assert emits[..i + 1][..i] == emits[..i];
          i := i + 1;
        }
        assert emits[..|emits|] == emits;
        assert (order + [p])[..|order|] == order;
        order := order + [p];
        rest := rest - {p};
      }
      forall counters ensures IsFrontier(View(d.records, counters), frontier) {
        assert Visits(order, View(d.records, counters).records.Keys);
      }
    }

    method RedriveAttempts(run: string, step: string, ghost c: Cells) returns (n: int)
      requires Valid() && AreCells(layout, c, execKv.entries, run)
      ensures n == Attempts(ViewOf(c), step)
    {
      var k := layout.key(RedriveRef(run, step));
      n := 0;
      if k in execKv.entries && execKv.entries[k].Number? {
        n := execKv.entries[k].n;
      }
    }

    method Put(ref: KeyRef, v: Value, written: bool, ghost c: Cells)
      requires Valid() && layout.plain(ref.run) && AreCells(layout, c, execKv.entries, ref.run)
      modifies execKv
      ensures AreCells(layout, if written then PutCell(c, ref, v) else c, execKv.entries, ref.run)
      ensures OthersKept(layout, old(execKv.entries), execKv.entries, ref.run)
    {
      ghost var before := execKv.entries;
      AllKept(layout, before, ref.run);
      if written {
        execKv.entries := execKv.entries[layout.key(ref) := v];
        PutCells(layout, c, before, ref, v, execKv.entries, PutCell(c, ref, v));
        PutKeepsOthers(layout, before, execKv.entries, ref, v);
      }
    }

    /** failStep: a terminal record for a hop that used up its re-drives. */
    method FailStep(run: string, hop: EmitRecord, written: bool, now: int, ghost c: Cells, ghost d: Cells)
      requires Valid() && layout.plain(run) && AreCells(layout, c, execKv.entries, run)
      requires d == if written then PutRecord(c, hop.stepKey, FailedRecord(hop, now)) else c
      modifies execKv
      ensures AreCells(layout, d, execKv.entries, run)
      ensures written ==>
        && HasRecord(layout, execKv.entries, run, hop.stepKey)
        && GaveUp(RecordAt(layout, execKv.entries, run, hop.stepKey), hop.stepKey, [hop], now)
      ensures OthersKept(layout, old(execKv.entries), execKv.entries, run)
    {
      Put(StepRef(run, hop.stepKey), StepJson(FailedRecord(hop, now)), written, c);
      assert written ==> d.steps[hop.stepKey] == StepJson(FailedRecord(hop, now)) && hop in [hop];
    }

    method RecordRedrive(run: string, step: string, attempts: int, written: bool, ghost c: Cells, ghost d: Cells)
      requires Valid() && layout.plain(run) && AreCells(layout, c, execKv.entries, run)
      requires d == if written then PutCounter(c, step, attempts) else c
      modifies execKv
      ensures AreCells(layout, d, execKv.entries, run)
      ensures OthersKept(layout, old(execKv.entries), execKv.entries, run)
    {
      Put(RedriveRef(run, step), Number(attempts), written, c);
    }

    /** Handles one frontier hop: re-publish and count, or give up once the re-drives are used up. */
    method DriveOne(run: string, hop: EmitRecord, a: HopAnswer, now: int, ghost c: Cells)
      returns (more: seq<EmitRecord>)
      requires Valid() && layout.plain(run) && AreCells(layout, c, execKv.entries, run)
      modifies execKv, this`published
      ensures AreCells(layout, CellDriveHop(c, hop, a, now), execKv.entries, run)
      ensures more == if Attempts(ViewOf(c), hop.stepKey) < MAX_REDRIVES && a.acked then [hop] else []
      ensures published == old(published) + Tagged(run, more)
      ensures OthersKept(layout, old(execKv.entries), execKv.entries, run)
    {
      var attempts := RedriveAttempts(run, hop.stepKey, c);
      ghost var d := CellDriveHop(c, hop, a, now);
      HopOutcome(c, hop, a, now, attempts, d);
      FewTagged(published, run, hop);
      if attempts >= MAX_REDRIVES {
        FailStep(run, hop, a.written, now, c, d);
        return [];
      }
      if !a.acked {
        AllKept(layout, execKv.entries, run);
        return [];
      }
      published := published + [Msg(run, hop)];
      RecordRedrive(run, hop.stepKey, attempts + 1, a.written, c, d);
      return [hop];
    }

    /** Deletes every key the run's ledger tracks; delete errors are ignored. */
    method CollectRun(run: string, d: Ledger, deleteFails: set<string>)
      requires Valid() && layout.plain(run) && IsLedger(layout, d, execKv.entries, run)
      modifies execKv
      ensures forall k :: k in execKv.entries <==>
        k in old(execKv.entries) && (k in deleteFails || !Tracked(layout, old(execKv.entries), k, run))
      ensures forall k :: k in execKv.entries ==> execKv.entries[k] == old(execKv.entries[k])
    {
      ghost var before := execKv.entries;
      var i := 0;
      while i < |d.keys|
        invariant 0 <= i <= |d.keys|
        invariant forall k :: k in execKv.entries <==> k in before && (k in deleteFails || k !in d.keys[..i])
        invariant forall k :: k in execKv.entries ==> execKv.entries[k] == before[k]
      {
        if d.keys[i] !in deleteFails {
          execKv.entries := execKv.entries - {d.keys[i]};
        }
        assert d.keys[..i + 1] == d.keys[..i] + [d.keys[i]];
        i := i + 1;
      }
      assert d.keys[..|d.keys|] == d.keys;
    }

    /** DriveOne as the i-th step through a frontier. */
    method DriveNext(run: string, frontier: seq<EmitRecord>, i: nat, answers: Answers, now: int, ghost c: Cells)
      returns (more: seq<EmitRecord>)
      requires Valid() && layout.plain(run) && i < |frontier|
      requires AreCells(layout, CellDriveHops(c, frontier, answers, now, i), execKv.entries, run)
      modifies execKv, this`published
      ensures AreCells(layout, CellDriveHops(c, frontier, answers, now, i + 1), execKv.entries, run)
      ensures Redriven(ViewOf(c), frontier, answers, now, i + 1)
           == Redriven(ViewOf(c), frontier, answers, now, i) + more
      ensures published == old(published) + Tagged(run, more)
      ensures OthersKept(layout, old(execKv.entries), execKv.entries, run)
    {
      ghost var d := CellDriveHops(c, frontier, answers, now, i);
      CellDriveHopsRefines(c, frontier, answers, now, i);
      more := DriveOne(run, frontier[i], answers(i), now, d);
    }

    /** Re-drives or fails every hop of a stale run's frontier. */
    method DriveFrontier(run: string, frontier: seq<EmitRecord>, answers: Answers, now: int, ghost c: Cells)
      returns (redriven: seq<EmitRecord>)
      requires Valid() && layout.plain(run) && AreCells(layout, c, execKv.entries, run)
      modifies execKv, this`published
      ensures AreCells(layout, CellDriveHops(c, frontier, answers, now, |frontier|), execKv.entries, run)
      ensures redriven == Redriven(ViewOf(c), frontier, answers, now, |frontier|)
      ensures published == old(published) + Tagged(run, redriven)
      ensures OthersKept(layout, old(execKv.entries), execKv.entries, run)
    {
      ghost var before, sent := execKv.entries, published;
      redriven := [];
      var i := 0;
      AllKept(layout, before, run);
      while i < |frontier|
        invariant 0 <= i <= |frontier|
        invariant AreCells(layout, CellDriveHops(c, frontier, answers, now, i), execKv.entries, run)
        invariant redriven == Redriven(ViewOf(c), frontier, answers, now, i)
        invariant published == sent + Tagged(run, redriven)
        invariant OthersKept(layout, before, execKv.entries, run)
      {
        ghost var mid := execKv.entries;
        var more := DriveNext(run, frontier, i, answers, now, c);
        OthersKeptTwice(layout, before, mid, execKv.entries, run);
        TaggedMore(sent, run, redriven, more);
        redriven := redriven + more;
        i := i + 1;
      }
    }

    /** The pass over one run: collect it, leave it, or drive its frontier. */
    method PassOverRun(run: string, d: Ledger, answers: Answers, deleteFails: set<string>, now: int, ghost c: Cells)
      returns (redriven: seq<EmitRecord>, ghost v: Visit)
      requires Valid() && layout.plain(run)
      requires IsLedger(layout, d, execKv.entries, run) && AreCells(layout, c, execKv.entries, run)
      modifies execKv, this`published
      ensures v == Visit(c, v.frontier, answers, deleteFails, now)
      ensures RunPassed(layout, execKv.entries, run, v) && redriven == SentBy(v)
      ensures published == old(published) + Tagged(run, redriven)
      ensures OthersKept(layout, old(execKv.entries), execKv.entries, run)
    {
      ghost var before := execKv.entries;
      var hops := FrontierOf(d);
      v := Visit(c, hops, answers, deleteFails, now);
      redriven := [];
      LedgerIsView(layout, d, before, run, c);
      assert IsFrontier(View(d.records, CountersOf(c)), hops);
      assert Tagged(run, []) == [];
      if hops == [] {
        if now - d.latest > GC_AFTER {
          CollectRun(run, d, deleteFails);
          DeleteCells(layout, c, before, execKv.entries, run, answers, deleteFails);
          DeleteKeepsOthers(layout, before, execKv.entries, run);
        }
      } else if now - d.latest >= STALE_AFTER {
        redriven := DriveFrontier(run, hops, answers, now, c);
      }
    }

    /** One run's turn, seen from the start of the whole pass. */
    method VisitRun(
        run: string, d: Ledger, answers: string -> Answers, deleteFails: set<string>, now: int,
        ghost start: Moment, ghost visits: map<string, Visit>)
      returns (redriven: seq<EmitRecord>, ghost more: map<string, Visit>)
      requires Valid() && layout.plain(run) && run !in visits && IsLedger(layout, d, start.kv, run)
      requires AllAnswered(visits, answers, deleteFails, now)
      requires AllDone(layout, start, At(), visits) && RestUntouched(layout, start, At(), visits)
      requires StrangersKept(layout, start.kv, execKv.entries)
      modifies execKv, this`published
      ensures more.Keys == visits.Keys + {run} && AllAnswered(more, answers, deleteFails, now)
      ensures AllDone(layout, start, At(), more) && RestUntouched(layout, start, At(), more)
      ensures StrangersKept(layout, start.kv, execKv.entries)
      ensures published == old(published) + Tagged(run, redriven)
    {
      ghost var mid := At();
      ghost var c := CellsExist(layout, start.kv, run);
      LedgerSurvives(layout, start, mid, run, d, c);
      ghost var v: Visit;
      redriven, v := PassOverRun(run, d, answers(run), deleteFails, now, c);
      more := visits[run := v];
      OneMoreDone(layout, start, mid, At(), run, v, visits);
      AnsweredMore(visits, answers, deleteFails, now, run, v);
    }

    /** The loop of reconcileRuns over the ledgers it read. */
    method VisitAll(runs: map<string, Ledger>, answers: string -> Answers, deleteFails: set<string>, now: int)
      returns (redriven: seq<EmitRecord>, ghost visits: map<string, Visit>)
      requires Valid() && AllFiled(layout, runs, execKv.entries)
      modifies execKv, this`published
      ensures visits.Keys == runs.Keys
      ensures AllAnswered(visits, answers, deleteFails, now)
      ensures AllDone(layout, old(At()), At(), visits)
      ensures RestUntouched(layout, old(At()), At(), visits)
      ensures StrangersKept(layout, old(execKv.entries), execKv.entries)
      ensures Hops(published) == Hops(old(published)) + redriven
    {
      ghost var start := At();
      redriven, visits := [], map[];
      var todo := runs.Keys;
      while todo != {}
        invariant todo <= runs.Keys && visits.Keys == runs.Keys - todo
        invariant AllAnswered(visits, answers, deleteFails, now)
        invariant AllDone(layout, start, At(), visits)
        invariant RestUntouched(layout, start, At(), visits)
        invariant StrangersKept(layout, start.kv, execKv.entries)
        invariant Hops(published) == Hops(start.sent) + redriven
        decreases |todo|
      {
        var run :| run in todo;
        ghost var mid := At();
        var more, next := VisitRun(run, runs[run], answers, deleteFails, now, start, visits);
        HopsGrow(start, mid, At(), run, redriven, more);
        redriven, visits := redriven + more, next;
        OneMoreKey(runs.Keys, todo, run);
        todo := todo - {run};
      }
    }

    /**
     * One pass. Every run with a tracked key has exactly one turn, from the cells it had at
     * the start and with a frontier it really had; every other key keeps its value; and the
     * messages sent are, run by run, exactly the ones that run's turn calls for. A record that
     * was not there before is the failure of a listed hop, dated by the pass.
     */
    method ReconcileRuns(answers: string -> Answers, deleteFails: set<string>, now: int)
      returns (redriven: seq<EmitRecord>, ghost visits: map<string, Visit>)
      requires Valid()
      modifies execKv, this`published
      ensures forall run :: run in visits <==> exists k :: Tracked(layout, old(execKv.entries), k, run)
      ensures AllAnswered(visits, answers, deleteFails, now)
      ensures AllDone(layout, old(At()), At(), visits)
      ensures RestUntouched(layout, old(At()), At(), visits)
      ensures StrangersKept(layout, old(execKv.entries), execKv.entries)
      ensures Hops(published) == Hops(old(published)) + redriven
      ensures FailuresDated(layout, old(execKv.entries), execKv.entries, now)
    {
      ghost var before := At();
      var runs := ReadLedger();
      redriven, visits := VisitAll(runs, answers, deleteFails, now);
      PassDatesFailures(layout, before, At(), visits, answers, deleteFails, now);
    }

    /** StartRunReconciler: one pass for every tick at which this pod leads, for as long as it runs. */
    method StartRunReconciler(ticks: seq<Tick>)
      returns (ghost moments: seq<Moment>, ghost turns: seq<map<string, Visit>>)
      requires Valid()
      modifies execKv, this`published
      ensures IsSchedule(layout, ticks, moments, turns)
      ensures moments[0] == old(At()) && moments[|ticks|] == At()
    {
      moments, turns := [At()], [];
      var i := 0;
      while i < |ticks|
        invariant 0 <= i <= |ticks|
        invariant IsSchedule(layout, ticks[..i], moments, turns)
        invariant moments[0] == old(At()) && moments[i] == At()
      {
        ghost var before := At();
        ghost var visits;
        var redriven;
        redriven, visits := ReconcileRuns(ticks[i].answers, ticks[i].deleteFails, ticks[i].now);
        ScheduleGrows(layout, ticks, i, moments, turns, At(), visits);
        moments, turns := moments + [At()], turns + [visits];
        i := i + 1;
      }
      assert ticks[..i] == ticks;
    }
  }

  // ----- convergence over the bucket -----

  /** The run's values, as they are in the bucket, are closed under emits. */
  ghost predicate RunClosed(l: Layout, kv: Entries, run: string) {
    exists c: Cells :: AreCells(l, c, kv, run) && Closed(ViewOf(c))
  }

  /** At this pass the run had no progress for the staleness limit, and every publish and write for it succeeds. */
  ghost predicate StaleTick(l: Layout, kv: Entries, run: string, t: Tick) {
    && AllSucceed(t.answers(run))
    && (forall c: Cells :: AreCells(l, c, kv, run) ==> IsStale(ViewOf(c), t.now))
  }

  /** A run that is not closed has a record, so the pass visits it. */
  lemma OpenRunIsVisited(l: Layout, kv: Entries, run: string, c: Cells)
    requires Lawful(l) && l.plain(run) && AreCells(l, c, kv, run) && !Closed(ViewOf(c))
    ensures exists k :: Tracked(l, kv, k, run)
  {
    var p :| p in RecordsOf(c);
    assert l.parse(l.key(StepRef(run, p))) == Some(StepRef(run, p));
    assert Tracked(l, kv, l.key(StepRef(run, p)), run);
  }

  /** What one pass over the whole bucket does to one open run is the one-run pass on its view. */
  lemma TurnIsPass(
      l: Layout, before: Moment, after: Moment, run: string, v: Visit, c: Cells, d: Cells) returns (p: Pass)
    requires RunDone(l, before, after, run, v) && AreCells(l, c, before.kv, run) && AreCells(l, d, after.kv, run)
    ensures p.answers == v.answers && p.now == v.now && IsFrontier(ViewOf(c), p.frontier)
    ensures ViewOf(d) == RunPass(ViewOf(c), p)
  {
    CellsUnique(l, c, v.cells, before.kv, run);
    CellsUnique(l, d, CellsAfter(l, run, v), after.kv, run);
    var a := AnswersFor(l, v.cells, run, v.answers, v.deleteFails);
    PassRefines(v.cells, v.frontier, a, v.now);
    p := Pass(v.frontier, v.answers, DeletionsOf(v.cells, a), v.now);
  }

  /** One pass over the bucket is progress for every open run that is stale. */
  lemma TickIsProgress(
      l: Layout, before: Moment, after: Moment, visits: map<string, Visit>, t: Tick, run: string, c: Cells, d: Cells)
    requires Lawful(l) && l.plain(run) && AllDone(l, before, after, visits)
    requires AllAnswered(visits, t.answers, t.deleteFails, t.now)
    requires forall r :: r in visits <==> exists k :: Tracked(l, before.kv, k, r)
    requires AreCells(l, c, before.kv, run) && AreCells(l, d, after.kv, run)
    requires StaleTick(l, before.kv, run, t) && !Closed(ViewOf(c))
    ensures Progress(ViewOf(c), ViewOf(d))
  {
    OpenRunIsVisited(l, before.kv, run, c);
    var p := TurnIsPass(l, before, after, run, visits[run], c, d);
    StalePassIsProgress(ViewOf(c), p);
  }

  lemma TickStep(
      l: Layout, ticks: seq<Tick>, moments: seq<Moment>, turns: seq<map<string, Visit>>, run: string, i: nat,
      c: Cells, d: Cells)
    requires Lawful(l) && l.plain(run) && IsSchedule(l, ticks, moments, turns) && i < |ticks|
    requires AreCells(l, c, moments[i].kv, run) && AreCells(l, d, moments[i + 1].kv, run)
    requires StaleTick(l, moments[i].kv, run, ticks[i]) && !RunClosed(l, moments[i].kv, run)
    ensures Progress(ViewOf(c), ViewOf(d))
  {
    ScheduledPass(l, ticks, moments, turns, i);
    TickIsProgress(l, moments[i], moments[i + 1], turns[i], ticks[i], run, c, d);
  }

  function Views(cells: seq<Cells>): seq<View> { seq(|cells|, i requires 0 <= i < |cells| => ViewOf(cells[i])) }

  ghost predicate AllCells(l: Layout, cells: seq<Cells>, moments: seq<Moment>, run: string) {
    |cells| == |moments| && forall i :: 0 <= i < |cells| ==> AreCells(l, cells[i], moments[i].kv, run)
  }

  /** While the run stays open, each stale pass is progress. */
  lemma OpenTicksProgress(
      l: Layout, ticks: seq<Tick>, moments: seq<Moment>, turns: seq<map<string, Visit>>, run: string,
      cells: seq<Cells>, i: nat)
    requires Lawful(l) && l.plain(run) && IsSchedule(l, ticks, moments, turns) && AllCells(l, cells, moments, run)
    requires i < |ticks| && StaleTick(l, moments[i].kv, run, ticks[i]) && !RunClosed(l, moments[i].kv, run)
    ensures Progress(Views(cells)[i], Views(cells)[i + 1])
  {
    TickStep(l, ticks, moments, turns, run, i, cells[i], cells[i + 1]);
  }

  /**
   * Over any maxRedrives + 1 consecutive passes that find a run stale, with no step completing in
   * between and every publish and write for the run succeeding, whatever the other runs do: at some
   * point the run's frontier in the bucket is empty.
   */
  lemma TicksConverge(
      l: Layout, ticks: seq<Tick>, moments: seq<Moment>, turns: seq<map<string, Visit>>, run: string)
    requires Lawful(l) && l.plain(run) && IsSchedule(l, ticks, moments, turns) && |ticks| == MAX_REDRIVES + 1
    requires forall i :: 0 <= i < |ticks| ==> StaleTick(l, moments[i].kv, run, ticks[i])
    requires forall c: Cells :: AreCells(l, c, moments[0].kv, run) ==> CountersInRange(ViewOf(c))
    ensures exists i :: 0 <= i <= |ticks| && RunClosed(l, moments[i].kv, run)
  {
    if forall i :: 0 <= i <= |ticks| ==> !RunClosed(l, moments[i].kv, run) {
      var cells := CellsOf(l, moments, run, |moments|);
      var views, n := Views(cells), |ticks|;
      forall i | 0 <= i < n ensures Progress(views[i], views[i + 1]) {
        OpenTicksProgress(l, ticks, moments, turns, run, cells, i);
      }
      var key := OpenRunHasPendingKey(views[n]);
      ProgressAdds(views, n, key);
      BudgetInRange(views[0], key);
    }
  }

  /** A run with a record has its turn in every pass. */
  lemma TurnOf(
      l: Layout, t: Tick, before: Moment, after: Moment, visits: map<string, Visit>, run: string, s: string)
    returns (v: Visit)
    requires Lawful(l) && l.plain(run) && IsPass(l, t, before, after, visits) && HasRecord(l, before.kv, run, s)
    ensures RunDone(l, before, after, run, v) && v.now == t.now
  {
    assert l.parse(l.key(StepRef(run, s))) == Some(StepRef(run, s));
    assert Tracked(l, before.kv, l.key(StepRef(run, s)), run);
    v := visits[run];
    assert AnsweredBy(v, t.answers(run), t.deleteFails, t.now);
  }

  /** A turn within a day of some record's completion removes nothing from the run. */
  lemma TurnKeepsAll(
      l: Layout, before: Moment, after: Moment, run: string, v: Visit, s: string, c: Cells, d: Cells)
    requires RunDone(l, before, after, run, v) && AreCells(l, c, before.kv, run) && AreCells(l, d, after.kv, run)
    requires s in RecordsOf(c) && v.now <= RecordsOf(c)[s].completedAt + GC_AFTER
    ensures KeepsAll(ViewOf(c), ViewOf(d))
  {
    var p := TurnIsPass(l, before, after, run, v, c, d);
    RecentRecordKeepsAll(ViewOf(c), p.frontier, p.answers, p.gone, p.now, s);
  }

  lemma PassKeepsAll(
      l: Layout, t: Tick, before: Moment, after: Moment, visits: map<string, Visit>, run: string, s: string,
      c: Cells, d: Cells)
    requires Lawful(l) && l.plain(run) && IsPass(l, t, before, after, visits)
    requires AreCells(l, c, before.kv, run) && AreCells(l, d, after.kv, run)
    requires s in RecordsOf(c) && t.now <= RecordsOf(c)[s].completedAt + GC_AFTER
    ensures KeepsAll(ViewOf(c), ViewOf(d))
  {
    assert HasRecord(l, before.kv, run, s);
    var v := TurnOf(l, t, before, after, visits, run, s);
    TurnKeepsAll(l, before, after, run, v, s, c, d);
  }

  predicate TicksUntil(ticks: seq<Tick>, time: int) { forall m :: 0 <= m < |ticks| ==> ticks[m].now <= time }

  lemma NextPassKeeps(
      l: Layout, t: Tick, before: Moment, after: Moment, visits: map<string, Visit>, run: string, s: string,
      start: View, c: Cells, d: Cells)
    requires Lawful(l) && l.plain(run) && IsPass(l, t, before, after, visits)
    requires AreCells(l, c, before.kv, run) && AreCells(l, d, after.kv, run)
    requires s in start.records && t.now <= start.records[s].completedAt + GC_AFTER
    requires KeepsAll(start, ViewOf(c))
    ensures KeepsAll(start, ViewOf(d))
  {
    PassKeepsAll(l, t, before, after, visits, run, s, c, d);
    KeepsAllTwice(start, ViewOf(c), ViewOf(d));
  }

  /** If the i-th view still has all of the first one, so has the next. */
  ghost predicate StepKeeps(views: seq<View>, i: nat) {
    i + 1 < |views| && KeepsAll(views[0], views[i]) ==> KeepsAll(views[0], views[i + 1])
  }

  lemma {:induction false} ViewsKeep(views: seq<View>, n: nat)
    requires n < |views| && forall i :: StepKeeps(views, i)
    ensures KeepsAll(views[0], views[n])
    decreases n
  {
    if n > 0 {
      ViewsKeep(views, n - 1);
      assert StepKeeps(views, n - 1);
    }
  }

  lemma DayStep(
      l: Layout, ticks: seq<Tick>, moments: seq<Moment>, turns: seq<map<string, Visit>>, run: string, s: string,
      start: View, c: Cells, d: Cells, i: nat)
    requires Lawful(l) && l.plain(run) && IsSchedule(l, ticks, moments, turns) && i < |ticks|
    requires AreCells(l, c, moments[i].kv, run) && AreCells(l, d, moments[i + 1].kv, run)
    requires s in start.records && ticks[i].now <= start.records[s].completedAt + GC_AFTER
    ensures KeepsAll(start, ViewOf(c)) ==> KeepsAll(start, ViewOf(d))
  {
    if KeepsAll(start, ViewOf(c)) {
      ScheduledPass(l, ticks, moments, turns, i);
      NextPassKeeps(l, ticks[i], moments[i], moments[i + 1], turns[i], run, s, start, c, d);
    }
  }

  lemma DayStepAt(
      l: Layout, ticks: seq<Tick>, moments: seq<Moment>, turns: seq<map<string, Visit>>, run: string, s: string,
      cells: seq<Cells>, time: int, i: nat)
    requires Lawful(l) && l.plain(run) && IsSchedule(l, ticks, moments, turns) && AllCells(l, cells, moments, run)
    requires i < |ticks| && ticks[i].now <= time && s in RecordsOf(cells[0])
    requires time <= RecordsOf(cells[0])[s].completedAt + GC_AFTER
    ensures StepKeeps(Views(cells), i)
  {
    DayStep(l, ticks, moments, turns, run, s, ViewOf(cells[0]), cells[i], cells[i + 1], i);
  }

  /** No pass within a day of a record's completion removes anything from its run. */
  lemma RecordStaysADay(
      l: Layout, ticks: seq<Tick>, moments: seq<Moment>, turns: seq<map<string, Visit>>, run: string, s: string,
      cells: seq<Cells>, time: int)
    requires Lawful(l) && l.plain(run) && IsSchedule(l, ticks, moments, turns) && AllCells(l, cells, moments, run)
    requires TicksUntil(ticks, time) && s in RecordsOf(cells[0])
    requires time <= RecordsOf(cells[0])[s].completedAt + GC_AFTER
    ensures KeepsAll(ViewOf(cells[0]), ViewOf(cells[|ticks|]))
  {
    forall i: nat ensures StepKeeps(Views(cells), i) {
      if i < |ticks| { DayStepAt(l, ticks, moments, turns, run, s, cells, time, i); }
    }
    ViewsKeep(Views(cells), |ticks|);
  }

  lemma FailureIsDatedBy(
      l: Layout, t: Tick, before: Moment, after: Moment, visits: map<string, Visit>, run: string, s: string)
    requires l.plain(run) && IsPass(l, t, before, after, visits)
    requires !HasRecord(l, before.kv, run, s) && HasRecord(l, after.kv, run, s)
    ensures RecordAt(l, after.kv, run, s).completedAt == t.now
  {
    PassDatesFailures(l, before, after, visits, t.answers, t.deleteFails, t.now);
    assert FailedNow(l, before.kv, run, s, RecordAt(l, after.kv, run, s), t.now);
  }

  /**
   * When a pass over the bucket gives a hop of a run up, no pass within a day of it removes a record
   * or a counter of that run, whatever the other runs do.
   */
  lemma FailureStaysADay(
      l: Layout, t: Tick, before: Moment, visits: map<string, Visit>, later: seq<Tick>, moments: seq<Moment>,
      turns: seq<map<string, Visit>>, run: string, s: string, c: Cells, d: Cells)
    requires Lawful(l) && l.plain(run) && IsSchedule(l, later, moments, turns)
    requires IsPass(l, t, before, moments[0], visits) && TicksUntil(later, t.now + GC_AFTER)
    requires !HasRecord(l, before.kv, run, s) && HasRecord(l, moments[0].kv, run, s)
    requires AreCells(l, c, moments[0].kv, run) && AreCells(l, d, moments[|later|].kv, run)
    ensures KeepsAll(ViewOf(c), ViewOf(d))
  {
    FailureIsDatedBy(l, t, before, moments[0], visits, run, s);
    var cells := CellsOf(l, moments, run, |moments|);
    CellsUnique(l, c, cells[0], moments[0].kv, run);
    CellsUnique(l, d, cells[|later|], moments[|later|].kv, run);
    RecordStaysADay(l, later, moments, turns, run, s, cells, t.now + GC_AFTER);
  }

  lemma {:induction false} CellsOf(l: Layout, moments: seq<Moment>, run: string, n: nat) returns (cells: seq<Cells>)
    requires Lawful(l) && l.plain(run) && n <= |moments|
    ensures |cells| == n && forall i :: 0 <= i < n ==> AreCells(l, cells[i], moments[i].kv, run)
    decreases n
  {
    if n == 0 {
      return [];
    }
    var front := CellsOf(l, moments, run, n - 1);
    var last := CellsExist(l, moments[n - 1].kv, run);
    cells := front + [last];
    forall i | 0 <= i < n ensures AreCells(l, cells[i], moments[i].kv, run) {
      assert cells[i] == if i < n - 1 then front[i] else last;
    }
  }
}
