/**
 * One run's ledger as the run reconciler sees it (internal/scheduler/reconciler.go):
 * the completion records, the re-drive counters, the frontier between them, and what
 * one reconcile pass does to them.
 */
module RunLedger {
  import opened StepLedger

  // Seconds.
  const STALE_AFTER: int := 360
  const GC_AFTER: int := 86400
  const MAX_REDRIVES: int := 3
  /** The zero time.Time, year 1. */
  const ZERO_TIME: int := -62135596800

  datatype View = View(records: map<string, StepRecord>, counters: map<string, int>)

  function Attempts(v: View, key: string): int {
    if key in v.counters then v.counters[key] else 0
  }

  /** A recorded step emitted the hop and the hop has no record of its own. */
  predicate Pending(v: View, hop: EmitRecord) {
    hop.stepKey !in v.records && exists p :: p in v.records && hop in v.records[p].emits
  }

  /** Every hop that a recorded step emitted has a record. */
  predicate Closed(v: View) {
    forall p :: p in v.records ==> forall e <- v.records[p].emits :: e.stepKey in v.records
  }

  // ----- the frontier -----

  function Outstanding(records: map<string, StepRecord>, emits: seq<EmitRecord>): seq<EmitRecord> {
    if emits == [] then []
    else
      var e := emits[|emits| - 1];
      Outstanding(records, emits[..|emits| - 1]) + (if e.stepKey in records then [] else [e])
  }

  lemma {:induction false} OutstandingMembers(records: map<string, StepRecord>, emits: seq<EmitRecord>, e: EmitRecord)
    ensures e in Outstanding(records, emits) <==> e in emits && e.stepKey !in records
    decreases |emits|
  {
    if emits != [] {
      OutstandingMembers(records, emits[..|emits| - 1], e);
      assert emits == emits[..|emits| - 1] + [emits[|emits| - 1]];
    }
  }

  /** The frontier collected by visiting the records in the given order. */
  function FrontierAlong(records: map<string, StepRecord>, order: seq<string>): seq<EmitRecord>
    requires forall p <- order :: p in records
  {
    if order == [] then []
    else
      FrontierAlong(records, order[..|order| - 1])
      + Outstanding(records, records[order[|order| - 1]].emits)
  }

  /** A map iteration visits every key once, in any order. */
  ghost predicate Visits(order: seq<string>, keys: set<string>) {
    && (forall i, j :: 0 <= i < j < |order| ==> order[i] != order[j])
    && (forall k :: k in order <==> k in keys)
  }

  ghost predicate IsFrontier(v: View, frontier: seq<EmitRecord>) {
    exists order :: Visits(order, v.records.Keys) && frontier == FrontierAlong(v.records, order)
  }

  lemma {:induction false} FrontierAlongMembers(records: map<string, StepRecord>, order: seq<string>, e: EmitRecord)
    requires forall p <- order :: p in records
    ensures e in FrontierAlong(records, order)
       <==> e.stepKey !in records && exists p :: p in order && e in records[p].emits
    decreases |order|
  {
    if order != [] {
      var last := order[|order| - 1];
      FrontierAlongMembers(records, order[..|order| - 1], e);
      OutstandingMembers(records, records[last].emits, e);
      assert order == order[..|order| - 1] + [last];
    }
  }

  /** Whatever the visiting order, the frontier holds exactly the pending hops. */
  lemma FrontierIsPending(v: View, frontier: seq<EmitRecord>, e: EmitRecord)
    requires IsFrontier(v, frontier)
    ensures e in frontier <==> Pending(v, e)
  {
    var order :| Visits(order, v.records.Keys) && frontier == FrontierAlong(v.records, order);
    FrontierAlongMembers(v.records, order, e);
  }

  /** The frontier is empty exactly when the recorded set is closed under emits. */
  lemma EmptyFrontierIffClosed(v: View, frontier: seq<EmitRecord>)
    requires IsFrontier(v, frontier)
    ensures frontier == [] <==> Closed(v)
  {
    if frontier == [] {
      forall p, e | p in v.records && e in v.records[p].emits
        ensures e.stepKey in v.records
      {
        FrontierIsPending(v, frontier, e);
      }
    } else {
      FrontierIsPending(v, frontier, frontier[0]);
    }
  }

  /** The step recorded under p emitted a hop with this key. */
  predicate Emits(v: View, p: string, key: string) {
    p in v.records && exists e :: e in v.records[p].emits && e.stepKey == key
  }

  /** chain[i + 1] is the key of a hop emitted by the step recorded under chain[i], where there is one. */
  predicate EmitChain(v: View, chain: seq<string>) {
    forall i :: 0 <= i < |chain| - 1 && chain[i] in v.records ==> Emits(v, chain[i], chain[i + 1])
  }

  lemma ClosedUnderEmits(v: View, p: string, key: string)
    requires Closed(v) && Emits(v, p, key)
    ensures key in v.records
  {
  }

  /** With an empty frontier, everything reachable from a recorded step has a record. */
  lemma {:induction false} ClosedReachesOnlyRecords(v: View, chain: seq<string>, n: nat)
    requires Closed(v) && EmitChain(v, chain) && n < |chain| && chain[0] in v.records
    ensures chain[n] in v.records
    decreases n
  {
    if n > 0 {
      var i := n - 1;
      ClosedReachesOnlyRecords(v, chain, i);
      assert Emits(v, chain[i], chain[i + 1]);
      ClosedUnderEmits(v, chain[i], chain[i + 1]);
    }
  }

  // ----- the latest completion -----

  ghost function Latest(records: map<string, StepRecord>): int
    decreases |records|
  {
    if records == map[] then ZERO_TIME
    else
      var k :| k in records;
      var rest := Latest(records - {k});
      if records[k].completedAt > rest then records[k].completedAt else rest
  }

  predicate IsLatest(records: map<string, StepRecord>, t: int) {
    && t >= ZERO_TIME
    && (forall k :: k in records ==> records[k].completedAt <= t)
    && (t == ZERO_TIME || exists k :: k in records && records[k].completedAt == t)
  }

  lemma {:induction false} LatestIsLatest(records: map<string, StepRecord>)
    ensures IsLatest(records, Latest(records))
    decreases |records|
  {
    if records != map[] {
      var k :| k in records && Latest(records) ==
        (if records[k].completedAt > Latest(records - {k}) then records[k].completedAt else Latest(records - {k}));
      LatestIsLatest(records - {k});
      forall j | j in records
        ensures records[j].completedAt <= Latest(records)
      {
        if j != k { assert j in records - {k}; }
      }
    }
  }

  lemma LatestUnique(records: map<string, StepRecord>, t: int)
    requires IsLatest(records, t)
    ensures t == Latest(records)
  {
    LatestIsLatest(records);
  }

  // ----- one pass over one run -----

  /**
   * How the outside world answers one hop of the pass: the publish was stored by the
   * broker, the publish was acknowledged, and the KV write that follows succeeded.
   */
  datatype HopAnswer = HopAnswer(stored: bool, acked: bool, written: bool)

  type Answers = nat -> HopAnswer

  /** Keys whose deletes succeeded. */
  datatype Deletions = Deletions(steps: set<string>, counters: set<string>)

  /** Terminal record for a hop that used up its re-drives. */
  function FailedRecord(hop: EmitRecord, now: int): StepRecord {
    StepRecord(hop.to, Failed, "re-drive limit reached", [], now)
  }

  function DriveHop(v: View, hop: EmitRecord, a: HopAnswer, now: int): View {
    var attempts := Attempts(v, hop.stepKey);
    if attempts >= MAX_REDRIVES then
      if a.written then v.(records := v.records[hop.stepKey := FailedRecord(hop, now)]) else v
    else if a.acked && a.written then v.(counters := v.counters[hop.stepKey := attempts + 1])
    else v
  }

  /** The view after the first n hops of the frontier were handled. */
  function DriveHops(v: View, hops: seq<EmitRecord>, answers: Answers, now: int, n: nat): View
    requires n <= |hops|
  {
    if n == 0 then v else DriveHop(DriveHops(v, hops, answers, now, n - 1), hops[n - 1], answers(n - 1), now)
  }

  /** The hops reported as re-driven, in order. */
  function Redriven(v: View, hops: seq<EmitRecord>, answers: Answers, now: int, n: nat): seq<EmitRecord>
    requires n <= |hops|
  {
    if n == 0 then []
    else
      var before := DriveHops(v, hops, answers, now, n - 1);
      Redriven(v, hops, answers, now, n - 1)
      + (if Attempts(before, hops[n - 1].stepKey) < MAX_REDRIVES && answers(n - 1).acked then [hops[n - 1]] else [])
  }

  function Collect(v: View, gone: Deletions): View {
    View(v.records - gone.steps, v.counters - gone.counters)
  }

  ghost predicate IsStale(v: View, now: int) {
    now - Latest(v.records) >= STALE_AFTER
  }

  ghost function PassView(v: View, frontier: seq<EmitRecord>, answers: Answers, gone: Deletions, now: int): View {
    if frontier == [] then
      if now - Latest(v.records) > GC_AFTER then Collect(v, gone) else v
    else if IsStale(v, now) then DriveHops(v, frontier, answers, now, |frontier|)
    else v
  }

  // ----- what a pass keeps -----

  /** A pass never removes or rewrites a record, and adds one only for a pending hop, without emits. */
  predicate OnlyFails(before: View, after: View) {
    && (forall k :: k in before.records ==> k in after.records && after.records[k] == before.records[k])
    && (forall k :: k in after.records && k !in before.records ==>
          after.records[k].status == Failed && after.records[k].emits == [])
  }

  lemma {:induction false} DriveHopsOnlyFails(
      v: View, hops: seq<EmitRecord>, answers: Answers, now: int, n: nat)
    requires n <= |hops| && forall h <- hops :: h.stepKey !in v.records
    ensures OnlyFails(v, DriveHops(v, hops, answers, now, n))
    ensures forall k :: k in DriveHops(v, hops, answers, now, n).records && k !in v.records ==>
      exists h <- hops :: h.stepKey == k
    decreases n
  {
    if n > 0 {
      DriveHopsOnlyFails(v, hops, answers, now, n - 1);
      assert hops[n - 1] in hops;
    }
  }

  /** A pass never creates a pending hop; it can only settle some. */
  lemma OnlyFailsShrinksFrontier(before: View, after: View, e: EmitRecord)
    requires OnlyFails(before, after)
    ensures Pending(after, e) <==> Pending(before, e) && e.stepKey !in after.records
  {
  }

  /** The terminal failure of a hop that a pass at `now` handled: dated by the pass, at the hop's target. */
  predicate GaveUp(rec: StepRecord, key: string, hops: seq<EmitRecord>, now: int) {
    && rec.completedAt == now && rec.status == Failed && rec.emits == [] && rec.error != ""
    && exists h <- hops :: h.stepKey == key && h.to == rec.node
  }

  lemma {:induction false} DriveHopsDates(v: View, hops: seq<EmitRecord>, answers: Answers, now: int, n: nat)
    requires n <= |hops| && forall h <- hops :: h.stepKey !in v.records
    ensures var w := DriveHops(v, hops, answers, now, n);
      forall k :: k in w.records && k !in v.records ==> GaveUp(w.records[k], k, hops, now)
    decreases n
  {
    if n > 0 {
      DriveHopsDates(v, hops, answers, now, n - 1);
      assert hops[n - 1] in hops;
    }
  }

  /** Every record that a pass adds is a failure of the time of the pass, of a hop of its frontier. */
  lemma AddedRecordsAreDated(v: View, frontier: seq<EmitRecord>, answers: Answers, gone: Deletions, now: int)
    requires IsFrontier(v, frontier)
    ensures var w := PassView(v, frontier, answers, gone, now);
      forall k :: k in w.records && k !in v.records ==> GaveUp(w.records[k], k, frontier, now)
  {
    forall h | h in frontier ensures h.stepKey !in v.records { FrontierIsPending(v, frontier, h); }
    DriveHopsDates(v, frontier, answers, now, |frontier|);
  }

  /** An unfinished run with recent progress is left alone: its hops are probably still in flight. */
  lemma OnlyStaleRunsAreDriven(
      v: View, frontier: seq<EmitRecord>, answers: Answers, gone: Deletions, now: int)
    requires IsFrontier(v, frontier) && PassView(v, frontier, answers, gone, now) != v
    ensures if Closed(v) then now - Latest(v.records) > GC_AFTER else now - Latest(v.records) >= STALE_AFTER
  {
    EmptyFrontierIffClosed(v, frontier);
  }

  /**
   * When a pass acts: on a finished run more than a day after its last completion, on an unfinished one
   * six minutes after it; then it counts or fails every hop whose calls succeed.
   */
  lemma PassActsIff(v: View, frontier: seq<EmitRecord>, answers: Answers, gone: Deletions, now: int)
    requires IsFrontier(v, frontier)
    ensures Closed(v) && now - Latest(v.records) <= 86400 ==> PassView(v, frontier, answers, gone, now) == v
    ensures Closed(v) && now - Latest(v.records) > 86400 && gone.steps >= v.records.Keys ==>
      PassView(v, frontier, answers, gone, now).records == map[]
    ensures !Closed(v) && now - Latest(v.records) < 360 ==> PassView(v, frontier, answers, gone, now) == v
    ensures !Closed(v) && now - Latest(v.records) >= 360 && AllSucceed(answers) ==>
      PassView(v, frontier, answers, gone, now) != v
  {
    EmptyFrontierIffClosed(v, frontier);
    if !Closed(v) && now - Latest(v.records) >= 360 && AllSucceed(answers) {
      StalePassProgress(v, frontier, answers, gone, now);
    }
  }

  /** Counters that outlived their run's records are collected by the next pass, whenever that is since 1970. */
  lemma LeftoverCountersAreCollected(v: View, frontier: seq<EmitRecord>, answers: Answers, gone: Deletions, now: int)
    requires v.records == map[] && IsFrontier(v, frontier) && gone.counters >= v.counters.Keys && now >= 0
    ensures PassView(v, frontier, answers, gone, now).counters == map[]
  {
    assert Closed(v);
    EmptyFrontierIffClosed(v, frontier);
  }

  // ----- convergence -----

  /** Every publish and every KV write succeeds. */
  ghost predicate AllSucceed(answers: Answers) {
    forall i: nat :: answers(i).acked && answers(i).written
  }

  /** Re-drives still allowed, plus the pass that gives up. */
  function Budget(v: View, key: string): int {
    if key in v.records then 0
    else if Attempts(v, key) >= MAX_REDRIVES then 1
    else MAX_REDRIVES + 1 - Attempts(v, key)
  }

  /** Handling hops never raises any budget, and lowers the budget of every hop handled. */
  lemma {:induction false} DriveHopsSpends(
      v: View, hops: seq<EmitRecord>, answers: Answers, now: int, n: nat, key: string)
    requires n <= |hops| && AllSucceed(answers)
    ensures Budget(DriveHops(v, hops, answers, now, n), key) <= Budget(v, key)
    ensures (exists i :: 0 <= i < n && hops[i].stepKey == key) && key !in v.records ==>
      Budget(DriveHops(v, hops, answers, now, n), key) < Budget(v, key)
    decreases n
  {
    if n > 0 {
      DriveHopsSpends(v, hops, answers, now, n - 1, key);
      var before := DriveHops(v, hops, answers, now, n - 1);
      DriveHopSpends(before, hops[n - 1], answers(n - 1), now, key);
    }
  }

  lemma DriveHopSpends(v: View, hop: EmitRecord, a: HopAnswer, now: int, key: string)
    requires a.acked && a.written
    ensures Budget(DriveHop(v, hop, a, now), key) <= Budget(v, key)
    ensures hop.stepKey == key && key !in v.records ==> Budget(DriveHop(v, hop, a, now), key) < Budget(v, key)
  {
  }

  function PendingKeys(v: View): set<string> {
    set p, e | p in v.records && e in v.records[p].emits && e.stepKey !in v.records :: e.stepKey
  }

  lemma PendingKeysArePending(v: View, key: string)
    ensures key in PendingKeys(v) <==> exists e: EmitRecord :: e.stepKey == key && Pending(v, e)
  {
  }

  ghost function TotalBudget(v: View, keys: set<string>): int
    decreases |keys|
  {
    if keys == {} then 0
    else
      var k :| k in keys;
      Budget(v, k) + TotalBudget(v, keys - {k})
  }

  lemma {:induction false} TotalBudgetRemove(v: View, keys: set<string>, k: string)
    requires k in keys
    ensures TotalBudget(v, keys) == Budget(v, k) + TotalBudget(v, keys - {k})
    decreases |keys|
  {
    var first :| first in keys && TotalBudget(v, keys) == Budget(v, first) + TotalBudget(v, keys - {first});
    if first != k {
      TotalBudgetRemove(v, keys - {first}, k);
      TotalBudgetRemove(v, keys - {k}, first);
      assert keys - {first} - {k} == keys - {k} - {first};
    }
  }

  lemma {:induction false} TotalBudgetDrops(v: View, w: View, keys: set<string>, left: set<string>)
    requires left <= keys
    requires forall k <- keys :: Budget(v, k) > 0
    requires forall k <- left :: Budget(w, k) < Budget(v, k)
    ensures TotalBudget(w, left) <= TotalBudget(v, keys)
    ensures keys != {} ==> TotalBudget(w, left) < TotalBudget(v, keys)
    decreases |keys|
  {
    if keys != {} {
      var k :| k in keys;
      TotalBudgetRemove(v, keys, k);
      if k in left {
        TotalBudgetRemove(w, left, k);
      }
      TotalBudgetDrops(v, w, keys - {k}, left - {k});
      assert k !in left ==> left - {k} == left;
    }
  }

  /**
   * With publishes and writes succeeding and no step completing, a stale pass adds no
   * hop to the frontier, lowers every frontier hop's budget, and lowers their sum.
   */
  lemma StalePassProgress(v: View, frontier: seq<EmitRecord>, answers: Answers, gone: Deletions, now: int)
    requires IsFrontier(v, frontier) && AllSucceed(answers) && IsStale(v, now) && !Closed(v)
    ensures var w := PassView(v, frontier, answers, gone, now);
      && PendingKeys(w) <= PendingKeys(v)
      && (forall k <- PendingKeys(w) :: Budget(w, k) < Budget(v, k))
      && TotalBudget(w, PendingKeys(w)) < TotalBudget(v, PendingKeys(v))
  {
    EmptyFrontierIffClosed(v, frontier);
    var w := PassView(v, frontier, answers, gone, now);
    forall h | h in frontier ensures h.stepKey !in v.records { FrontierIsPending(v, frontier, h); }
    DriveHopsOnlyFails(v, frontier, answers, now, |frontier|);
    forall k | k in PendingKeys(w)
      ensures k in PendingKeys(v) && Budget(w, k) < Budget(v, k)
    {
      PendingKeysArePending(w, k);
      var e: EmitRecord :| e.stepKey == k && Pending(w, e);
      OnlyFailsShrinksFrontier(v, w, e);
      FrontierIsPending(v, frontier, e);
      DriveHopsSpends(v, frontier, answers, now, |frontier|, k);
    }
    FrontierIsPending(v, frontier, frontier[0]);
    assert frontier[0].stepKey in PendingKeys(v);
    TotalBudgetDrops(v, w, PendingKeys(v), PendingKeys(w));
  }

  /** One pass of the schedule: its time, visiting order and answers. */
  datatype Pass = Pass(frontier: seq<EmitRecord>, answers: Answers, gone: Deletions, now: int)

  ghost function RunPass(v: View, p: Pass): View { PassView(v, p.frontier, p.answers, p.gone, p.now) }

  /** The view after the first n passes. */
  ghost function AfterPasses(v: View, passes: seq<Pass>, n: nat): View
    requires n <= |passes|
  {
    if n == 0 then v else RunPass(AfterPasses(v, passes, n - 1), passes[n - 1])
  }

  /** The pass computed its own frontier, found the run stale, and had every call succeed. */
  ghost predicate IsStalePass(before: View, p: Pass) {
    IsFrontier(before, p.frontier) && AllSucceed(p.answers) && IsStale(before, p.now)
  }

  ghost predicate StalePasses(v: View, passes: seq<Pass>) {
    forall i :: 0 <= i < |passes| ==> IsStalePass(AfterPasses(v, passes, i), passes[i])
  }

  predicate CountersInRange(v: View) {
    forall k :: k in v.counters ==> 0 <= v.counters[k] <= MAX_REDRIVES
  }

  /** Nothing new is pending in `w`, and whatever still is has a smaller budget. */
  ghost predicate Progress(v: View, w: View) {
    forall k <- PendingKeys(w) :: k in PendingKeys(v) && Budget(w, k) < Budget(v, k)
  }

  lemma {:induction false} ProgressAdds(views: seq<View>, n: nat, key: string)
    requires n < |views| && forall i :: 0 <= i < n ==> Progress(views[i], views[i + 1])
    requires key in PendingKeys(views[n])
    ensures key in PendingKeys(views[0]) && Budget(views[n], key) <= Budget(views[0], key) - n
    decreases n
  {
    if n > 0 {
      assert Progress(views[n - 1], views[n]);
      ProgressAdds(views, n - 1, key);
    }
  }

  lemma StalePassIsProgress(v: View, p: Pass)
    requires IsStalePass(v, p) && !Closed(v)
    ensures Progress(v, RunPass(v, p))
  {
    StalePassProgress(v, p.frontier, p.answers, p.gone, p.now);
  }

  lemma BudgetInRange(v: View, key: string)
    requires CountersInRange(v)
    ensures Budget(v, key) <= MAX_REDRIVES + 1
  {
  }

  lemma OpenRunHasPendingKey(v: View) returns (key: string)
    requires !Closed(v)
    ensures key in PendingKeys(v) && Budget(v, key) > 0
  {
    var p, e :| p in v.records && e in v.records[p].emits && e.stepKey !in v.records;
    key := e.stepKey;
  }

  /** After at most MAX_REDRIVES + 1 stale passes some pass has left the frontier empty. */
  lemma StalePassesConverge(v: View, passes: seq<Pass>)
    requires StalePasses(v, passes) && CountersInRange(v) && |passes| == MAX_REDRIVES + 1
    ensures exists i :: 0 <= i <= |passes| && Closed(AfterPasses(v, passes, i))
  {
    if forall i :: 0 <= i <= |passes| ==> !Closed(AfterPasses(v, passes, i)) {
      var n := |passes|;
      var views := seq(n + 1, i requires 0 <= i <= n => AfterPasses(v, passes, i));
      forall i | 0 <= i < n ensures Progress(views[i], views[i + 1]) {
        StalePassIsProgress(AfterPasses(v, passes, i), passes[i]);
      }
      var key := OpenRunHasPendingKey(views[n]);
      ProgressAdds(views, n, key);
      BudgetInRange(v, key);
    }
  }

  // ----- collection -----

  /** A run whose frontier is not empty is never collected. */
  lemma OnlyClosedRunsAreCollected(
      v: View, frontier: seq<EmitRecord>, answers: Answers, gone: Deletions, now: int, key: string)
    requires IsFrontier(v, frontier)
    requires var w := PassView(v, frontier, answers, gone, now);
      (key in v.records && key !in w.records) || (key in v.counters && key !in w.counters)
    ensures Closed(v) && now - Latest(v.records) > GC_AFTER
  {
    EmptyFrontierIffClosed(v, frontier);
    if frontier != [] && IsStale(v, now) {
      forall h | h in frontier ensures h.stepKey !in v.records { FrontierIsPending(v, frontier, h); }
      DriveHopsOnlyFails(v, frontier, answers, now, |frontier|);
      DriveHopsKeepCounters(v, frontier, answers, now, |frontier|);
    }
  }

  lemma {:induction false} DriveHopsKeepCounters(v: View, hops: seq<EmitRecord>, answers: Answers, now: int, n: nat)
    requires n <= |hops|
    ensures v.counters.Keys <= DriveHops(v, hops, answers, now, n).counters.Keys
    decreases n
  {
    if n > 0 { DriveHopsKeepCounters(v, hops, answers, now, n - 1); }
  }

  /** The later view has every record and every counter that the earlier one has, and the records as they were. */
  ghost predicate KeepsAll(v: View, w: View) {
    && (forall k :: k in v.records ==> k in w.records && w.records[k] == v.records[k])
    && v.counters.Keys <= w.counters.Keys
  }

  /** A pass at most a day after some record's completion removes nothing. */
  lemma RecentRecordKeepsAll(
      v: View, frontier: seq<EmitRecord>, answers: Answers, gone: Deletions, now: int, key: string)
    requires IsFrontier(v, frontier) && key in v.records && now <= v.records[key].completedAt + GC_AFTER
    ensures KeepsAll(v, PassView(v, frontier, answers, gone, now))
  {
    LatestIsLatest(v.records);
    forall h | h in frontier ensures h.stepKey !in v.records { FrontierIsPending(v, frontier, h); }
    DriveHopsOnlyFails(v, frontier, answers, now, |frontier|);
    DriveHopsKeepCounters(v, frontier, answers, now, |frontier|);
  }

  lemma KeepsAllTwice(u: View, v: View, w: View)
    requires KeepsAll(u, v) && KeepsAll(v, w)
    ensures KeepsAll(u, w)
  {
  }

  lemma StillKeepsAll(v: View, mid: View, p: Pass, key: string)
    requires KeepsAll(v, mid) && key in v.records
    requires IsFrontier(mid, p.frontier) && p.now <= v.records[key].completedAt + GC_AFTER
    ensures KeepsAll(v, RunPass(mid, p))
  {
    RecentRecordKeepsAll(mid, p.frontier, p.answers, p.gone, p.now, key);
    KeepsAllTwice(v, mid, RunPass(mid, p));
  }

  /** The m-th pass computed its own frontier, at this time at the latest. */
  ghost predicate PassUntil(v: View, passes: seq<Pass>, time: int, m: nat) {
    m < |passes| ==> IsFrontier(AfterPasses(v, passes, m), passes[m].frontier) && passes[m].now <= time
  }

  ghost predicate PassesUntil(v: View, passes: seq<Pass>, time: int) { forall m :: PassUntil(v, passes, time, m) }

  /** ... and neither does any number of them. */
  lemma {:induction false} RecordHoldsCollection(v: View, passes: seq<Pass>, n: nat, key: string, time: int)
    requires n <= |passes| && PassesUntil(v, passes, time)
    requires key in v.records && time <= v.records[key].completedAt + GC_AFTER
    ensures KeepsAll(v, AfterPasses(v, passes, n))
    decreases n
  {
    if n > 0 {
      RecordHoldsCollection(v, passes, n - 1, key, time);
      assert PassUntil(v, passes, time, n - 1);
      StillKeepsAll(v, AfterPasses(v, passes, n - 1), passes[n - 1], key);
    }
  }

  lemma FailureIsDated(v: View, p: Pass, w: View, key: string)
    requires IsFrontier(v, p.frontier) && w == RunPass(v, p) && key !in v.records && key in w.records
    ensures w.records[key].completedAt == p.now
  {
    AddedRecordsAreDated(v, p.frontier, p.answers, p.gone, p.now);
  }

  /**
   * When a pass gives a hop up, no pass within a day of it removes anything from the run: the
   * failure stays, and with it everything the run has then, to be looked at.
   */
  lemma FailureHoldsCollection(v: View, p: Pass, w: View, later: seq<Pass>, key: string)
    requires IsFrontier(v, p.frontier) && w == RunPass(v, p) && key !in v.records && key in w.records
    requires PassesUntil(w, later, p.now + GC_AFTER)
    ensures KeepsAll(w, AfterPasses(w, later, |later|))
  {
    FailureIsDated(v, p, w, key);
    RecordHoldsCollection(w, later, |later|, key, p.now + GC_AFTER);
  }

  /** A collection that loses a record but keeps one that lists its hop. */
  ghost predicate Orphans(v: View, gone: Deletions) {
    exists p, e :: p in v.records && p !in gone.steps && e in v.records[p].emits && e.stepKey in gone.steps
  }

  /**
   * Delete errors are ignored. A finished run stays finished through a partial collection
   * exactly when no surviving record lists a hop whose own record was deleted; otherwise
   * the finished hop is back in the frontier.
   */
  lemma PartialCollectionReopens(v: View, gone: Deletions)
    requires Closed(v)
    ensures Closed(Collect(v, gone)) <==> !Orphans(v, gone)
  {
    var w := Collect(v, gone);
    if !Closed(w) {
      var p, e :| p in w.records && e in w.records[p].emits && e.stepKey !in w.records;
      assert p in v.records && p !in gone.steps;
    }
    if Orphans(v, gone) {
      var p, e :| p in v.records && p !in gone.steps && e in v.records[p].emits && e.stepKey in gone.steps;
      assert p in w.records && e.stepKey !in w.records;
    }
  }

  /** One failed delete is enough: the finished hop is pending again. */
  lemma PartialCollectionExample()
    ensures exists v: View, gone: Deletions, e: EmitRecord ::
      Closed(v) && e.stepKey in v.records && Pending(Collect(v, gone), e)
  {
    var e := EmitRecord("n:in", "m:out", "edge", "child", "", "", "", 0);
    var parent := StepRecord("m", Done, "", [e], 0);
    var child := StepRecord("n", Done, "", [], 0);
    var v := View(map["parent" := parent, "child" := child], map[]);
    var gone := Deletions({"child"}, {});
    assert e in parent.emits;
    assert "parent" in Collect(v, gone).records;
    assert Pending(Collect(v, gone), e);
  }
}
