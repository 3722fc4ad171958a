/**
 * How often the protocol publishes and runs one hop: conservation of the re-drive
 * counters, and the invocation bound that follows from it.
 */
module ProtocolBounds {
  import opened Text
  import opened StepLedger
  import opened EdgeStream
  import opened RunLedger
  import opened Protocol
  import ProtocolSafety

  /** What the tallies, the counters and the queue agree on for one key. */
  ghost predicate Balanced(s: Sys, key: string) {
    && 0 <= Attempts(s.view, key) <= MAX_REDRIVES
    && s.tally.sent(key) == Attempts(s.view, key) + s.tally.lost(key) + s.tally.wiped(key)
    && StoredBy(s.queue.log, key, Redriven) <= s.tally.sent(key) + s.tally.unacked(key)
    && s.tally.invoked(key) <= Deliveries(s.queue.log, key)
  }

  lemma PublishCounts(q: Stream, now: int, hop: EmitRecord, origin: Origin, key: string)
    ensures var r := Publish(q, now, hop, origin);
      && Deliveries(r.log, key) == Deliveries(q.log, key)
      && StoredBy(r.log, key, Redriven)
         <= StoredBy(q.log, key, Redriven) + (if hop.stepKey == key && origin == Redriven then 1 else 0)
  {
    CountsAppend(q.log, Copy(hop, origin, now, 0, true), key);
  }

  /** One handled hop keeps the balance of every key. */
  lemma DriveBalanced(s: Sys, hop: EmitRecord, a: HopAnswer, key: string)
    requires Balanced(s, key) && (a.acked ==> a.stored)
    ensures Balanced(Drive(s, hop, a), key)
  {
    if Attempts(s.view, hop.stepKey) >= MAX_REDRIVES {
      var t := Drive(s, hop, a);
      assert t.queue == s.queue && t.tally == s.tally && t.view.counters == s.view.counters;
    } else {
      RedriveBalanced(s, hop, a, key);
    }
  }

  lemma RedriveBalanced(s: Sys, hop: EmitRecord, a: HopAnswer, key: string)
    requires Balanced(s, key) && (a.acked ==> a.stored) && Attempts(s.view, hop.stepKey) < MAX_REDRIVES
    ensures Balanced(Drive(s, hop, a), key)
  {
    PublishCounts(s.queue, s.now, hop, Redriven, key);
  }

  lemma {:induction false} DriveAllBalanced(s: Sys, hops: seq<EmitRecord>, answers: Answers, n: nat, key: string)
    requires n <= |hops| && Balanced(s, key) && Honest(answers)
    ensures Balanced(DriveAll(s, hops, answers, n), key)
    decreases n
  {
    if n > 0 {
      DriveAllBalanced(s, hops, answers, n - 1, key);
      DriveBalanced(DriveAll(s, hops, answers, n - 1), hops[n - 1], answers(n - 1), key);
    }
  }

  /** A collected counter's re-drives move from the counter to the forgotten ones. */
  lemma CollectBalanced(s: Sys, gone: Deletions, key: string)
    requires Balanced(s, key)
    ensures Balanced(s.(view := Collect(s.view, gone), tally := Forget(s.tally, s.view, gone)), key)
  {
  }

  lemma StepBalanced(s: Sys, step: Step, key: string)
    requires Enabled(s, step) && Balanced(s, key)
    ensures Balanced(Next(s, step), key)
  {
    match step
    case Deliver(i, id, readable, settled) =>
      CountsUpdate(s.queue.log, i, Next(s, step).queue.log[i], key);
    case Emit(id, em, k, stored, acked) =>
      PublishCounts(s.queue, s.now, HopOf(em, k, s.running[id].reply), Emitted, key);
    case Finish(id, outcome, _, _, _, settled) =>
      var copy := s.running[id].copy;
      if copy.Some? && copy.value < |s.queue.log| {
        CountsUpdate(s.queue.log, copy.value, s.queue.log[copy.value].(live := false), key);
      }
    case Expire(i) => CountsUpdate(s.queue.log, i, s.queue.log[i].(live := false), key);
    case Reconcile(frontier, answers, gone) =>
      DriveAllBalanced(s, frontier, answers, |frontier|, key);
      CollectBalanced(s, gone, key);
    case _ =>
  }

  lemma {:induction false} RunBalanced(trace: seq<Sys>, steps: seq<Step>, n: nat, key: string)
    requires IsRun(trace, steps) && Starts(trace) && n < |trace|
    ensures Balanced(trace[n], key)
    decreases n
  {
    if n > 0 {
      RunBalanced(trace, steps, n - 1, key);
      StepBalanced(trace[n - 1], steps[n - 1], key);
    }
  }

  lemma {:induction false} RunSound(trace: seq<Sys>, steps: seq<Step>, n: nat)
    requires IsRun(trace, steps) && Starts(trace) && n < |trace|
    ensures Sound(trace[n].queue, trace[n].now)
    decreases n
  {
    if n > 0 {
      RunSound(trace, steps, n - 1);
      StepSound(trace[n - 1], steps[n - 1]);
    }
  }

  /**
   * Over any run, acknowledged re-drives of one hop are at most the cap, plus one for every
   * lost counter write, plus what collections made the run forget.
   */
  lemma RedrivesBounded(trace: seq<Sys>, steps: seq<Step>, n: nat, key: string)
    requires IsRun(trace, steps) && Starts(trace) && n < |trace|
    ensures var t := trace[n].tally;
      t.sent(key) <= MAX_REDRIVES + t.lost(key) + t.wiped(key)
  {
    RunBalanced(trace, steps, n, key);
  }

  /**
   * When the step's own publishes of the hop lie inside one duplicate window, the hop's handler
   * runs at most MAX_DELIVER times for that publish and for every re-drive that reached the broker.
   */
  lemma InvocationsBounded(trace: seq<Sys>, steps: seq<Step>, n: nat, key: string)
    requires IsRun(trace, steps) && Starts(trace) && n < |trace| && key != ""
    requires CloseTogether(trace[n].queue.log, key, Emitted)
    ensures var t := trace[n].tally;
      t.invoked(key) <= MAX_DELIVER * (1 + MAX_REDRIVES + t.lost(key) + t.wiped(key) + t.unacked(key))
  {
    var s := trace[n];
    RunBalanced(trace, steps, n, key);
    RunSound(trace, steps, n);
    DeliveriesBounded(s.queue.log, key);
    StoredSplits(s.queue.log, key);
    CloseCopiesAreOne(s.queue, s.now, key, Emitted, |s.queue.log|);
    assert s.queue.log[..|s.queue.log|] == s.queue.log;
  }

  // ----- re-drives against the duplicate window -----

  /**
   * A re-drive that reaches the broker adds a copy exactly when the hop's last copy is a duplicate
   * window old. The counter goes up with the acknowledgement, whether a copy was added or not.
   */
  lemma RedriveStoresIff(s: Sys, hop: EmitRecord, a: HopAnswer)
    requires Attempts(s.view, hop.stepKey) < MAX_REDRIVES && a.stored && !hop.IsReplyHop()
    ensures var t, copy := Drive(s, hop, a), Copy(hop, Redriven, s.now, 0, true);
      && t.queue.log == s.queue.log + (if IsDuplicate(s.queue, s.now, hop.stepKey) then [] else [copy])
      && Stored(t.queue.log, hop.stepKey)
         == Stored(s.queue.log, hop.stepKey) + (if IsDuplicate(s.queue, s.now, hop.stepKey) then 0 else 1)
      && Attempts(t.view, hop.stepKey)
         == Attempts(s.view, hop.stepKey) + (if a.acked && a.written then 1 else 0)
  {
    CountsAppend(s.queue.log, Copy(hop, Redriven, s.now, 0, true), hop.stepKey);
  }

  // ----- a hop that gets stuck -----

  /** What the protocol holds of one hop: its re-drives, its record, its copies and when the last one was stored. */
  datatype Standing = Standing(attempts: int, record: Option<StepRecord>, copies: nat, last: Option<int>)

  function StandingOf(s: Sys, key: string): Standing {
    Standing(
      Attempts(s.view, key),
      if key in s.view.records then Some(s.view.records[key]) else None,
      Stored(s.queue.log, key),
      if key in s.queue.seen then Some(s.queue.seen[key]) else None)
  }

  /** What one stale pass does to a hop whose own publish and write succeed. */
  function DrivenOnce(h: Standing, hop: EmitRecord, now: int): Standing {
    if h.attempts >= MAX_REDRIVES then h.(record := Some(FailedRecord(hop, now)))
    else if h.last.Some? && now - h.last.value < DUPLICATE_WINDOW then h.(attempts := h.attempts + 1)
    else Standing(h.attempts + 1, h.record, h.copies + 1, Some(now))
  }

  lemma OwnPublish(q: Stream, now: int, hop: EmitRecord)
    requires hop.stepKey != "" && !hop.IsReplyHop()
    ensures IsDuplicate(q, now, hop.stepKey) ==> Publish(q, now, hop, Redriven) == q
    ensures !IsDuplicate(q, now, hop.stepKey) ==>
      var r := Publish(q, now, hop, Redriven);
      Stored(r.log, hop.stepKey) == Stored(q.log, hop.stepKey) + 1 && r.seen == q.seen[hop.stepKey := now]
  {
    CountsAppend(q.log, Copy(hop, Redriven, now, 0, true), hop.stepKey);
  }

  lemma OwnFailure(s: Sys, hop: EmitRecord)
    requires Attempts(s.view, hop.stepKey) >= MAX_REDRIVES
    ensures StandingOf(Drive(s, hop, HopAnswer(true, true, true)), hop.stepKey)
         == DrivenOnce(StandingOf(s, hop.stepKey), hop, s.now)
  {
    var t := Drive(s, hop, HopAnswer(true, true, true));
    assert t.queue == s.queue && t.view.counters == s.view.counters;
    assert t.view.records == s.view.records[hop.stepKey := FailedRecord(hop, s.now)];
  }

  lemma OwnRedrive(s: Sys, hop: EmitRecord)
    requires hop.stepKey != "" && !hop.IsReplyHop() && Attempts(s.view, hop.stepKey) < MAX_REDRIVES
    ensures StandingOf(Drive(s, hop, HopAnswer(true, true, true)), hop.stepKey)
         == DrivenOnce(StandingOf(s, hop.stepKey), hop, s.now)
  {
    var key, t := hop.stepKey, Drive(s, hop, HopAnswer(true, true, true));
    OwnPublish(s.queue, s.now, hop);
    assert t.queue == Publish(s.queue, s.now, hop, Redriven) && t.view.records == s.view.records;
    assert t.view.counters == s.view.counters[key := Attempts(s.view, key) + 1];
  }

  lemma OwnDrive(s: Sys, hop: EmitRecord)
    requires hop.stepKey != "" && !hop.IsReplyHop()
    ensures StandingOf(Drive(s, hop, HopAnswer(true, true, true)), hop.stepKey)
         == DrivenOnce(StandingOf(s, hop.stepKey), hop, s.now)
  {
    if Attempts(s.view, hop.stepKey) >= MAX_REDRIVES { OwnFailure(s, hop); } else { OwnRedrive(s, hop); }
  }

  lemma OtherDrive(s: Sys, other: EmitRecord, a: HopAnswer, key: string)
    requires other.stepKey != key
    ensures StandingOf(Drive(s, other, a), key) == StandingOf(s, key)
  {
    OtherView(s.view, other, a, s.now, key);
    OtherPublish(s.queue, s.now, other, Redriven, key);
    assert Drive(s, other, a).view == DriveHop(s.view, other, a, s.now);
    assert Drive(s, other, a).queue in {s.queue, Publish(s.queue, s.now, other, Redriven)};
  }

  lemma OtherView(v: View, other: EmitRecord, a: HopAnswer, now: int, key: string)
    requires other.stepKey != key
    ensures var w := DriveHop(v, other, a, now);
      && (key in w.records <==> key in v.records) && (key in v.records ==> w.records[key] == v.records[key])
      && Attempts(w, key) == Attempts(v, key)
  {
  }

  lemma {:induction false} OtherDrives(s: Sys, hops: seq<EmitRecord>, answers: Answers, m: nat, n: nat, key: string)
    requires m <= n <= |hops| && forall i :: m <= i < n ==> hops[i].stepKey != key
    ensures StandingOf(DriveAll(s, hops, answers, n), key) == StandingOf(DriveAll(s, hops, answers, m), key)
    decreases n
  {
    if m < n {
      OtherDrives(s, hops, answers, m, n - 1, key);
      OtherDrive(DriveAll(s, hops, answers, n - 1), hops[n - 1], answers(n - 1), key);
    }
  }

  predicate OnceAt(frontier: seq<EmitRecord>, hop: EmitRecord, at: nat) {
    && at < |frontier| && frontier[at] == hop
    && forall i :: 0 <= i < |frontier| && i != at ==> frontier[i].stepKey != hop.stepKey
  }

  /**
   * A stale pass whose frontier holds the hop once, beside any others, and in which the hop's own
   * publish and write succeed, whatever becomes of the others'.
   */
  ghost predicate DrivesOnce(s: Sys, step: Step, hop: EmitRecord) {
    && step.Reconcile? && IsStale(s.view, s.now)
    && exists at: nat :: OnceAt(step.frontier, hop, at) && step.answers(at) == HopAnswer(true, true, true)
  }

  lemma DriveUpTo(s: Sys, hops: seq<EmitRecord>, answers: Answers, at: nat, hop: EmitRecord)
    requires OnceAt(hops, hop, at) && answers(at) == HopAnswer(true, true, true)
    ensures var before := DriveAll(s, hops, answers, at);
      && StandingOf(before, hop.stepKey) == StandingOf(s, hop.stepKey) && before.now == s.now
      && DriveAll(s, hops, answers, at + 1) == Drive(before, hop, HopAnswer(true, true, true))
  {
    OtherDrives(s, hops, answers, 0, at, hop.stepKey);
    DriveAllNow(s, hops, answers, at);
  }

  lemma DriveAllOnce(s: Sys, hops: seq<EmitRecord>, answers: Answers, at: nat, hop: EmitRecord)
    requires OnceAt(hops, hop, at) && answers(at) == HopAnswer(true, true, true)
    requires hop.stepKey != "" && !hop.IsReplyHop()
    ensures StandingOf(DriveAll(s, hops, answers, |hops|), hop.stepKey)
         == DrivenOnce(StandingOf(s, hop.stepKey), hop, s.now)
  {
    DriveUpTo(s, hops, answers, at, hop);
    OwnDrive(DriveAll(s, hops, answers, at), hop);
    OtherDrives(s, hops, answers, at + 1, |hops|, hop.stepKey);
  }

  lemma StuckPass(s: Sys, step: Step, hop: EmitRecord)
    requires Enabled(s, step) && DrivesOnce(s, step, hop) && hop.stepKey != "" && !hop.IsReplyHop()
    ensures StandingOf(Next(s, step), hop.stepKey) == DrivenOnce(StandingOf(s, hop.stepKey), hop, s.now)
  {
    var hops, answers, n := step.frontier, step.answers, |step.frontier|;
    var at: nat :| OnceAt(hops, hop, at) && answers(at) == HopAnswer(true, true, true);
    assert Next(s, step) == DriveAll(s, hops, answers, n);
    DriveAllOnce(s, hops, answers, at, hop);
  }

  /** The step neither queues the hop nor records it, and if it is a pass it finds the run open and not stale. */
  ghost predicate LeavesAlone(s: Sys, step: Step, key: string) {
    match step
    case Emit(_, _, k, stored, _) => stored ==> k != key
    case Finish(id, _, _, _, _, _) => ProtocolSafety.Writes(s, step) ==> s.running[id].key != key
    case Reconcile(frontier, _, _) => frontier != [] && !IsStale(s.view, s.now)
    case _ => true
  }

  lemma OtherPublish(q: Stream, now: int, hop: EmitRecord, origin: Origin, key: string)
    requires hop.stepKey != key
    ensures var r := Publish(q, now, hop, origin);
      && Stored(r.log, key) == Stored(q.log, key)
      && (key in r.seen <==> key in q.seen) && (key in q.seen ==> r.seen[key] == q.seen[key])
  {
    CountsAppend(q.log, Copy(hop, origin, now, 0, true), key);
  }

  lemma SettleCounts(q: Stream, copy: Option<nat>, outcome: Outcome, settled: bool, key: string)
    ensures var r := Settle(q, copy, outcome, settled);
      Stored(r.log, key) == Stored(q.log, key) && r.seen == q.seen
  {
    if copy.Some? && copy.value < |q.log| {
      CountsUpdate(q.log, copy.value, q.log[copy.value].(live := false), key);
    }
  }

  lemma QuietStep(s: Sys, step: Step, key: string)
    requires Enabled(s, step) && LeavesAlone(s, step, key)
    ensures StandingOf(Next(s, step), key) == StandingOf(s, key)
  {
    match step
    case Deliver(i, _, _, _) => CountsUpdate(s.queue.log, i, Next(s, step).queue.log[i], key);
    case Emit(id, em, k, stored, _) =>
      if stored { OtherPublish(s.queue, s.now, HopOf(em, k, s.running[id].reply), Emitted, key); }
    case Finish(id, outcome, _, _, _, settled) => SettleCounts(s.queue, s.running[id].copy, outcome, settled, key);
    case Expire(i) => CountsUpdate(s.queue.log, i, s.queue.log[i].(live := false), key);
    case _ =>
  }

  /** From one pass over the hop to the next, nothing else touches it. */
  ghost predicate Alone(trace: seq<Sys>, steps: seq<Step>, start: nat, end: nat, key: string)
    requires end <= |steps| < |trace|
  {
    forall i :: start < i < end ==> LeavesAlone(trace[i], steps[i], key)
  }

  lemma AloneStep(trace: seq<Sys>, steps: seq<Step>, start: nat, i: nat, end: nat, key: string)
    requires IsRun(trace, steps) && start < i < end <= |steps| && Alone(trace, steps, start, end, key)
    ensures StandingOf(trace[i + 1], key) == StandingOf(trace[i], key)
  {
    assert LeavesAlone(trace[i], steps[i], key);
    QuietStep(trace[i], steps[i], key);
  }

  predicate SameAt(standings: seq<Standing>, i: nat) {
    i + 1 < |standings| ==> standings[i + 1] == standings[i]
  }

  lemma {:induction false} Constant(standings: seq<Standing>, a: nat, b: nat)
    requires a <= b < |standings| && forall i: nat :: a <= i < b ==> SameAt(standings, i)
    ensures standings[b] == standings[a]
    decreases b
  {
    if a < b {
      Constant(standings, a, b - 1);
      assert SameAt(standings, b - 1);
    }
  }

  lemma QuietStretch(trace: seq<Sys>, steps: seq<Step>, start: nat, end: nat, key: string)
    requires IsRun(trace, steps) && start < end <= |steps| && Alone(trace, steps, start, end, key)
    ensures StandingOf(trace[end], key) == StandingOf(trace[start + 1], key)
  {
    var standings := seq(|trace|, i requires 0 <= i < |trace| => StandingOf(trace[i], key));
    forall i: nat | start + 1 <= i < end ensures SameAt(standings, i) {
      AloneStep(trace, steps, start, i, end, key);
    }
    Constant(standings, start + 1, end);
  }

  lemma FirstPass(trace: seq<Sys>, steps: seq<Step>, i: nat, hop: EmitRecord)
    requires IsRun(trace, steps) && i < |steps| && DrivesOnce(trace[i], steps[i], hop)
    requires hop.stepKey != "" && !hop.IsReplyHop()
    ensures StandingOf(trace[i + 1], hop.stepKey)
         == DrivenOnce(StandingOf(trace[i], hop.stepKey), hop, trace[i].now)
  {
    StuckPass(trace[i], steps[i], hop);
  }

  lemma StuckStretch(trace: seq<Sys>, steps: seq<Step>, start: nat, end: nat, hop: EmitRecord)
    requires IsRun(trace, steps) && start < end <= |steps| && Alone(trace, steps, start, end, hop.stepKey)
    requires DrivesOnce(trace[start], steps[start], hop) && hop.stepKey != "" && !hop.IsReplyHop()
    ensures StandingOf(trace[end], hop.stepKey)
         == DrivenOnce(StandingOf(trace[start], hop.stepKey), hop, trace[start].now)
  {
    FirstPass(trace, steps, start, hop);
    QuietStretch(trace, steps, start, end, hop.stepKey);
  }

  /** Whether a re-drive at this time finds the last copy a duplicate window old. */
  predicate Reaches(last: int, at: int) { at - last >= DUPLICATE_WINDOW }

  /** How many of three re-drives reach the queue, when the first one does. */
  function CopiesOfThree(t0: int, t1: int, t2: int): nat {
    1 + (if Reaches(t0, t1) then 1 else 0) + (if Reaches(if Reaches(t0, t1) then t1 else t0, t2) then 1 else 0)
  }

  lemma FourDrives(h: Standing, hop: EmitRecord, t0: int, t1: int, t2: int, t3: int)
    requires h.attempts == 0 && (h.last.Some? ==> t0 - h.last.value >= DUPLICATE_WINDOW)
    ensures var third := DrivenOnce(DrivenOnce(DrivenOnce(h, hop, t0), hop, t1), hop, t2);
      && third.record == h.record && third.attempts == MAX_REDRIVES
      && third.copies == h.copies + CopiesOfThree(t0, t1, t2)
      && DrivenOnce(third, hop, t3) == third.(record := Some(FailedRecord(hop, t3)))
  {
  }

  /**
   * Over any run and any frontiers that hold the hop once: four stale passes, at any times, with
   * whatever else in between that neither publishes the hop nor completes its step. A re-drive is no
   * progress, so every pass re-drives or fails the hop. A re-drive inside the duplicate window of the
   * last copy is counted but adds none, and the fourth pass, and none before it, records the failure.
   */
  lemma StuckHopFailsOnFourthPass(
      trace: seq<Sys>, steps: seq<Step>, p0: nat, p1: nat, p2: nat, p3: nat, hop: EmitRecord)
    requires IsRun(trace, steps) && p0 < p1 < p2 < p3 < |steps| && hop.stepKey != "" && !hop.IsReplyHop()
    requires DrivesOnce(trace[p0], steps[p0], hop) && DrivesOnce(trace[p1], steps[p1], hop)
    requires DrivesOnce(trace[p2], steps[p2], hop) && DrivesOnce(trace[p3], steps[p3], hop)
    requires Alone(trace, steps, p0, p1, hop.stepKey) && Alone(trace, steps, p1, p2, hop.stepKey)
    requires Alone(trace, steps, p2, p3, hop.stepKey)
    requires hop.stepKey !in trace[p0].view.counters
    requires !IsDuplicate(trace[p0].queue, trace[p0].now, hop.stepKey)
    ensures var before, after := StandingOf(trace[p0], hop.stepKey), StandingOf(trace[p3 + 1], hop.stepKey);
      && after.copies == before.copies + CopiesOfThree(trace[p0].now, trace[p1].now, trace[p2].now)
      && after.record == Some(FailedRecord(hop, trace[p3].now))
      && StandingOf(trace[p3], hop.stepKey).record == before.record
  {
    StuckStretch(trace, steps, p0, p1, hop);
    StuckStretch(trace, steps, p1, p2, hop);
    StuckStretch(trace, steps, p2, p3, hop);
    StuckStretch(trace, steps, p3, p3 + 1, hop);
    FourDrives(StandingOf(trace[p0], hop.stepKey), hop, trace[p0].now, trace[p1].now, trace[p2].now, trace[p3].now);
  }

  // ----- such a run -----

  /** A pass over a run with one pending hop, with every publish and write succeeding. */
  function OneHopPass(hop: EmitRecord): Step {
    Reconcile([hop], i => HopAnswer(true, true, true), Deletions({}, {}))
  }

  ghost predicate StuckOn(s: Sys, hop: EmitRecord) { IsFrontier(s.view, [hop]) && IsStale(s.view, s.now) }

  lemma StuckOnDrives(s: Sys, hop: EmitRecord)
    requires StuckOn(s, hop)
    ensures Enabled(s, OneHopPass(hop)) && DrivesOnce(s, OneHopPass(hop), hop)
  {
    assert OnceAt([hop], hop, 0) && OneHopPass(hop).answers(0) == HopAnswer(true, true, true);
  }

  /** `t` follows `s` by a pass over the hop, and `u` follows `t` with the time of the next pass. */
  ghost predicate PassAndWait(s: Sys, hop: EmitRecord, t: Sys, u: Sys, at: int) {
    && Enabled(s, OneHopPass(hop)) && DrivesOnce(s, OneHopPass(hop), hop) && t == Next(s, OneHopPass(hop))
    && Enabled(t, Tick(at)) && u == Next(t, Tick(at))
  }

  /** One pass below the cap and the wait for the next one leave the hop where it was. */
  lemma Waits(s: Sys, hop: EmitRecord, at: int) returns (t: Sys, u: Sys)
    requires StuckOn(s, hop) && Attempts(s.view, hop.stepKey) < MAX_REDRIVES && s.now <= at
    ensures PassAndWait(s, hop, t, u, at) && StuckOn(u, hop) && u.now == at
    ensures Attempts(u.view, hop.stepKey) == Attempts(s.view, hop.stepKey) + 1
  {
    StuckOnDrives(s, hop);
    var hops, answers := [hop], OneHopPass(hop).answers;
    t := Next(s, OneHopPass(hop));
    assert DriveAll(s, hops, answers, 0) == s;
    assert DriveAll(s, hops, answers, 1) == Drive(s, hop, answers(0));
    u := Next(t, Tick(at));
    var order :| Visits(order, s.view.records.Keys) && [hop] == FrontierAlong(s.view.records, order);
    assert Visits(order, u.view.records.Keys);
  }

  /** Such a run exists for every stuck lone hop and all times of the passes. */
  lemma StuckHopRun(s: Sys, hop: EmitRecord, t1: int, t2: int, t3: int)
    returns (a: Sys, s1: Sys, b: Sys, s2: Sys, c: Sys, s3: Sys)
    requires StuckOn(s, hop) && hop.stepKey !in s.view.counters && s.now <= t1 <= t2 <= t3
    ensures PassAndWait(s, hop, a, s1, t1) && PassAndWait(s1, hop, b, s2, t2) && PassAndWait(s2, hop, c, s3, t3)
    ensures Enabled(s3, OneHopPass(hop)) && DrivesOnce(s3, OneHopPass(hop), hop)
  {
    a, s1 := Waits(s, hop, t1);
    b, s2 := Waits(s1, hop, t2);
    c, s3 := Waits(s2, hop, t3);
    StuckOnDrives(s3, hop);
  }

  // Seconds between two passes.
  const RECONCILE_INTERVAL: int := 60

  /**
   * With the default interval the three allowed re-drives are two copies at most, and one when the
   * third comes a moment early; the failure comes three minutes after the first one, in half the time
   * without progress that made the run stale.
   */
  lemma DefaultIntervalWastesRedrives(t0: int, early: int)
    requires 0 <= early <= RECONCILE_INTERVAL
    ensures CopiesOfThree(t0, t0 + RECONCILE_INTERVAL, t0 + 2 * RECONCILE_INTERVAL - early)
         == if early == 0 then 2 else 1
    ensures 3 * RECONCILE_INTERVAL == STALE_AFTER / 2
  {
  }
}
