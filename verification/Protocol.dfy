/**
 * The durable-run protocol of one run as a transition system: executions, the work
 * queue, the ledger and the run reconciler, with crashes, lost writes and lost replies
 * of the broker at every point.
 *
 * Assumed: a reconcile pass is atomic with respect to the other steps, and reads of the
 * re-drive counters succeed. Hop keys are arbitrary; Runs says which ones the runtime draws.
 */
module Protocol {
  import opened Text
  import opened StepLedger
  import opened EdgeStream
  import opened RunLedger

  /**
   * A handler at work on the step `key`: for a queued copy, or, without one, as the run's entry.
   * `reply` is the reply address of the run it works in, and `carried` says whether the run is in
   * the handler's own context, where the runner looks for it when the handler has returned.
   */
  datatype Execution = Execution(
    key: string, copy: Option<nat>, reply: ReplyAddress, carried: bool, emits: seq<EmitRecord>)

  /**
   * How a run starts: a durable node mints it, or a classic component begins it as its front door,
   * with a reply address or NO_REPLY, in a context of its own.
   */
  datatype Entry = Minted | FrontDoor(reply: ReplyAddress)

  /** How often, per step key, something happened so far. */
  datatype Tally = Tally(
    sent: string -> int,     // re-drives that the broker acknowledged
    unacked: string -> int,  // re-drives that reached the broker without an acknowledgement
    lost: string -> int,     // acknowledged re-drives whose counter write failed
    wiped: string -> int,    // re-drives forgotten because a collection deleted the counter
    invoked: string -> int)  // handler invocations for queued copies

  datatype Sys = Sys(
    root: string, begun: bool, now: int,
    view: View, queue: Stream, running: map<nat, Execution>, tally: Tally)

  datatype Outcome = Succeeded | Transient | Fatal

  datatype Step =
    | Begin(id: nat, entry: Entry)
    | Deliver(i: nat, id: nat, readable: bool, settled: bool)
    | Emit(id: nat, em: Emission, key: string, stored: bool, acked: bool)
    | Finish(id: nat, outcome: Outcome, node: string, error: string, written: bool, settled: bool)
    | Crash(id: nat)
    | Expire(i: nat)
    | Tick(later: int)
    | Reconcile(frontier: seq<EmitRecord>, answers: Answers, gone: Deletions)

  function Zero(): string -> int { k => 0 }

  function Bump(f: string -> int, key: string): string -> int { k => if k == key then f(k) + 1 else f(k) }

  function Init(root: string, now: int): Sys {
    Sys(root, false, now, View(map[], map[]), Stream([], map[]), map[],
        Tally(Zero(), Zero(), Zero(), Zero(), Zero()))
  }

  /** An acknowledged publish reached the broker. */
  ghost predicate Honest(answers: Answers) {
    forall i: nat :: answers(i).acked ==> answers(i).stored
  }

  ghost predicate Enabled(s: Sys, step: Step) {
    match step
    case Begin(id, _) => !s.begun && id !in s.running
    case Deliver(i, id, _, _) =>
      i < |s.queue.log| && s.queue.log[i].live && s.queue.log[i].deliveries < MAX_DELIVER && id !in s.running
    case Emit(id, _, _, stored, acked) => id in s.running && (acked ==> stored)
    case Finish(id, _, _, _, _, _) => id in s.running
    case Crash(id) => id in s.running
    case Expire(i) => i < |s.queue.log|
    case Tick(later) => s.now <= later
    case Reconcile(frontier, answers, _) => IsFrontier(s.view, frontier) && Honest(answers)
  }

  /** A delivery is skipped when the ledger can be read and already holds the step. */
  predicate Skips(s: Sys, key: string, readable: bool) {
    key != "" && readable && key in s.view.records
  }

  /** The entry step at work. */
  function EntryExecution(root: string, entry: Entry): Execution {
    match entry
    case Minted => Execution(root, None, NO_REPLY, true, [])
    case FrontDoor(reply) => Execution(root, None, reply, false, [])
  }

  /** A continued run is rebuilt from its id and step key alone: it has no reply address. */
  function ContinuedExecution(key: string, i: nat): Execution { Execution(key, Some(i), NO_REPLY, true, []) }

  function AfterDelivery(s: Sys, i: nat, id: nat, readable: bool, settled: bool): Sys
    requires i < |s.queue.log|
  {
    var c := s.queue.log[i];
    var skip := Skips(s, c.hop.stepKey, readable);
    var copy := c.(deliveries := c.deliveries + 1, live := !(skip && settled));
    var queue := s.queue.(log := s.queue.log[i := copy]);
    if skip then s.(queue := queue)
    else s.(
      queue := queue,
      running := s.running[id := ContinuedExecution(c.hop.stepKey, i)],
      tally := s.tally.(invoked := Bump(s.tally.invoked, c.hop.stepKey)))
  }

  function AfterEmit(s: Sys, id: nat, em: Emission, key: string, stored: bool, acked: bool): Sys
    requires id in s.running
  {
    var e := s.running[id];
    var hop := HopOf(em, key, e.reply);
    s.(queue := if stored then Publish(s.queue, s.now, hop, Emitted) else s.queue,
       running := if acked then s.running[id := e.(emits := e.emits + [hop])] else s.running)
  }

  function RecordOf(e: Execution, outcome: Outcome, node: string, error: string, now: int): StepRecord {
    if outcome.Succeeded? then StepRecord(node, Done, "", e.emits, now)
    else StepRecord(node, Failed, error, e.emits, now)
  }

  /** ack and term end the copy; nak leaves it to be delivered again. */
  function Settle(q: Stream, copy: Option<nat>, outcome: Outcome, settled: bool): Stream {
    if copy.Some? && copy.value < |q.log| && settled && !outcome.Transient?
    then q.(log := q.log[copy.value := q.log[copy.value].(live := false)])
    else q
  }

  function AfterFinish(
      s: Sys, id: nat, outcome: Outcome, node: string, error: string, written: bool, settled: bool): Sys
    requires id in s.running
  {
    var e := s.running[id];
    s.(view := if written && e.carried
               then s.view.(records := s.view.records[e.key := RecordOf(e, outcome, node, error, s.now)])
               else s.view,
       queue := Settle(s.queue, e.copy, outcome, settled),
       running := s.running - {id})
  }

  /** The pass handles one frontier hop. */
  function Drive(s: Sys, hop: EmitRecord, a: HopAnswer): Sys {
    var key := hop.stepKey;
    var t := s.tally;
    if Attempts(s.view, key) >= MAX_REDRIVES then s.(view := DriveHop(s.view, hop, a, s.now))
    else s.(
      view := DriveHop(s.view, hop, a, s.now),
      queue := if a.stored then Publish(s.queue, s.now, hop, Redriven) else s.queue,
      tally := t.(
        sent := if a.acked then Bump(t.sent, key) else t.sent,
        lost := if a.acked && !a.written then Bump(t.lost, key) else t.lost,
        unacked := if a.stored && !a.acked then Bump(t.unacked, key) else t.unacked))
  }

  function DriveAll(s: Sys, hops: seq<EmitRecord>, answers: Answers, n: nat): Sys
    requires n <= |hops|
  {
    if n == 0 then s else Drive(DriveAll(s, hops, answers, n - 1), hops[n - 1], answers(n - 1))
  }

  function Forget(t: Tally, v: View, gone: Deletions): Tally {
    t.(wiped := k => if k in gone.counters then t.wiped(k) + Attempts(v, k) else t.wiped(k))
  }

  ghost predicate Collects(s: Sys, step: Step) {
    step.Reconcile? && step.frontier == [] && s.now - Latest(s.view.records) > GC_AFTER
  }

  ghost function AfterPass(s: Sys, step: Step): Sys
    requires step.Reconcile?
  {
    if Collects(s, step) then
      s.(view := Collect(s.view, step.gone), tally := Forget(s.tally, s.view, step.gone))
    else if step.frontier != [] && IsStale(s.view, s.now) then
      DriveAll(s, step.frontier, step.answers, |step.frontier|)
    else s
  }

  ghost function Next(s: Sys, step: Step): Sys
    requires Enabled(s, step)
  {
    match step
    case Begin(id, entry) => s.(begun := true, running := s.running[id := EntryExecution(s.root, entry)])
    case Deliver(i, id, readable, settled) => AfterDelivery(s, i, id, readable, settled)
    case Emit(id, em, key, stored, acked) => AfterEmit(s, id, em, key, stored, acked)
    case Finish(id, outcome, node, error, written, settled) =>
      AfterFinish(s, id, outcome, node, error, written, settled)
    case Crash(id) => s.(running := s.running - {id})
    case Expire(i) => s.(queue := s.queue.(log := s.queue.log[i := s.queue.log[i].(live := false)]))
    case Tick(later) => s.(now := later)
    case Reconcile(_, _, _) => AfterPass(s, step)
  }

  /** Every state of a run in order; `trace[i + 1]` follows `trace[i]` by `steps[i]`. */
  ghost predicate IsRun(trace: seq<Sys>, steps: seq<Step>) {
    && |trace| == |steps| + 1
    && (forall i :: 0 <= i < |steps| ==> Enabled(trace[i], steps[i]) && trace[i + 1] == Next(trace[i], steps[i]))
  }

  ghost predicate Starts(trace: seq<Sys>) {
    |trace| > 0 && exists root, now :: trace[0] == Init(root, now)
  }

  // ----- a pass, hop by hop, is the pass of RunLedger -----

  lemma {:induction false} DriveAllViews(s: Sys, hops: seq<EmitRecord>, answers: Answers, n: nat)
    requires n <= |hops|
    ensures var t := DriveAll(s, hops, answers, n);
      && t.view == DriveHops(s.view, hops, answers, s.now, n)
      && t.now == s.now && t.root == s.root && t.running == s.running && t.begun == s.begun
    decreases n
  {
    if n > 0 { DriveAllViews(s, hops, answers, n - 1); }
  }

  /** Reconcile does to the ledger exactly what RunLedger says a pass does. */
  lemma ReconcileIsPass(s: Sys, step: Step)
    requires step.Reconcile? && Enabled(s, step)
    ensures Next(s, step).view == PassView(s.view, step.frontier, step.answers, step.gone, s.now)
    ensures Next(s, step).running == s.running
  {
    DriveAllViews(s, step.frontier, step.answers, |step.frontier|);
  }

  // ----- the queue -----

  /** The later log holds the earlier copies' hops in place. */
  predicate Extends(q: Stream, r: Stream) {
    |q.log| <= |r.log| && forall i :: 0 <= i < |q.log| ==> r.log[i].hop == q.log[i].hop
  }

  lemma HoldsStays(q: Stream, r: Stream, key: string)
    requires Extends(q, r) && Holds(q, key)
    ensures Holds(r, key)
  {
    var i :| 0 <= i < |q.log| && q.log[i].hop.stepKey == key;
    assert r.log[i].hop.stepKey == key;
  }

  predicate Sound(q: Stream, now: int) {
    && Spaced(q, now) && WithinBudget(q)
    && (forall k :: k in q.seen ==> Holds(q, k))
  }

  lemma PublishSound(q: Stream, now: int, hop: EmitRecord, origin: Origin)
    requires Sound(q, now)
    ensures Sound(Publish(q, now, hop, origin), now) && Extends(q, Publish(q, now, hop, origin))
    ensures !hop.IsReplyHop() ==> Holds(Publish(q, now, hop, origin), hop.stepKey)
  {
    var r := Publish(q, now, hop, origin);
    PublishKeepsSpacing(q, now, hop, origin);
    if !hop.IsReplyHop() { PublishStores(q, now, hop, origin); }
    forall k | k in r.seen ensures Holds(r, k) {
      if k in q.seen { HoldsStays(q, r, k); }
    }
  }

  /** Replacing one copy by one with the same hop and time, within its budget. */
  lemma ReplaceSound(q: Stream, now: int, i: nat, c: Copy)
    requires Sound(q, now) && i < |q.log|
    requires c.hop == q.log[i].hop && c.storedAt == q.log[i].storedAt && c.deliveries <= MAX_DELIVER
    ensures Sound(q.(log := q.log[i := c]), now) && Extends(q, q.(log := q.log[i := c]))
  {
    var r := q.(log := q.log[i := c]);
    forall k | k in r.seen ensures Holds(r, k) {
      HoldsStays(q, r, k);
    }
  }

  lemma LaterSound(q: Stream, now: int, later: int)
    requires Sound(q, now) && now <= later
    ensures Sound(q, later)
  {
  }

  lemma DriveSound(s: Sys, hop: EmitRecord, a: HopAnswer)
    requires Sound(s.queue, s.now)
    ensures Sound(Drive(s, hop, a).queue, Drive(s, hop, a).now)
  {
    PublishSound(s.queue, s.now, hop, Redriven);
  }

  lemma {:induction false} DriveAllNow(s: Sys, hops: seq<EmitRecord>, answers: Answers, n: nat)
    requires n <= |hops|
    ensures DriveAll(s, hops, answers, n).now == s.now
    decreases n
  {
    if n > 0 { DriveAllNow(s, hops, answers, n - 1); }
  }

  lemma {:induction false} DriveAllSound(s: Sys, hops: seq<EmitRecord>, answers: Answers, n: nat)
    requires n <= |hops| && Sound(s.queue, s.now)
    ensures Sound(DriveAll(s, hops, answers, n).queue, DriveAll(s, hops, answers, n).now)
    decreases n
  {
    if n > 0 {
      DriveAllSound(s, hops, answers, n - 1);
      DriveSound(DriveAll(s, hops, answers, n - 1), hops[n - 1], answers(n - 1));
    }
  }

  /** A pass only appends to the queue. */
  lemma {:induction false} DriveAllKeepsCopies(s: Sys, hops: seq<EmitRecord>, answers: Answers, n: nat)
    requires n <= |hops|
    ensures s.queue.log <= DriveAll(s, hops, answers, n).queue.log
    decreases n
  {
    if n > 0 { DriveAllKeepsCopies(s, hops, answers, n - 1); }
  }

  lemma ReconcileSound(s: Sys, step: Step)
    requires step.Reconcile? && Sound(s.queue, s.now)
    ensures Sound(AfterPass(s, step).queue, AfterPass(s, step).now) && Extends(s.queue, AfterPass(s, step).queue)
  {
    DriveAllSound(s, step.frontier, step.answers, |step.frontier|);
    DriveAllKeepsCopies(s, step.frontier, step.answers, |step.frontier|);
    DriveAllNow(s, step.frontier, step.answers, |step.frontier|);
  }

  lemma StepSound(s: Sys, step: Step)
    requires Enabled(s, step) && Sound(s.queue, s.now)
    ensures Sound(Next(s, step).queue, Next(s, step).now) && Extends(s.queue, Next(s, step).queue)
  {
    match step
    case Deliver(i, id, readable, settled) =>
      ReplaceSound(s.queue, s.now, i, Next(s, step).queue.log[i]);
    case Emit(id, em, key, stored, acked) =>
      PublishSound(s.queue, s.now, HopOf(em, key, s.running[id].reply), Emitted);
    case Finish(id, outcome, _, _, _, settled) =>
      var copy := s.running[id].copy;
      if copy.Some? && copy.value < |s.queue.log| {
        ReplaceSound(s.queue, s.now, copy.value, s.queue.log[copy.value].(live := false));
      }
    case Expire(i) => ReplaceSound(s.queue, s.now, i, s.queue.log[i].(live := false));
    case Tick(later) => LaterSound(s.queue, s.now, later);
    case Reconcile(_, _, _) => ReconcileSound(s, step);
    case _ =>
  }
}
