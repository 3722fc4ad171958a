/**
 * What every run of the protocol keeps: where records and recorded emits come from, when a
 * hop may leave the frontier, and which steps never run again.
 */
module ProtocolSafety {
  import opened Text
  import opened StepLedger
  import opened EdgeStream
  import opened RunLedger
  import opened Protocol

  // ----- where records come from -----

  /** The hop was stored in the work queue, or was a reply that never goes there. */
  predicate Queued(q: Stream, e: EmitRecord) { e.IsReplyHop() || Holds(q, e.stepKey) }

  predicate AllQueued(q: Stream, emits: seq<EmitRecord>) { forall e <- emits :: Queued(q, e) }

  predicate NoReplyAddress(emits: seq<EmitRecord>) { forall e <- emits :: e.replySubject == "" }

  /** The copy is one of this key. */
  predicate CopyOf(q: Stream, i: nat, key: string) { i < |q.log| && q.log[i].hop.stepKey == key }

  predicate ExecutionSound(root: string, q: Stream, e: Execution) {
    && AllQueued(q, e.emits)
    && (e.copy.None? ==> e.key == root)
    && (e.copy.Some? ==> CopyOf(q, e.copy.value, e.key))
    && (e.carried ==> e.reply == NO_REPLY)
    && (forall hop <- e.emits :: hop.replySubject == e.reply.subject)
  }

  predicate RecordSound(root: string, q: Stream, key: string, rec: StepRecord) {
    && AllQueued(q, rec.emits)
    && NoReplyAddress(rec.emits)
    && (key != root && !Holds(q, key) ==> rec.status == Failed && rec.emits == [])
  }

  predicate LedgerSound(s: Sys) {
    && (forall id :: id in s.running ==> ExecutionSound(s.root, s.queue, s.running[id]))
    && (forall k :: k in s.view.records ==> RecordSound(s.root, s.queue, k, s.view.records[k]))
  }

  lemma AllQueuedStays(q: Stream, r: Stream, emits: seq<EmitRecord>)
    requires Extends(q, r) && AllQueued(q, emits)
    ensures AllQueued(r, emits)
  {
    forall e | e in emits ensures Queued(r, e) {
      if !e.IsReplyHop() { HoldsStays(q, r, e.stepKey); }
    }
  }

  lemma ExecutionStays(root: string, q: Stream, r: Stream, e: Execution)
    requires Extends(q, r) && ExecutionSound(root, q, e)
    ensures ExecutionSound(root, r, e)
  {
    AllQueuedStays(q, r, e.emits);
  }

  lemma RecordStays(root: string, q: Stream, r: Stream, key: string, rec: StepRecord)
    requires Extends(q, r) && RecordSound(root, q, key, rec)
    ensures RecordSound(root, r, key, rec)
  {
    AllQueuedStays(q, r, rec.emits);
    if Holds(q, key) { HoldsStays(q, r, key); }
  }

  /** After a step every execution is an old one, or one the step started or let emit. */
  lemma StepExecutions(s: Sys, step: Step, id: nat)
    requires Enabled(s, step) && Sound(s.queue, s.now) && LedgerSound(s) && id in Next(s, step).running
    ensures ExecutionSound(s.root, Next(s, step).queue, Next(s, step).running[id])
  {
    var t := Next(s, step);
    StepSound(s, step);
    if step.Reconcile? { ReconcileIsPass(s, step); }
    if id in s.running && t.running[id] == s.running[id] {
      ExecutionStays(s.root, s.queue, t.queue, s.running[id]);
    } else {
      match step
      case Deliver(i, _, _, _) => assert t.queue.log[i].hop.stepKey == t.running[id].key;
      case Emit(_, em, key, _, _) =>
        PublishSound(s.queue, s.now, HopOf(em, key, s.running[id].reply), Emitted);
        ExecutionStays(s.root, s.queue, t.queue, s.running[id]);
      case _ =>
    }
  }

  /** After a step every record is an old one, one a finished handler wrote, or a terminal failure. */
  lemma StepRecords(s: Sys, step: Step, k: string)
    requires Enabled(s, step) && k in Next(s, step).view.records
    ensures var t := Next(s, step); var rec := t.view.records[k];
      || (k in s.view.records && rec == s.view.records[k])
      || (Writes(s, step) && k == s.running[step.id].key && rec.emits == s.running[step.id].emits)
      || (step.Reconcile? && rec.status == Failed && rec.emits == [])
  {
    if step.Reconcile? {
      ReconcileIsPass(s, step);
      PassAddsOnlyFailures(s.view, step.frontier, step.answers, step.gone, s.now);
    }
  }

  /** A pass that collects nothing only adds terminal failures; one that collects only removes. */
  lemma PassAddsOnlyFailures(v: View, frontier: seq<EmitRecord>, answers: Answers, gone: Deletions, now: int)
    requires IsFrontier(v, frontier)
    ensures var w := PassView(v, frontier, answers, gone, now);
      && (frontier != [] ==> OnlyFails(v, w))
      && (forall k :: k in w.records ==>
            (k in v.records && w.records[k] == v.records[k])
            || (w.records[k].status == Failed && w.records[k].emits == []))
  {
    if frontier != [] {
      forall h | h in frontier ensures h.stepKey !in v.records { FrontierIsPending(v, frontier, h); }
      DriveHopsOnlyFails(v, frontier, answers, now, |frontier|);
    }
  }

  lemma StepLedgerSound(s: Sys, step: Step)
    requires Enabled(s, step) && Sound(s.queue, s.now) && LedgerSound(s)
    ensures LedgerSound(Next(s, step)) && Next(s, step).root == s.root
  {
    var t := Next(s, step);
    StepSound(s, step);
    StepRoot(s, step);
    forall id | id in t.running ensures ExecutionSound(t.root, t.queue, t.running[id]) {
      StepExecutions(s, step, id);
    }
    forall k | k in t.view.records ensures RecordSound(t.root, t.queue, k, t.view.records[k]) {
      StepRecords(s, step, k);
      StepRecordSound(s, step, k);
    }
  }

  lemma StepRoot(s: Sys, step: Step)
    requires Enabled(s, step)
    ensures Next(s, step).root == s.root
  {
    if step.Reconcile? { DriveAllViews(s, step.frontier, step.answers, |step.frontier|); }
  }

  lemma StepRecordSound(s: Sys, step: Step, k: string)
    requires Enabled(s, step) && Sound(s.queue, s.now) && LedgerSound(s) && k in Next(s, step).view.records
    ensures RecordSound(s.root, Next(s, step).queue, k, Next(s, step).view.records[k])
  {
    var t := Next(s, step);
    var rec := t.view.records[k];
    StepSound(s, step);
    StepRecords(s, step, k);
    if k in s.view.records && rec == s.view.records[k] {
      RecordStays(s.root, s.queue, t.queue, k, rec);
    } else if step.Finish? {
      ExecutionStays(s.root, s.queue, t.queue, s.running[step.id]);
    }
  }

  lemma {:induction false} RunLedgerSound(trace: seq<Sys>, steps: seq<Step>, n: nat)
    requires IsRun(trace, steps) && Starts(trace) && n < |trace|
    ensures Sound(trace[n].queue, trace[n].now) && LedgerSound(trace[n])
    decreases n
  {
    if n > 0 {
      RunLedgerSound(trace, steps, n - 1);
      StepSound(trace[n - 1], steps[n - 1]);
      StepLedgerSound(trace[n - 1], steps[n - 1]);
    }
  }

  /** A record exists only after everything it lists was durably stored. */
  lemma RecordedEmitsAreStored(trace: seq<Sys>, steps: seq<Step>, n: nat, p: string, e: EmitRecord)
    requires IsRun(trace, steps) && Starts(trace) && n < |trace|
    requires p in trace[n].view.records && e in trace[n].view.records[p].emits && !e.IsReplyHop()
    ensures Holds(trace[n].queue, e.stepKey)
  {
    RunLedgerSound(trace, steps, n);
    assert RecordSound(trace[n].root, trace[n].queue, p, trace[n].view.records[p]);
  }

  /** A completed record under any key but the entry's stands for a hop that was queued. */
  lemma CompletedStepsWereQueued(trace: seq<Sys>, steps: seq<Step>, n: nat, key: string)
    requires IsRun(trace, steps) && Starts(trace) && n < |trace|
    requires key in trace[n].view.records && trace[n].view.records[key].status == Done && key != trace[n].root
    ensures Holds(trace[n].queue, key)
  {
    RunLedgerSound(trace, steps, n);
    assert RecordSound(trace[n].root, trace[n].queue, key, trace[n].view.records[key]);
  }

  /**
   * A reply address lives for one hop only: no record ever lists a hop that carries one, so no
   * frontier holds a reply hop, and a re-driven hop never carries the address.
   */
  lemma NoFrontierHopReplies(
      trace: seq<Sys>, steps: seq<Step>, n: nat, frontier: seq<EmitRecord>, h: EmitRecord)
    requires IsRun(trace, steps) && Starts(trace) && n < |trace|
    requires IsFrontier(trace[n].view, frontier) && h in frontier
    ensures h.replySubject == "" && Holds(trace[n].queue, h.stepKey)
  {
    RunLedgerSound(trace, steps, n);
    FrontierIsPending(trace[n].view, frontier, h);
    var p :| p in trace[n].view.records && h in trace[n].view.records[p].emits;
    assert RecordSound(trace[n].root, trace[n].queue, p, trace[n].view.records[p]);
  }

  // ----- who wrote a record -----

  /** The handler that ended with this step wrote the record: what it emitted, its outcome, and the time. */
  ghost predicate WrittenBy(s: Sys, step: Step, key: string, rec: StepRecord) {
    && Writes(s, step) && s.running[step.id].key == key
    && rec.emits == s.running[step.id].emits && rec.completedAt == s.now && rec.node == step.node
    && (step.outcome == Succeeded ==> rec.status == Done && rec.error == "")
    && (step.outcome != Succeeded ==> rec.status == Failed && rec.error == step.error)
  }

  ghost predicate GivenUpBy(s: Sys, step: Step, key: string, rec: StepRecord) {
    step.Reconcile? && GaveUp(rec, key, step.frontier, s.now)
  }

  ghost predicate Authored(s: Sys, step: Step, key: string, rec: StepRecord) {
    WrittenBy(s, step, key, rec) || GivenUpBy(s, step, key, rec)
  }

  lemma StepAuthors(s: Sys, step: Step, k: string)
    requires Enabled(s, step) && k in Next(s, step).view.records
    ensures var rec := Next(s, step).view.records[k];
      (k in s.view.records && rec == s.view.records[k]) || Authored(s, step, k, rec)
  {
    if step.Reconcile? {
      ReconcileIsPass(s, step);
      PassAddsOnlyFailures(s.view, step.frontier, step.answers, step.gone, s.now);
      AddedRecordsAreDated(s.view, step.frontier, step.answers, step.gone, s.now);
    }
  }

  /** Every record in every run was written by a handler's end, as it ended, or by a pass that gave its hop up. */
  lemma {:induction false} RecordsHaveAuthors(trace: seq<Sys>, steps: seq<Step>, n: nat, key: string)
    requires IsRun(trace, steps) && Starts(trace) && n < |trace| && key in trace[n].view.records
    ensures exists m :: 0 <= m < n && Authored(trace[m], steps[m], key, trace[n].view.records[key])
    decreases n
  {
    StepAuthors(trace[n - 1], steps[n - 1], key);
    if key in trace[n - 1].view.records && trace[n].view.records[key] == trace[n - 1].view.records[key] {
      RecordsHaveAuthors(trace, steps, n - 1, key);
    }
  }

  /** A record says done exactly because a handler of the step ended well, at the time of the record. */
  lemma DoneRecordsSucceeded(trace: seq<Sys>, steps: seq<Step>, n: nat, key: string)
    requires IsRun(trace, steps) && Starts(trace) && n < |trace|
    requires key in trace[n].view.records && trace[n].view.records[key].status == Done
    ensures exists m :: 0 <= m < n && SucceededBy(trace[m], steps[m], key, trace[n].view.records[key])
  {
    RecordsHaveAuthors(trace, steps, n, key);
    var m :| 0 <= m < n && Authored(trace[m], steps[m], key, trace[n].view.records[key]);
    assert SucceededBy(trace[m], steps[m], key, trace[n].view.records[key]);
  }

  ghost predicate SucceededBy(s: Sys, step: Step, key: string, rec: StepRecord) {
    WrittenBy(s, step, key, rec) && step.outcome == Succeeded
  }

  // ----- who is at work -----

  /** Which steps start an execution under this id, and which end it. */
  predicate StartsWork(s: Sys, step: Step, id: nat) {
    match step
    case Begin(i, _) => i == id
    case Deliver(i, j, readable, _) =>
      j == id && i < |s.queue.log| && !Skips(s, s.queue.log[i].hop.stepKey, readable)
    case _ => false
  }

  /**
   * An execution is at work from the step that starts it to its own end or crash: the entry while the
   * run has not begun, and a queued copy while it is live and was handed out less than three times.
   */
  lemma AtWorkIff(s: Sys, step: Step, id: nat)
    requires Enabled(s, step)
    ensures id in Next(s, step).running <==>
      StartsWork(s, step, id)
      || (id in s.running && step != Crash(id) && !(step.Finish? && step.id == id))
    ensures step.Begin? ==> !s.begun && Next(s, step).begun
    ensures s.begun ==> Next(s, step).begun
    ensures step.Deliver? ==>
      && s.queue.log[step.i].live && s.queue.log[step.i].deliveries < 3
      && Next(s, step).queue.log[step.i].deliveries == s.queue.log[step.i].deliveries + 1
  {
    if step.Reconcile? { DriveAllViews(s, step.frontier, step.answers, |step.frontier|); }
  }

  /** A run begins once. */
  lemma {:induction false} BeginsOnce(trace: seq<Sys>, steps: seq<Step>, i: nat, j: nat)
    requires IsRun(trace, steps) && i < j < |steps| && steps[i].Begin?
    ensures trace[j].begun && !steps[j].Begin?
    decreases j
  {
    AtWorkIff(trace[i], steps[i], 0);
    if j > i + 1 {
      BeginsOnce(trace, steps, i, j - 1);
      AtWorkIff(trace[j - 1], steps[j - 1], 0);
    }
  }

  // ----- the reply address -----

  /** What a handler publishes and records is the emission, with the address of the run it works in. */
  lemma EmitCarries(s: Sys, id: nat, em: Emission, key: string, stored: bool, acked: bool)
    requires id in s.running
    ensures var e, t := s.running[id], AfterEmit(s, id, em, key, stored, acked);
      && (stored ==> AddsCarried(s.queue, t.queue, em, key, e.reply)) && (!stored ==> t.queue == s.queue)
      && (acked ==> |t.running[id].emits| == |e.emits| + 1 && e.emits <= t.running[id].emits
                    && Carries(t.running[id].emits[|e.emits|], em, key, e.reply))
      && (!acked ==> t.running[id] == e)
  {
  }

  /** That is the address the front door was given, and none for a step that a message continued. */
  lemma EmitsCarryTheAddress(s: Sys, id: nat, em: Emission, key: string, entry: Entry, i: nat)
    requires id !in s.running && i < |s.queue.log|
    ensures var e := EntryExecution(s.root, entry);
      var t := AfterEmit(s.(running := s.running[id := e]), id, em, key, true, true);
      && Carries(t.running[id].emits[0], em, key, if entry.Minted? then NO_REPLY else entry.reply)
      && AddsCarried(s.queue, t.queue, em, key, if entry.Minted? then NO_REPLY else entry.reply)
    ensures var e := ContinuedExecution(s.queue.log[i].hop.stepKey, i);
      var t := AfterEmit(s.(running := s.running[id := e]), id, em, key, true, true);
      && Carries(t.running[id].emits[0], em, key, NO_REPLY) && AddsCarried(s.queue, t.queue, em, key, NO_REPLY)
  {
  }

  /** The queue is as it was, or gained one copy of the emission's hop. */
  ghost predicate AddsCarried(q: Stream, r: Stream, em: Emission, key: string, reply: ReplyAddress) {
    r == q || (|r.log| == |q.log| + 1 && r.log[..|q.log|] == q.log && Carries(r.log[|q.log|].hop, em, key, reply))
  }

  // ----- leaving the frontier -----

  /** The step writes the record of the execution that ends with it. */
  predicate Writes(s: Sys, step: Step) {
    step.Finish? && step.written && step.id in s.running && s.running[step.id].carried
  }

  /** The step overwrites the only record that lists the hop by one that does not. */
  predicate Drops(s: Sys, step: Step, h: EmitRecord) {
    && Writes(s, step)
    && var e := s.running[step.id];
    && e.key in s.view.records && h in s.view.records[e.key].emits && h !in e.emits
    && (forall p :: p in s.view.records && p != e.key ==> h !in s.view.records[p].emits)
  }

  /** Overwriting a record never takes hops away: the handler emitted at least the same hops again. */
  predicate Faithful(s: Sys, step: Step) {
    Writes(s, step) && s.running[step.id].key in s.view.records ==>
      forall e <- s.view.records[s.running[step.id].key].emits :: e in s.running[step.id].emits
  }

  /** Whatever step is taken, a pending hop stays pending unless it gets a record or is dropped. */
  lemma FrontierExit(s: Sys, step: Step, h: EmitRecord)
    requires Enabled(s, step) && Pending(s.view, h)
    ensures Pending(Next(s, step).view, h) <==> h.stepKey !in Next(s, step).view.records && !Drops(s, step, h)
  {
    var t := Next(s, step);
    if step.Reconcile? {
      ReconcileIsPass(s, step);
      FrontierIsPending(s.view, step.frontier, h);
      PassAddsOnlyFailures(s.view, step.frontier, step.answers, step.gone, s.now);
      OnlyFailsShrinksFrontier(s.view, t.view, h);
    } else if Writes(s, step) {
      FinishExit(s, step, h);
    } else {
      assert t.view == s.view;
    }
  }

  lemma FinishExit(s: Sys, step: Step, h: EmitRecord)
    requires Enabled(s, step) && Writes(s, step) && Pending(s.view, h)
    ensures Pending(Next(s, step).view, h) <==> h.stepKey !in Next(s, step).view.records && !Drops(s, step, h)
  {
    var e, t := s.running[step.id], Next(s, step);
    assert t.view.records[e.key].emits == e.emits;
    forall p | p != e.key
      ensures p in t.view.records <==> p in s.view.records
      ensures p in s.view.records ==> t.view.records[p] == s.view.records[p]
    {
    }
    if h in e.emits {
      assert h in t.view.records[e.key].emits;
    } else if !Drops(s, step, h) {
      var p :| p in s.view.records && p != e.key && h in s.view.records[p].emits;
      assert h in t.view.records[p].emits;
    }
  }

  lemma FaithfulDropsNothing(s: Sys, step: Step, h: EmitRecord)
    requires Faithful(s, step)
    ensures !Drops(s, step, h)
  {
  }

  /**
   * Over any run whose overwrites are faithful, a pending hop stays pending until the moment
   * a record for it appears: through crashes, redeliveries, lost writes and passes.
   */
  lemma {:induction false} PendingUntilRecorded(trace: seq<Sys>, steps: seq<Step>, start: nat, end: nat, h: EmitRecord)
    requires IsRun(trace, steps) && start <= end < |trace|
    requires forall i :: start <= i < end ==> Faithful(trace[i], steps[i])
    requires Pending(trace[start].view, h)
    ensures Pending(trace[end].view, h) || exists m :: start < m <= end && h.stepKey in trace[m].view.records
    decreases end
  {
    if start < end {
      PendingUntilRecorded(trace, steps, start, end - 1, h);
      if Pending(trace[end - 1].view, h) {
        FrontierExit(trace[end - 1], steps[end - 1], h);
        FaithfulDropsNothing(trace[end - 1], steps[end - 1], h);
      }
    }
  }

  // ----- steps that never run again -----

  /** The step cannot run the handler of `key` if that key is recorded. */
  ghost predicate Quiet(s: Sys, step: Step, key: string) {
    && (step.Deliver? && step.i < |s.queue.log| && s.queue.log[step.i].hop.stepKey == key ==> step.readable)
    && !Collects(s, step)
  }

  lemma {:induction false} DriveAllInvokesNothing(s: Sys, hops: seq<EmitRecord>, answers: Answers, n: nat)
    requires n <= |hops|
    ensures DriveAll(s, hops, answers, n).tally.invoked == s.tally.invoked
    decreases n
  {
    if n > 0 { DriveAllInvokesNothing(s, hops, answers, n - 1); }
  }

  lemma StepNeverRunsRecorded(s: Sys, step: Step, key: string)
    requires Enabled(s, step) && key != "" && key in s.view.records
    requires Quiet(s, step, key)
    ensures key in Next(s, step).view.records
    ensures Next(s, step).tally.invoked(key) == s.tally.invoked(key)
  {
    if step.Reconcile? {
      ReconcileIsPass(s, step);
      DriveAllInvokesNothing(s, step.frontier, step.answers, |step.frontier|);
      PassAddsOnlyFailures(s.view, step.frontier, step.answers, step.gone, s.now);
    }
  }

  /** While the ledger can be read and the run is not collected, a recorded step's handler never runs again. */
  lemma {:induction false} RecordedNeverRunsAgain(
      trace: seq<Sys>, steps: seq<Step>, start: nat, end: nat, key: string)
    requires IsRun(trace, steps) && start <= end < |trace| && key != "" && key in trace[start].view.records
    requires forall i :: start <= i < end ==> Quiet(trace[i], steps[i], key)
    ensures key in trace[end].view.records
    ensures trace[end].tally.invoked(key) == trace[start].tally.invoked(key)
    decreases end
  {
    if start < end {
      RecordedNeverRunsAgain(trace, steps, start, end - 1, key);
      assert Quiet(trace[end - 1], steps[end - 1], key);
      StepNeverRunsRecorded(trace[end - 1], steps[end - 1], key);
    }
  }

  // ----- settled copies -----

  /** The queue still hands the copy out, up to its delivery limit. */
  predicate Live(q: Stream, i: nat) { i < |q.log| && q.log[i].live }

  /**
   * The step ends the copy: it expires, a delivery of it is skipped and acknowledged, or a handler
   * that ran for it ends, not with a transient failure, and the acknowledgement or termination arrives.
   */
  predicate Ends(s: Sys, step: Step, i: nat) {
    match step
    case Expire(j) => j == i
    case Deliver(j, _, readable, settled) =>
      j == i && settled && i < |s.queue.log| && Skips(s, s.queue.log[i].hop.stepKey, readable)
    case Finish(id, outcome, _, _, _, settled) =>
      id in s.running && s.running[id].copy == Some(i) && settled && !outcome.Transient?
    case _ => false
  }

  lemma StepKeepsLiveIff(s: Sys, step: Step, i: nat)
    requires Enabled(s, step) && i < |s.queue.log|
    ensures i < |Next(s, step).queue.log|
    ensures Live(Next(s, step).queue, i) <==> Live(s.queue, i) && !Ends(s, step, i)
  {
    if step.Reconcile? { DriveAllKeepsCopies(s, step.frontier, step.answers, |step.frontier|); }
  }

  /**
   * Over any stretch of a run, whatever executions, crashes, passes and other copies do in between, a
   * copy is live at the end exactly when it was at the start and no step has ended it. So a nak, a
   * crash or a lost acknowledgement leaves it to be delivered again, and nothing revives it.
   */
  lemma {:induction false} LiveIff(trace: seq<Sys>, steps: seq<Step>, start: nat, end: nat, i: nat)
    requires IsRun(trace, steps) && start <= end < |trace| && i < |trace[start].queue.log|
    ensures i < |trace[end].queue.log|
    ensures Live(trace[end].queue, i)
       <==> Live(trace[start].queue, i) && forall m :: start <= m < end ==> !Ends(trace[m], steps[m], i)
    decreases end
  {
    if start < end {
      LiveIff(trace, steps, start, end - 1, i);
      StepKeepsLiveIff(trace[end - 1], steps[end - 1], i);
    }
  }

  // ----- negative acknowledgements -----

  /** The handler of copy `i` reported a transient failure. */
  predicate Naks(s: Sys, step: Step, i: nat) {
    && step.Finish? && step.id in s.running && step.outcome.Transient?
    && s.running[step.id].copy == Some(i)
  }

  /**
   * The broker's redelivery after a negative acknowledgement runs the handler again exactly when
   * the failure left no record, or the record cannot be read. RunLedgerSound says that every state of
   * a run is sound.
   */
  lemma RedeliveryRunsAgainIff(s: Sys, nak: Step, i: nat, id: nat, readable: bool, settled: bool)
    requires LedgerSound(s) && Enabled(s, nak) && Naks(s, nak, i)
    requires var t := Next(s, nak); Enabled(t, Deliver(i, id, readable, settled))
    ensures CopyOf(s.queue, i, s.running[nak.id].key)
    ensures var t := Next(s, nak); var key := s.queue.log[i].hop.stepKey;
      Next(t, Deliver(i, id, readable, settled)).tally.invoked(key) == t.tally.invoked(key) + 1
      <==> key == "" || !readable || (!Writes(s, nak) && key !in s.view.records)
  {
    assert ExecutionSound(s.root, s.queue, s.running[nak.id]);
  }

  /**
   * Over any stretch of a run: after a recorded transient failure the copy's handler never runs again while
   * the ledger is readable and not collected, although the copy stays in the queue for redelivery
   * until a skipped delivery, another handler's end or its age takes it out.
   */
  lemma RecordedNakIsFinal(trace: seq<Sys>, steps: seq<Step>, at: nat, end: nat, i: nat)
    requires IsRun(trace, steps) && Starts(trace) && at < end < |trace|
    requires Naks(trace[at], steps[at], i) && Writes(trace[at], steps[at]) && Live(trace[at].queue, i)
    requires trace[at].queue.log[i].hop.stepKey != ""
    requires forall m :: at < m < end ==> Quiet(trace[m], steps[m], trace[at].queue.log[i].hop.stepKey)
    ensures var key := trace[at].queue.log[i].hop.stepKey;
      trace[end].tally.invoked(key) == trace[at].tally.invoked(key)
    ensures Live(trace[end].queue, i) <==> forall m :: at < m < end ==> !Ends(trace[m], steps[m], i)
  {
    var key := trace[at].queue.log[i].hop.stepKey;
    RunLedgerSound(trace, steps, at);
    assert ExecutionSound(trace[at].root, trace[at].queue, trace[at].running[steps[at].id]);
    assert key in trace[at + 1].view.records;
    RecordedNeverRunsAgain(trace, steps, at + 1, end, key);
    LiveIff(trace, steps, at, at + 1, i);
    LiveIff(trace, steps, at + 1, end, i);
  }
}
