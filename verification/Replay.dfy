/** What deterministic step keys buy the protocol: handlers that repeat their work lose no hop. */
module Replay {
  import opened StepLedger
  import opened Runs
  import opened RunLedger
  import opened Protocol
  import opened ProtocolSafety

  /** What each step's handler sends, one order of it. */
  type Work = string -> seq<Emission>

  /** The hops of the step's work, listed in any order. */
  ghost predicate IsWork(runId: string, work: Work, key: string, emits: seq<EmitRecord>) {
    forall h :: h in emits <==> h in Stamp(runId, key, NO_REPLY, work(key))
  }

  /**
   * An execution that sends the work in an interleaving of its own, and whose publishes are
   * acknowledged in an order of their own, records the step's work.
   */
  lemma AnyOrderIsWork(runId: string, work: Work, key: string, sent: seq<Emission>, emits: seq<EmitRecord>)
    requires SameWork(sent, work(key))
    requires multiset(emits) == multiset(Stamp(runId, key, NO_REPLY, sent))
    ensures IsWork(runId, work, key, emits)
  {
    forall h ensures h in emits <==> h in Stamp(runId, key, NO_REPLY, work(key)) {
      assert h in emits <==> h in multiset(emits);
      SameHops(runId, key, NO_REPLY, sent, work(key), h);
    }
  }

  /**
   * If the step writes a record, its handler did its work and every publish was acknowledged: the
   * order of sends and acknowledgements, the number of executions and their overlap are free.
   */
  ghost predicate DoesItsWork(s: Sys, step: Step, runId: string, work: Work) {
    Writes(s, step) ==> IsWork(runId, work, s.running[step.id].key, s.running[step.id].emits)
  }

  /** Every record lists its step's work, or nothing. */
  ghost predicate RecordsWork(s: Sys, runId: string, work: Work) {
    forall k :: k in s.view.records ==>
      s.view.records[k].emits == [] || IsWork(runId, work, k, s.view.records[k].emits)
  }

  lemma StepRecordsWork(s: Sys, step: Step, runId: string, work: Work)
    requires Enabled(s, step) && RecordsWork(s, runId, work) && DoesItsWork(s, step, runId, work)
    ensures RecordsWork(Next(s, step), runId, work)
  {
    var t := Next(s, step);
    forall k | k in t.view.records
      ensures t.view.records[k].emits == [] || IsWork(runId, work, k, t.view.records[k].emits)
    {
      StepRecords(s, step, k);
    }
  }

  lemma {:induction false} RunRecordsWork(trace: seq<Sys>, steps: seq<Step>, runId: string, work: Work, n: nat)
    requires IsRun(trace, steps) && Starts(trace) && n < |trace|
    requires forall i :: 0 <= i < n ==> DoesItsWork(trace[i], steps[i], runId, work)
    ensures RecordsWork(trace[n], runId, work)
    decreases n
  {
    if n > 0 {
      RunRecordsWork(trace, steps, runId, work, n - 1);
      StepRecordsWork(trace[n - 1], steps[n - 1], runId, work);
    }
  }

  lemma RepeatedWorkIsFaithful(s: Sys, step: Step, runId: string, work: Work)
    requires RecordsWork(s, runId, work) && DoesItsWork(s, step, runId, work)
    ensures Faithful(s, step)
  {
    if Writes(s, step) && s.running[step.id].key in s.view.records {
      var e := s.running[step.id];
      var was := s.view.records[e.key].emits;
      assert was == [] || IsWork(runId, work, e.key, was);
      assert forall h :: h in was ==> h in e.emits;
    }
  }

  /**
   * Over every run in which each recorded execution did its step's work, in whatever order and
   * however often, a pending hop stays pending until a record for it appears: through crashes,
   * redeliveries, overlaps, lost records and passes. The one thing it takes is that the broker
   * acknowledged every publish of the executions that were recorded: LostHop shows a run without.
   */
  lemma RepeatedWorkLosesNothing(
      trace: seq<Sys>, steps: seq<Step>, runId: string, work: Work, start: nat, end: nat, h: EmitRecord)
    requires IsRun(trace, steps) && Starts(trace) && start <= end < |trace|
    requires forall i :: 0 <= i < |steps| ==> DoesItsWork(trace[i], steps[i], runId, work)
    requires Pending(trace[start].view, h)
    ensures Pending(trace[end].view, h) || exists m :: start < m <= end && h.stepKey in trace[m].view.records
  {
    forall i | start <= i < end ensures Faithful(trace[i], steps[i]) {
      RunRecordsWork(trace, steps, runId, work, i);
      RepeatedWorkIsFaithful(trace[i], steps[i], runId, work);
    }
    PendingUntilRecorded(trace, steps, start, end, h);
  }

  /**
   * When the overwriting execution did the same work but some publishes were not acknowledged, its
   * record lists the acknowledged ones only, and the overwrite drops exactly the hops that the old
   * record lists, that were not acknowledged again, and that no other record lists.
   */
  lemma UnacknowledgedHopsAreDropped(s: Sys, step: Step, runId: string, work: Work, all: seq<EmitRecord>, h: EmitRecord)
    requires Writes(s, step) && s.running[step.id].key in s.view.records
    requires var e := s.running[step.id];
      IsWork(runId, work, e.key, s.view.records[e.key].emits) && IsWork(runId, work, e.key, all)
    requires forall hop <- s.running[step.id].emits :: hop in all
    ensures var e := s.running[step.id];
      Drops(s, step, h) <==>
        h in all && h !in e.emits
        && forall p :: p in s.view.records && p != e.key ==> h !in s.view.records[p].emits
  {
    var e := s.running[step.id];
    assert h in s.view.records[e.key].emits <==> h in all;
  }
}
