/** Run identity and the emits of one handler invocation (module/run.go, internal/scheduler/runner/runner.go). */
module Runs {
  import opened StepLedger
  import opened RunKeys
  import opened EdgeStream

  function Count(edges: seq<string>, e: string): nat {
    if edges == [] then 0 else Count(edges[..|edges| - 1], e) + (if edges[|edges| - 1] == e then 1 else 0)
  }

  /** How one publish attempt went: whether the broker stored it, acknowledged it, and may be retried. */
  datatype Attempt = Attempt(at: int, stored: bool, acked: bool, retryable: bool)

  /** How many attempts the retry loop makes: it stops after an ack or an error not marked retryable. */
  function AttemptsMade(attempts: seq<Attempt>): (n: nat)
    ensures n <= |attempts|
    ensures forall i :: 0 <= i < n - 1 ==> !attempts[i].acked && attempts[i].retryable
    ensures n < |attempts| ==> n > 0 && (attempts[n - 1].acked || !attempts[n - 1].retryable)
  {
    if attempts == [] then 0
    else if attempts[0].acked || !attempts[0].retryable then 1
    else 1 + AttemptsMade(attempts[1..])
  }

  function Acked(attempts: seq<Attempt>): bool {
    var n := AttemptsMade(attempts);
    n > 0 && attempts[n - 1].acked
  }

  /** The queue after the first n attempts to publish one hop. */
  function Attempted(q: Stream, hop: EmitRecord, attempts: seq<Attempt>, n: nat): Stream
    requires n <= |attempts|
  {
    if n == 0 then q
    else
      var before := Attempted(q, hop, attempts, n - 1);
      if attempts[n - 1].stored then Publish(before, attempts[n - 1].at, hop, Emitted) else before
  }

  /** One run during one handler invocation. */
  class Run {
    const runId: string
    const stepKey: string
    var reply: ReplyAddress
    var sequence: map<string, nat>
    var emits: seq<EmitRecord>
    // The edges keys were drawn for, in order.
    ghost var drawn: seq<string>

    ghost predicate Valid()
      reads this
    {
      forall e: string :: (if e in sequence then sequence[e] else 0) == Count(drawn, e)
    }

    /** NewRun: the identity that arrives on a message. It carries no reply address. */
    constructor (runId: string, stepKey: string)
      ensures Valid() && drawn == [] && emits == [] && reply == NO_REPLY
      ensures this.runId == runId && this.stepKey == stepKey
    {
      this.runId := runId;
      this.stepKey := stepKey;
      reply := NO_REPLY;
      sequence := map[];
      emits := [];
      drawn := [];
    }

    /** MintRun: a new run at an entry node; `id` is a fresh UUID. */
    constructor Mint(id: string)
      ensures Valid() && drawn == [] && emits == [] && reply == NO_REPLY
      ensures runId == id && stepKey == id + ".root"
    {
      runId := id;
      stepKey := id + ".root";
      reply := NO_REPLY;
      sequence := map[];
      emits := [];
      drawn := [];
    }

    method WithReply(address: ReplyAddress)
      requires Valid()
      modifies this`reply
      ensures reply == address && Valid()
    {
      reply := address;
    }

    method NextStepKey(edgeId: string) returns (key: string)
      requires Valid()
      modifies this`sequence, this`drawn
      ensures Valid() && drawn == old(drawn) + [edgeId]
      ensures key == StepKeyFor(runId, stepKey, edgeId, Count(old(drawn), edgeId))
    {
      var n := if edgeId in sequence then sequence[edgeId] else 0;
      sequence := sequence[edgeId := n + 1];
      key := runId + "." + Hex(Fnv(Preimage(stepKey, edgeId, n)), 16);
      assert n == Count(drawn, edgeId);
      drawn := drawn + [edgeId];
      assert drawn[..|drawn| - 1] == old(drawn);
    }

    method RecordEmit(e: EmitRecord)
      modifies this`emits
      ensures emits == old(emits) + [e]
    {
      emits := emits + [e];
    }

    /**
     * sendToEdgeWithRetry for a durable hop: one key for all attempts, and a ledger
     * entry exactly when an attempt was acknowledged. What is recorded, and what the queue
     * gains, is the emission under that key, with the run's reply address.
     */
    method SendToEdge(em: Emission, q: Stream, attempts: seq<Attempt>) returns (ok: bool, after: Stream)
      requires Valid()
      modifies this`sequence, this`drawn, this`emits
      ensures Valid() && drawn == old(drawn) + [em.edgeId]
      ensures var key := StepKeyFor(runId, stepKey, em.edgeId, Count(old(drawn), em.edgeId));
        && ok == Acked(attempts)
        && after == Attempted(q, HopOf(em, key, reply), attempts, AttemptsMade(attempts))
        && emits == old(emits) + (if ok then [HopOf(em, key, reply)] else [])
      ensures var key := StepKeyFor(runId, stepKey, em.edgeId, Count(old(drawn), em.edgeId));
        && (ok ==> |emits| == |old(emits)| + 1 && Carries(emits[|emits| - 1], em, key, reply))
        && AddsOnly(q, after, em, key, reply)
        && (Reaches(q, em, key, reply, attempts) ==> |after.log| > |q.log|)
    {
      var key := NextStepKey(em.edgeId);
      var hop := HopOf(em, key, reply);
      after := q;
      var i := 0;
      while i < |attempts|
        invariant 0 <= i <= |attempts|
        invariant i + AttemptsMade(attempts[i..]) == AttemptsMade(attempts)
        invariant i > 0 ==> !attempts[i - 1].acked
        invariant after == Attempted(q, hop, attempts, i)
        invariant emits == old(emits)
      {
        if attempts[i].stored {
          after := Publish(after, attempts[i].at, hop, Emitted);
        }
        if attempts[i].acked {
          RecordEmit(hop);
          SendAdds(q, em, key, reply, attempts);
          return true, after;
        }
        if !attempts[i].retryable {
          SendAdds(q, em, key, reply, attempts);
          return false, after;
        }
        assert attempts[i..][1..] == attempts[i + 1..];
        i := i + 1;
      }
      SendAdds(q, em, key, reply, attempts);
      ok := false;
    }
  }

  // ----- what a publish adds -----

  /** The queue kept its copies and gained only fresh copies of this emission's hop. */
  predicate AddsOnly(q: Stream, after: Stream, em: Emission, key: string, reply: ReplyAddress) {
    && |q.log| <= |after.log| && after.log[..|q.log|] == q.log
    && forall i :: |q.log| <= i < |after.log| ==>
         && Carries(after.log[i].hop, em, key, reply)
         && after.log[i].origin == Emitted && after.log[i].deliveries == 0 && after.log[i].live
  }

  /**
   * Some attempt that was made reached the broker, where the key was not stored less than a duplicate
   * window ago, and the emission does not go to the address that waits for the reply.
   */
  predicate Reaches(q: Stream, em: Emission, key: string, reply: ReplyAddress, attempts: seq<Attempt>) {
    && (exists i :: 0 <= i < AttemptsMade(attempts) && attempts[i].stored
          && (key == "" || key !in q.seen || attempts[i].at - q.seen[key] >= DUPLICATE_WINDOW))
    && (reply.subject == "" || reply.target == "" || em.to != reply.target)
  }

  lemma {:induction false} AttemptsAdd(
      q: Stream, em: Emission, key: string, reply: ReplyAddress, attempts: seq<Attempt>, n: nat)
    requires n <= |attempts|
    ensures var after := Attempted(q, HopOf(em, key, reply), attempts, n);
      && AddsOnly(q, after, em, key, reply)
      && (|after.log| == |q.log| ==> after == q)
  {
    if n > 0 { AttemptsAdd(q, em, key, reply, attempts, n - 1); }
  }

  lemma {:induction false} LogGrows(q: Stream, hop: EmitRecord, attempts: seq<Attempt>, m: nat, n: nat)
    requires m <= n <= |attempts|
    ensures |Attempted(q, hop, attempts, m).log| <= |Attempted(q, hop, attempts, n).log|
    decreases n
  {
    if m < n { LogGrows(q, hop, attempts, m, n - 1); }
  }

  lemma SendAdds(q: Stream, em: Emission, key: string, reply: ReplyAddress, attempts: seq<Attempt>)
    ensures var after := Attempted(q, HopOf(em, key, reply), attempts, AttemptsMade(attempts));
      && AddsOnly(q, after, em, key, reply)
      && (Reaches(q, em, key, reply, attempts) ==> |after.log| > |q.log|)
  {
    var hop, n := HopOf(em, key, reply), AttemptsMade(attempts);
    AttemptsAdd(q, em, key, reply, attempts, n);
    if Reaches(q, em, key, reply, attempts) {
      var i :| 0 <= i < n && attempts[i].stored
        && (key == "" || key !in q.seen || attempts[i].at - q.seen[key] >= DUPLICATE_WINDOW);
      AttemptsAdd(q, em, key, reply, attempts, i);
      LogGrows(q, hop, attempts, i, i + 1);
      LogGrows(q, hop, attempts, i + 1, n);
    }
  }

  /** Retries of one publish inside the window leave at most one more copy, and one exactly when new. */
  lemma {:induction false} RetriesStoreOnce(q: Stream, start: int, hop: EmitRecord, attempts: seq<Attempt>, n: nat)
    requires n <= |attempts| && hop.stepKey != "" && !hop.IsReplyHop()
    requires hop.stepKey in q.seen ==> q.seen[hop.stepKey] <= start - DUPLICATE_WINDOW
    requires forall i :: 0 <= i < n ==> start <= attempts[i].at < start + DUPLICATE_WINDOW
    ensures var after := Attempted(q, hop, attempts, n);
      if exists i :: 0 <= i < n && attempts[i].stored
      then |after.log| == |q.log| + 1 && after.log[..|q.log|] == q.log && after.log[|q.log|].hop == hop
        && hop.stepKey in after.seen && start <= after.seen[hop.stepKey]
      else after == q
  {
    if n > 0 {
      RetriesStoreOnce(q, start, hop, attempts, n - 1);
    }
  }

  // ----- step keys do not depend on scheduling -----

  function EdgesOf(trace: seq<Emission>): seq<string> {
    seq(|trace|, i requires 0 <= i < |trace| => trace[i].edgeId)
  }

  /** The i-th hop: its ordinal counts the earlier emissions over the same edge. */
  function HopAt(runId: string, parent: string, reply: ReplyAddress, trace: seq<Emission>, i: nat): EmitRecord
    requires i < |trace|
  {
    var e := trace[i].edgeId;
    HopOf(trace[i], StepKeyFor(runId, parent, e, Count(EdgesOf(trace[..i]), e)), reply)
  }

  /** The hops that a handler's emissions become, in the order in which they drew their keys. */
  function Stamp(runId: string, parent: string, reply: ReplyAddress, trace: seq<Emission>): (hops: seq<EmitRecord>)
    ensures |hops| == |trace|
  {
    seq(|trace|, i requires 0 <= i < |trace| => HopAt(runId, parent, reply, trace, i))
  }

  function OnEdge(trace: seq<Emission>, e: string): seq<Emission> {
    if trace == [] then []
    else OnEdge(trace[..|trace| - 1], e) + (if trace[|trace| - 1].edgeId == e then [trace[|trace| - 1]] else [])
  }

  function HopsOnEdge(hops: seq<EmitRecord>, e: string): seq<EmitRecord> {
    if hops == [] then []
    else HopsOnEdge(hops[..|hops| - 1], e) + (if hops[|hops| - 1].edgeId == e then [hops[|hops| - 1]] else [])
  }

  /** What one edge's own emissions become, whatever the other edges do. */
  function StampEdge(
      runId: string, parent: string, reply: ReplyAddress, e: string, own: seq<Emission>): seq<EmitRecord>
  {
    seq(|own|, i requires 0 <= i < |own| => HopOf(own[i], StepKeyFor(runId, parent, e, i), reply))
  }

  lemma {:induction false} CountIsOwnLength(trace: seq<Emission>, e: string)
    ensures Count(EdgesOf(trace), e) == |OnEdge(trace, e)|
    decreases |trace|
  {
    if trace != [] {
      var front := trace[..|trace| - 1];
      CountIsOwnLength(front, e);
      assert EdgesOf(trace)[..|trace| - 1] == EdgesOf(front);
    }
  }

  lemma HopAtFront(runId: string, parent: string, reply: ReplyAddress, trace: seq<Emission>, i: nat)
    requires i < |trace| - 1
    ensures HopAt(runId, parent, reply, trace, i) == HopAt(runId, parent, reply, trace[..|trace| - 1], i)
  {
    assert trace[..|trace| - 1][..i] == trace[..i];
  }

  lemma StampPeels(runId: string, parent: string, reply: ReplyAddress, trace: seq<Emission>)
    requires trace != []
    ensures var last := |trace| - 1;
      Stamp(runId, parent, reply, trace)
      == Stamp(runId, parent, reply, trace[..last]) + [HopAt(runId, parent, reply, trace, last)]
  {
    forall i | 0 <= i < |trace| - 1
      ensures Stamp(runId, parent, reply, trace)[i] == Stamp(runId, parent, reply, trace[..|trace| - 1])[i]
    {
      HopAtFront(runId, parent, reply, trace, i);
    }
  }

  lemma {:induction false} StampIsPerEdge(
      runId: string, parent: string, reply: ReplyAddress, trace: seq<Emission>, e: string)
    ensures HopsOnEdge(Stamp(runId, parent, reply, trace), e)
         == StampEdge(runId, parent, reply, e, OnEdge(trace, e))
    decreases |trace|
  {
    if trace != [] {
      var last := |trace| - 1;
      StampIsPerEdge(runId, parent, reply, trace[..last], e);
      StampPeels(runId, parent, reply, trace);
      CountIsOwnLength(trace[..last], e);
      var hops := Stamp(runId, parent, reply, trace);
      assert hops[..last] == Stamp(runId, parent, reply, trace[..last]);
      if trace[last].edgeId == e {
        StampEdgePeels(runId, parent, reply, e, OnEdge(trace[..last], e), trace[last]);
      }
    }
  }

  lemma StampEdgePeels(
      runId: string, parent: string, reply: ReplyAddress, e: string, own: seq<Emission>, em: Emission)
    ensures StampEdge(runId, parent, reply, e, own + [em])
         == StampEdge(runId, parent, reply, e, own) + [HopOf(em, StepKeyFor(runId, parent, e, |own|), reply)]
  {
  }

  /** Two interleavings of the same per-edge emissions. */
  ghost predicate SameWork(s: seq<Emission>, t: seq<Emission>) {
    forall e: string :: OnEdge(s, e) == OnEdge(t, e)
  }

  /** Every edge gets the same hops, keys included, under any interleaving. */
  lemma KeysIgnoreScheduling(
      runId: string, parent: string, reply: ReplyAddress, s: seq<Emission>, t: seq<Emission>, e: string)
    requires SameWork(s, t)
    ensures HopsOnEdge(Stamp(runId, parent, reply, s), e) == HopsOnEdge(Stamp(runId, parent, reply, t), e)
  {
    StampIsPerEdge(runId, parent, reply, s, e);
    StampIsPerEdge(runId, parent, reply, t, e);
  }

  lemma {:induction false} HopsOnEdgeMembers(hops: seq<EmitRecord>, h: EmitRecord)
    ensures h in HopsOnEdge(hops, h.edgeId) <==> h in hops
    decreases |hops|
  {
    if hops != [] {
      HopsOnEdgeMembers(hops[..|hops| - 1], h);
      assert hops == hops[..|hops| - 1] + [hops[|hops| - 1]];
    }
  }

  /** Both executions emit the same set of hops. */
  lemma SameHops(runId: string, parent: string, reply: ReplyAddress, s: seq<Emission>, t: seq<Emission>, h: EmitRecord)
    requires SameWork(s, t)
    ensures h in Stamp(runId, parent, reply, s) <==> h in Stamp(runId, parent, reply, t)
  {
    KeysIgnoreScheduling(runId, parent, reply, s, t, h.edgeId);
    HopsOnEdgeMembers(Stamp(runId, parent, reply, s), h);
    HopsOnEdgeMembers(Stamp(runId, parent, reply, t), h);
  }

  /**
   * A redelivered step that repeats its work in another interleaving, inside the
   * duplicate window of the first execution, stores nothing new.
   */
  lemma RedeliveryStoresNothingNew(
      runId: string, parent: string, reply: ReplyAddress, q: Stream, start: int,
      s: seq<Emission>, first: seq<int>, t: seq<Emission>, second: seq<int>)
    requires SameWork(s, t) && |first| == |s| && |second| == |t|
    requires forall i :: 0 <= i < |s| ==> start <= first[i] < start + DUPLICATE_WINDOW
    requires forall i :: 0 <= i < |t| ==> start <= second[i] < start + DUPLICATE_WINDOW
    requires forall h <- Stamp(runId, parent, reply, s) ::
      h.stepKey in q.seen ==> q.seen[h.stepKey] <= start - DUPLICATE_WINDOW
    ensures var once := PublishAll(q, first, Stamp(runId, parent, reply, s), Emitted);
      PublishAll(once, second, Stamp(runId, parent, reply, t), Emitted) == once
  {
    var hops, again := Stamp(runId, parent, reply, s), Stamp(runId, parent, reply, t);
    var once := PublishAll(q, first, hops, Emitted);
    forall i | 0 <= i < |again|
      ensures again[i].IsReplyHop() || IsDuplicate(once, second[i], again[i].stepKey)
    {
      SameHops(runId, parent, reply, s, t, again[i]);
      if !again[i].IsReplyHop() {
        var j :| 0 <= j < |hops| && hops[j] == again[i];
        PublishedKeysAreSeen(q, start, first, hops, Emitted, again[i].stepKey);
      }
    }
    RepublishIsAbsorbed(once, second, again, Emitted);
  }
}
