/**
 * Classic dispatch: a handler's sends run the receiving handlers before they return
 * (internal/scheduler/scheduler.go), the depth travels in a message header
 * (internal/transport/jetstream.go), and a depth limit stops cyclic flows.
 */
module Dispatch {
  import opened Text

  const MAX_MESSAGE_DEPTH: nat := 256

  /** The header as the sender sets it: left out for depth 0. */
  function DepthHeader(depth: nat): string { if depth > 0 then Itoa(depth) else "" }

  /** The depth as the receiver reads it: 0 without a header, and for one that is not a number. */
  function ReceivedDepth(header: string): nat {
    if header == "" then 0
    else match ParseNat(header) case Some(n) => n case None => 0
  }

  /** The depth survives the transport. */
  lemma DepthSurvivesTransport(depth: nat)
    ensures ReceivedDepth(DepthHeader(depth)) == depth
  {
    ParseNatOfItoa(depth);
  }

  /** Where a message is in the tree of dispatches: which send of which send of the first message. */
  type Place = seq<nat>

  /**
   * A flow at work. Whether the message at a place finds a component to run: an instance that has
   * the port, and not the reconcile port. And what that component then sends, as ports in order.
   * Both may depend on anything, as every place is its own; a retried send is one more send.
   */
  datatype Flow = Flow(reaches: Place -> bool, sends: Place -> seq<string>)

  ghost predicate AtMost(flow: Flow, b: nat) { forall p: Place :: |flow.sends(p)| <= b }

  ghost predicate Exactly(flow: Flow, b: nat) { forall p: Place :: flow.reaches(p) && |flow.sends(p)| == b }

  /** How many handlers run for a message of this depth. */
  function Invocations(flow: Flow, p: Place, depth: nat): nat
    decreases MAX_MESSAGE_DEPTH + 1 - depth, 1, 0
  {
    if depth > MAX_MESSAGE_DEPTH || !flow.reaches(p) then 0 else 1 + Below(flow, p, depth, |flow.sends(p)|)
  }

  /** ... and for the first n sends of one handler. */
  function Below(flow: Flow, p: Place, depth: nat, n: nat): nat
    requires depth <= MAX_MESSAGE_DEPTH
    decreases MAX_MESSAGE_DEPTH + 1 - depth, 0, n
  {
    if n == 0 then 0 else Below(flow, p, depth, n - 1) + Invocations(flow, p + [n - 1], depth + 1)
  }

  function Power(b: nat, i: nat): nat { if i == 0 then 1 else b * Power(b, i - 1) }

  /** b^0 + b^1 + ... + b^(n - 1). */
  function PowerSum(b: nat, n: nat): nat { if n == 0 then 0 else PowerSum(b, n - 1) + Power(b, n - 1) }

  /** Peeling the first summand instead of the last. */
  lemma {:induction false} PowerSumPeels(b: nat, n: nat)
    requires n > 0
    ensures PowerSum(b, n) == 1 + b * PowerSum(b, n - 1)
  {
    if n > 1 {
      PowerSumPeels(b, n - 1);
      assert b * PowerSum(b, n - 1) == b * PowerSum(b, n - 2) + b * Power(b, n - 2);
    }
  }

  function Levels(depth: nat): nat { if depth > MAX_MESSAGE_DEPTH then 0 else MAX_MESSAGE_DEPTH + 1 - depth }

  /** However cyclic the flow, a message of depth d causes at most 1 + b + ... + b^(256 - d) invocations. */
  lemma {:induction false} InvocationsBounded(flow: Flow, p: Place, depth: nat, b: nat)
    requires AtMost(flow, b)
    ensures Invocations(flow, p, depth) <= PowerSum(b, Levels(depth))
    decreases Levels(depth), 1, 0
  {
    if depth <= MAX_MESSAGE_DEPTH && flow.reaches(p) {
      BelowBounded(flow, p, depth, b, |flow.sends(p)|);
      PowerSumPeels(b, Levels(depth));
      TimesMonotone(|flow.sends(p)|, b, PowerSum(b, Levels(depth + 1)));
    }
  }

  lemma TimesPeels(n: nat, k: nat)
    requires n > 0
    ensures n * k == (n - 1) * k + k
  {
  }

  lemma {:induction false} BelowBounded(flow: Flow, p: Place, depth: nat, b: nat, n: nat)
    requires AtMost(flow, b) && depth <= MAX_MESSAGE_DEPTH
    ensures Below(flow, p, depth, n) <= n * PowerSum(b, Levels(depth + 1))
    decreases Levels(depth), 0, n
  {
    if n > 0 {
      BelowBounded(flow, p, depth, b, n - 1);
      InvocationsBounded(flow, p + [n - 1], depth + 1, b);
      TimesPeels(n, PowerSum(b, Levels(depth + 1)));
    }
  }

  lemma TimesMonotone(m: nat, n: nat, k: nat)
    requires m <= n
    ensures m * k <= n * k
  {
  }

  /** The bound is met by every flow in which each handler sends b messages. */
  lemma {:induction false} BoundIsTight(flow: Flow, p: Place, depth: nat, b: nat)
    requires Exactly(flow, b)
    ensures Invocations(flow, p, depth) == PowerSum(b, Levels(depth))
    decreases Levels(depth), 1, 0
  {
    if depth <= MAX_MESSAGE_DEPTH {
      BelowTight(flow, p, depth, b, b);
      PowerSumPeels(b, Levels(depth));
    }
  }

  lemma {:induction false} BelowTight(flow: Flow, p: Place, depth: nat, b: nat, n: nat)
    requires Exactly(flow, b) && depth <= MAX_MESSAGE_DEPTH
    ensures Below(flow, p, depth, n) == n * PowerSum(b, Levels(depth + 1))
    decreases Levels(depth), 0, n
  {
    if n > 0 {
      BelowTight(flow, p, depth, b, n - 1);
      BoundIsTight(flow, p + [n - 1], depth + 1, b);
      TimesPeels(n, PowerSum(b, Levels(depth + 1)));
    }
  }

  /** One component invocation. */
  datatype Invocation = Invocation(port: string, depth: nat)

  class Schedule {
    // Every component invocation, in order.
    var invoked: seq<Invocation>

    constructor ()
      ensures invoked == []
    {
      invoked := [];
    }

    /** Handle for a message that arrives with a header: it always returns. `ok` says that a component ran. */
    method Handle(port: string, header: string, flow: Flow, p: Place) returns (ok: bool)
      modifies this
      ensures ok <==> ReceivedDepth(header) <= MAX_MESSAGE_DEPTH && flow.reaches(p)
      ensures |invoked| == |old(invoked)| + Invocations(flow, p, ReceivedDepth(header))
      ensures old(invoked) <= invoked
      ensures forall i :: |old(invoked)| <= i < |invoked| ==> invoked[i].depth <= MAX_MESSAGE_DEPTH
      ensures ok ==> invoked[|old(invoked)|] == Invocation(port, ReceivedDepth(header))
      decreases Levels(ReceivedDepth(header))
    {
      var depth := ReceivedDepth(header);
      if depth > MAX_MESSAGE_DEPTH || !flow.reaches(p) {
        return false;
      }
      invoked := invoked + [Invocation(port, depth)];
      var sends := flow.sends(p);
      var i := 0;
      while i < |sends|
        invariant 0 <= i <= |sends|
        invariant |invoked| == |old(invoked)| + 1 + Below(flow, p, depth, i)
        invariant old(invoked) + [Invocation(port, depth)] <= invoked
        invariant forall k :: |old(invoked)| <= k < |invoked| ==> invoked[k].depth <= MAX_MESSAGE_DEPTH
      {
        DepthSurvivesTransport(depth + 1);
        var _ := Handle(sends[i], DepthHeader(depth + 1), flow, p + [i]);
        i := i + 1;
      }
      ok := true;
    }
  }

  /** One fresh message: at most the sum of b^i for i from 0 to 256. */
  lemma FreshMessageBounded(flow: Flow, b: nat)
    requires AtMost(flow, b)
    ensures Invocations(flow, [], 0) <= PowerSum(b, 257)
  {
    InvocationsBounded(flow, [], 0, b);
  }

  /** ... and a flow in which every handler runs and sends b messages gets there: its 257 levels are all used. */
  lemma FreshMessageReaches(flow: Flow, b: nat)
    requires Exactly(flow, b)
    ensures Invocations(flow, [], 0) == PowerSum(b, 257)
  {
    BoundIsTight(flow, [], 0, b);
  }
}
