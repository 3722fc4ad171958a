/**
 * A run of the protocol that loses a hop although its handler does the same work every time: the
 * counterexample to "a pending hop stays pending until it has a record".
 */
module LostHop {
  import opened Text
  import opened StepLedger
  import opened EdgeStream
  import opened RunLedger
  import opened Protocol

  function EmissionTo(port: string): Emission { Emission(port, "m:out", "edge", "") }

  function HopTo(port: string, key: string): EmitRecord { HopOf(EmissionTo(port), key, NO_REPLY) }

  ghost predicate Leads(trace: seq<Sys>, s: Sys, t: Sys) { |trace| > 0 && trace[0] == s && trace[|trace| - 1] == t }

  lemma RunsJoin(s: seq<Sys>, ss: seq<Step>, t: seq<Sys>, ts: seq<Step>)
    requires IsRun(s, ss) && IsRun(t, ts) && s[|s| - 1] == t[0]
    ensures IsRun(s + t[1..], ss + ts) && Leads(s + t[1..], s[0], t[|t| - 1])
  {
    var u, us := s + t[1..], ss + ts;
    forall i | 0 <= i < |us| ensures Enabled(u[i], us[i]) && u[i + 1] == Next(u[i], us[i]) {
      if i >= |ss| {
        assert u[i] == t[i - |ss|] && u[i + 1] == t[i - |ss| + 1] && us[i] == ts[i - |ss|];
      }
    }
  }

  function At(key: string, emits: seq<EmitRecord>): Execution { Execution(key, Some(0), NO_REPLY, true, emits) }

  /** The entry step emits the hop `a` and is recorded. */
  lemma EntryStepRun() returns (s: seq<Sys>, steps: seq<Step>, last: Sys)
    ensures IsRun(s, steps) && Leads(s, Init("r", 0), last)
    ensures last.root == "r" && last.running == map[] && last.now == 0
    ensures last.queue == Stream([Copy(HopTo("n:in", "a"), Emitted, 0, 0, true)], map["a" := 0])
    ensures last.view.records.Keys == {"r"} && last.view.records["r"].emits == [HopTo("n:in", "a")]
  {
    var a := HopTo("n:in", "a");
    var s0 := Init("r", 0);
    var s1 := s0.(begun := true, running := s0.running[0 := EntryExecution("r", Minted)]);
    var s2 := AfterEmit(s1, 0, EmissionTo("n:in"), "a", true, true);
    last := AfterFinish(s2, 0, Succeeded, "m", "", true, true);
    s := [s0, s1, s2, last];
    steps := [Begin(0, Minted), Emit(0, EmissionTo("n:in"), "a", true, true),
              Finish(0, Succeeded, "m", "", true, true)];
    assert !a.IsReplyHop() && [] + [a] == [a];
    assert s2.queue.log == [Copy(a, Emitted, 0, 0, true)];
    assert last.running == map[];
  }

  /** Its copy is delivered twice before either handler has finished. */
  lemma DeliveredTwice(s0: Sys) returns (s: seq<Sys>, steps: seq<Step>, last: Sys)
    requires s0.running == map[] && s0.now == 0 && s0.view.records.Keys == {"r"}
    requires s0.queue == Stream([Copy(HopTo("n:in", "a"), Emitted, 0, 0, true)], map["a" := 0])
    ensures IsRun(s, steps) && Leads(s, s0, last) && last.view == s0.view && last.root == s0.root && last.now == 0
    ensures last.running == map[1 := At("a", []), 2 := At("a", [])]
    ensures last.queue.seen == map["a" := 0] && |last.queue.log| == 1
  {
    assert "a"[0] != "r"[0];
    var s1 := AfterDelivery(s0, 0, 1, true, true);
    assert s1.running == map[1 := At("a", [])];
    last := AfterDelivery(s1, 0, 2, true, true);
    s := [s0, s1, last];
    steps := [Deliver(0, 1, true, true), Deliver(0, 2, true, true)];
  }

  /** Both handlers emit `b`. The queue keeps one copy, and the second acknowledgement is lost. */
  lemma EmittedTwice(s0: Sys) returns (s: seq<Sys>, steps: seq<Step>, last: Sys)
    requires s0.running == map[1 := At("a", []), 2 := At("a", [])] && s0.now == 0
    requires s0.queue.seen == map["a" := 0]
    ensures IsRun(s, steps) && Leads(s, s0, last) && last.view == s0.view && last.root == s0.root
    ensures last.running == map[1 := At("a", [HopTo("p:in", "b")]), 2 := At("a", [])]
    ensures |last.queue.log| == |s0.queue.log| + 1
  {
    var em, b := EmissionTo("p:in"), HopTo("p:in", "b");
    assert "a"[0] != "b"[0] && [] + [b] == [b] && !b.IsReplyHop();
    var s1 := AfterEmit(s0, 1, em, "b", true, true);
    assert s1.running == map[1 := At("a", [b]), 2 := At("a", [])];
    last := AfterEmit(s1, 2, em, "b", true, false);
    s := [s0, s1, last];
    steps := [Emit(1, em, "b", true, true), Emit(2, em, "b", true, false)];
  }

  /** Each handler writes its own record; the second one replaces the first. */
  lemma SecondRecordDrops(s0: Sys, b: EmitRecord) returns (s: seq<Sys>, steps: seq<Step>)
    requires b.stepKey != "a" && b.stepKey != s0.root && s0.root != "a"
    requires s0.running == map[1 := At("a", [b]), 2 := At("a", [])]
    requires s0.view.records.Keys == {s0.root} && s0.view.records[s0.root].emits == [HopTo("n:in", "a")]
    ensures IsRun(s, steps) && |s| == 3 && s[0] == s0
    ensures Pending(s[1].view, b)
    ensures !Pending(s[2].view, b) && b.stepKey !in s[2].view.records && Closed(s[2].view)
  {
    steps := [Finish(1, Succeeded, "n", "", true, true), Finish(2, Succeeded, "n", "", true, true)];
    var s1 := AfterFinish(s0, 1, Succeeded, "n", "", true, true);
    var s2 := AfterFinish(s1, 2, Succeeded, "n", "", true, true);
    s := [s0, s1, s2];
    assert b in s1.view.records["a"].emits;
    assert s2.view.records["a"].emits == [] && s2.view.records[s0.root].emits == [HopTo("n:in", "a")];
  }

  /**
   * Two deliveries of one copy overlap. Both handlers emit the same hop under the same key, but the
   * broker's acknowledgement to the second is lost, so its record lists nothing, and it silently
   * replaces the first one's. The hop has no record and no place in the frontier, and the run
   * counts as finished. By FrontierExit such an overwrite is the only way to lose one.
   */
  lemma OverlappingDeliveriesLoseAHop() returns (trace: seq<Sys>, steps: seq<Step>, b: EmitRecord)
    ensures IsRun(trace, steps) && Starts(trace) && |trace| >= 2 && Pending(trace[|trace| - 2].view, b)
    ensures var last := trace[|trace| - 1];
      Closed(last.view) && !Pending(last.view, b) && b.stepKey !in last.view.records
  {
    b := HopTo("p:in", "b");
    assert "a"[0] != "b"[0] && "a"[0] != "r"[0] && "b"[0] != "r"[0];
    var s, ss, s3 := EntryStepRun();
    var t, ts, s5 := DeliveredTwice(s3);
    var v, vs, s7 := EmittedTwice(s5);
    var u, us := SecondRecordDrops(s7, b);
    RunsJoin(s, ss, t, ts);
    RunsJoin(s + t[1..], ss + ts, v, vs);
    RunsJoin(s + t[1..] + v[1..], ss + ts + vs, u, us);
    trace, steps := s + t[1..] + v[1..] + u[1..], ss + ts + vs + us;
  }
}
