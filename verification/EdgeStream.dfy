/**
 * The durable work queue as internal/transport/jetstream.go configures and uses it:
 * publishes carry the step key as message id, the broker drops a second publish of
 * one id inside the duplicate window, and hands each stored copy out at most
 * MAX_DELIVER times.
 */
module EdgeStream {
  import opened StepLedger

  // Seconds.
  const DUPLICATE_WINDOW: int := 120
  const MAX_DELIVER: nat := 3

  /** Who asked for the publish: a running step, or the run reconciler. */
  datatype Origin = Emitted | Redriven

  /** One stored message; its index in the log is its stream sequence number. */
  datatype Copy = Copy(hop: EmitRecord, origin: Origin, storedAt: int, deliveries: nat, live: bool)

  /** `seen` is the duplicate table: when each message id was last stored. */
  datatype Stream = Stream(log: seq<Copy>, seen: map<string, int>)

  predicate IsDuplicate(q: Stream, now: int, key: string) {
    key != "" && key in q.seen && now - q.seen[key] < DUPLICATE_WINDOW
  }

  /** A durable publish that reaches the broker. Reply hops never enter the queue. */
  function Publish(q: Stream, now: int, hop: EmitRecord, origin: Origin): Stream {
    if hop.IsReplyHop() || IsDuplicate(q, now, hop.stepKey) then q
    else Stream(
      q.log + [Copy(hop, origin, now, 0, true)],
      if hop.stepKey == "" then q.seen else q.seen[hop.stepKey := now])
  }

  /**
   * Of two publishes of one key that both reach the broker the second one adds a copy exactly when it
   * comes at least two minutes after the first.
   */
  lemma SecondCopyIff(q: Stream, at: int, hop: EmitRecord, later: int, again: EmitRecord, origin: Origin)
    requires hop.stepKey == again.stepKey != "" && hop.replySubject == again.replySubject == ""
    requires hop.stepKey in q.seen ==> at - q.seen[hop.stepKey] >= 120
    ensures var once := Publish(q, at, hop, origin);
      && |once.log| == |q.log| + 1
      && |Publish(once, later, again, origin).log| == |q.log| + (if later - at >= 120 then 2 else 1)
  {
  }

  predicate Holds(q: Stream, key: string) {
    exists i :: 0 <= i < |q.log| && q.log[i].hop.stepKey == key
  }

  /** Every copy is delivered within its budget. */
  predicate WithinBudget(q: Stream) {
    forall i :: 0 <= i < |q.log| ==> q.log[i].deliveries <= MAX_DELIVER
  }

  /** Copies of one key are at least a duplicate window apart, and the table knows the last one. */
  predicate Spaced(q: Stream, now: int) {
    && (forall i :: 0 <= i < |q.log| ==> q.log[i].storedAt <= now)
    && (forall i :: 0 <= i < |q.log| && q.log[i].hop.stepKey != "" ==>
          q.log[i].hop.stepKey in q.seen && q.log[i].storedAt <= q.seen[q.log[i].hop.stepKey])
    && (forall i, j :: 0 <= i < j < |q.log| && q.log[i].hop.stepKey == q.log[j].hop.stepKey != "" ==>
          q.log[j].storedAt - q.log[i].storedAt >= DUPLICATE_WINDOW)
  }

  lemma PublishKeepsSpacing(q: Stream, now: int, hop: EmitRecord, origin: Origin)
    requires Spaced(q, now) && WithinBudget(q)
    ensures Spaced(Publish(q, now, hop, origin), now) && WithinBudget(Publish(q, now, hop, origin))
  {
  }

  /** After a publish of an identified, queued hop some copy with its key is stored. */
  lemma PublishStores(q: Stream, now: int, hop: EmitRecord, origin: Origin)
    requires !hop.IsReplyHop()
    requires IsDuplicate(q, now, hop.stepKey) ==> Holds(q, hop.stepKey)
    ensures Holds(Publish(q, now, hop, origin), hop.stepKey)
  {
    var after := Publish(q, now, hop, origin);
    if after != q {
      assert after.log[|q.log|].hop == hop;
    }
  }

  // ----- counting copies and deliveries of one key -----

  function Stored(log: seq<Copy>, key: string): nat {
    if log == [] then 0
    else Stored(log[..|log| - 1], key) + (if log[|log| - 1].hop.stepKey == key then 1 else 0)
  }

  function StoredBy(log: seq<Copy>, key: string, origin: Origin): nat {
    if log == [] then 0
    else
      var c := log[|log| - 1];
      StoredBy(log[..|log| - 1], key, origin) + (if c.hop.stepKey == key && c.origin == origin then 1 else 0)
  }

  function Deliveries(log: seq<Copy>, key: string): nat {
    if log == [] then 0
    else
      var c := log[|log| - 1];
      Deliveries(log[..|log| - 1], key) + (if c.hop.stepKey == key then c.deliveries else 0)
  }

  lemma {:induction false} StoredSplits(log: seq<Copy>, key: string)
    ensures Stored(log, key) == StoredBy(log, key, Emitted) + StoredBy(log, key, Redriven)
  {
    if log != [] { StoredSplits(log[..|log| - 1], key); }
  }

  lemma {:induction false} DeliveriesBounded(log: seq<Copy>, key: string)
    requires forall i :: 0 <= i < |log| ==> log[i].deliveries <= MAX_DELIVER
    ensures Deliveries(log, key) <= MAX_DELIVER * Stored(log, key)
  {
    if log != [] { DeliveriesBounded(log[..|log| - 1], key); }
  }

  lemma CountsAppend(log: seq<Copy>, c: Copy, key: string)
    ensures Stored(log + [c], key) == Stored(log, key) + (if c.hop.stepKey == key then 1 else 0)
    ensures Deliveries(log + [c], key) == Deliveries(log, key) + (if c.hop.stepKey == key then c.deliveries else 0)
    ensures forall o ::
      StoredBy(log + [c], key, o) == StoredBy(log, key, o) + (if c.hop.stepKey == key && c.origin == o then 1 else 0)
  {
    assert (log + [c])[..|log|] == log;
  }

  /** Changing one copy's delivery count changes only its own key's total, by the same amount. */
  lemma {:induction false} CountsUpdate(log: seq<Copy>, i: nat, c: Copy, key: string)
    requires i < |log| && c.hop == log[i].hop && c.origin == log[i].origin
    ensures Stored(log[i := c], key) == Stored(log, key)
    ensures forall o :: StoredBy(log[i := c], key, o) == StoredBy(log, key, o)
    ensures Deliveries(log[i := c], key)
      == Deliveries(log, key) + (if c.hop.stepKey == key then c.deliveries - log[i].deliveries else 0)
  {
    var front := log[..|log| - 1];
    if i == |log| - 1 {
      assert log[i := c][..|log| - 1] == front;
    } else {
      CountsUpdate(front, i, c, key);
      assert log[i := c][..|log| - 1] == front[i := c];
    }
  }

  predicate From(c: Copy, key: string, origin: Origin) {
    c.hop.stepKey == key && c.origin == origin
  }

  /** Any two copies of the key from this origin were stored less than a window apart. */
  predicate CloseTogether(log: seq<Copy>, key: string, origin: Origin) {
    forall i, j :: 0 <= i < j < |log| && From(log[i], key, origin) && From(log[j], key, origin) ==>
      log[j].storedAt - log[i].storedAt < DUPLICATE_WINDOW
  }

  /** Copies of one origin that lie closer together than the window are at most one. */
  lemma {:induction false} CloseCopiesAreOne(q: Stream, now: int, key: string, origin: Origin, n: nat)
    requires Spaced(q, now) && key != "" && n <= |q.log|
    requires CloseTogether(q.log, key, origin)
    ensures StoredBy(q.log[..n], key, origin) <= 1
    ensures StoredBy(q.log[..n], key, origin) == 0 <==>
      forall i :: 0 <= i < n ==> !From(q.log[i], key, origin)
    decreases n
  {
    if n > 0 {
      CloseCopiesAreOne(q, now, key, origin, n - 1);
      assert q.log[..n][..n - 1] == q.log[..n - 1];
    }
  }

  // ----- repeated publishes -----

  /** Publishes `hops[i]` at time `times[i]`, in order. */
  function PublishAll(q: Stream, times: seq<int>, hops: seq<EmitRecord>, origin: Origin): Stream
    requires |times| == |hops|
    decreases |hops|
  {
    if hops == [] then q
    else
      var last := |hops| - 1;
      Publish(PublishAll(q, times[..last], hops[..last], origin), times[last], hops[last], origin)
  }

  /** Hops whose keys were all stored less than a window ago add nothing. */
  lemma {:induction false} RepublishIsAbsorbed(q: Stream, times: seq<int>, hops: seq<EmitRecord>, origin: Origin)
    requires |times| == |hops|
    requires forall i :: 0 <= i < |hops| ==> hops[i].IsReplyHop() || IsDuplicate(q, times[i], hops[i].stepKey)
    ensures PublishAll(q, times, hops, origin) == q
    decreases |hops|
  {
    if hops != [] {
      RepublishIsAbsorbed(q, times[..|hops| - 1], hops[..|hops| - 1], origin);
    }
  }

  /** Every identified queued hop published inside one window is remembered from inside it. */
  lemma {:induction false} PublishedKeysAreSeen(
      q: Stream, start: int, times: seq<int>, hops: seq<EmitRecord>, origin: Origin, key: string)
    requires |times| == |hops| && key != ""
    requires forall i :: 0 <= i < |times| ==> start <= times[i]
    requires exists i :: 0 <= i < |hops| && hops[i].stepKey == key && !hops[i].IsReplyHop()
    requires key in q.seen ==> q.seen[key] >= start || q.seen[key] <= start - DUPLICATE_WINDOW
    requires forall i :: 0 <= i < |times| ==> times[i] - start < DUPLICATE_WINDOW
    ensures var after := PublishAll(q, times, hops, origin); key in after.seen && after.seen[key] >= start
    decreases |hops|
  {
    var last := |hops| - 1;
    var before := PublishAll(q, times[..last], hops[..last], origin);
    if exists i :: 0 <= i < last && hops[i].stepKey == key && !hops[i].IsReplyHop() {
      var i :| 0 <= i < last && hops[i].stepKey == key && !hops[i].IsReplyHop();
      assert hops[..last][i] == hops[i];
      PublishedKeysAreSeen(q, start, times[..last], hops[..last], origin, key);
    } else {
      assert hops[last].stepKey == key && !hops[last].IsReplyHop();
      UnpublishedKeysUnseen(q, times[..last], hops[..last], origin, key);
    }
  }

  lemma {:induction false} UnpublishedKeysUnseen(
      q: Stream, times: seq<int>, hops: seq<EmitRecord>, origin: Origin, key: string)
    requires |times| == |hops|
    requires forall i :: 0 <= i < |hops| ==> hops[i].stepKey != key || hops[i].IsReplyHop()
    ensures var after := PublishAll(q, times, hops, origin);
      (key in after.seen <==> key in q.seen) && (key in q.seen ==> after.seen[key] == q.seen[key])
    decreases |hops|
  {
    if hops != [] {
      UnpublishedKeysUnseen(q, times[..|hops| - 1], hops[..|hops| - 1], origin, key);
    }
  }
}
