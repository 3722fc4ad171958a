/**
 * The pending overlay of pkg/state/metadata.go over a lagging cache, and the plain map it
 * refines: whatever the interleaving of local writes, patch arrivals and expiries.
 */
module MetadataView {
  import opened Text
  import opened Base64
  import opened MetadataSize

  // Seconds.
  const PENDING_TTL: int := 5

  /** A local write that the watch may not have shown yet; a nil value is a tombstone. */
  datatype Pending = Pending(value: Blob, addedAt: int)

  /** Local writes, what the watch has shown so far, and the patches still on their way, oldest first. */
  datatype Overlay = Overlay(pending: map<string, Pending>, cache: Metadata, patches: seq<Patch>)

  /** What Get returns: the bytes, whether the key is present, and whether its text was unreadable. */
  datatype Reading = Absent | Present(data: seq<Byte>) | Unreadable

  function Live(pending: map<string, Pending>, key: string, now: int): Option<Blob> {
    if key in pending && now - pending[key].addedAt < PENDING_TTL then Some(pending[key].value) else None
  }

  function Lookup(meta: Metadata, key: string): Option<string> {
    if StateKey(key) in meta then Some(meta[StateKey(key)]) else None
  }

  /** How stored text reads. */
  function ReadText(text: Option<string>): Reading {
    if text.None? then Absent
    else match Decode(text.value) case Some(data) => Present(data) case None => Unreadable
  }

  function Read(pending: map<string, Pending>, cache: Metadata, key: string, now: int): Reading {
    match Live(pending, key, now)
    case Some(Nil) => Absent
    case Some(Bytes(data)) => Present(data)
    case None => ReadText(Lookup(cache, key))
  }

  // ----- the plain map -----

  /** The intended contents: the text of the last local write of each key. */
  type Contents = map<string, string>

  function Wanted(goal: Contents, key: string): Option<string> { if key in goal then Some(goal[key]) else None }

  datatype Event =
    | Set(key: string, value: Blob)
    | Delete(key: string)
    | Arrive
    | Pass(later: int)

  datatype World = World(overlay: Overlay, goal: Contents, now: int)

  predicate Possible(w: World, e: Event) { e.Arrive? ==> w.overlay.patches != [] }

  /** Time goes on, and patches reach the cache within the shadowing time. */
  predicate Timely(w: World, e: Event) {
    e.Pass? ==>
      && w.now <= e.later
      && forall i :: 0 <= i < |w.overlay.patches| ==> e.later - w.overlay.patches[i].at < PENDING_TTL
  }

  function Pushed(o: Overlay, key: string, value: Blob, text: Option<string>, now: int): Overlay {
    Overlay(o.pending[key := Pending(value, now)], o.cache, o.patches + [Patch(key, text, now)])
  }

  ghost function Happens(w: World, e: Event): World
    requires Possible(w, e)
  {
    var o := w.overlay;
    match e
    case Set(key, value) =>
      World(Pushed(o, key, value, Some(TextOf(value)), w.now), w.goal[key := TextOf(value)], w.now)
    case Delete(key) => World(Pushed(o, key, Nil, None, w.now), w.goal - {key}, w.now)
    case Arrive => w.(overlay := Overlay(o.pending, ApplyPatch(o.cache, o.patches[0]), o.patches[1..]))
    case Pass(later) => w.(now := later)
  }

  /** What the cache will say about the key once every patch has arrived. */
  function Eventually(cache: Metadata, patches: seq<Patch>, key: string): Option<string>
    decreases |patches|
  {
    if patches == [] then Lookup(cache, key)
    else
      var last := patches[|patches| - 1];
      if last.key == key then last.text else Eventually(cache, patches[..|patches| - 1], key)
  }

  lemma LookupAfterPatch(cache: Metadata, p: Patch, key: string)
    ensures Lookup(ApplyPatch(cache, p), key) == if p.key == key then p.text else Lookup(cache, key)
  {
    if StateKey(p.key) == StateKey(key) { StateKeyInjective(p.key, key); }
  }

  lemma {:induction false} EventuallyAfterArrival(cache: Metadata, patches: seq<Patch>, key: string)
    requires patches != []
    ensures Eventually(ApplyPatch(cache, patches[0]), patches[1..], key) == Eventually(cache, patches, key)
    decreases |patches|
  {
    var front, last := patches[..|patches| - 1], patches[|patches| - 1];
    if |patches| == 1 {
      LookupAfterPatch(cache, patches[0], key);
    } else {
      EventuallyAfterArrival(cache, front, key);
      assert patches[1..][..|patches| - 2] == front[1..];
    }
  }

  lemma {:induction false} EventuallyUntouched(cache: Metadata, patches: seq<Patch>, key: string)
    requires forall i :: 0 <= i < |patches| ==> patches[i].key != key
    ensures Eventually(cache, patches, key) == Lookup(cache, key)
    decreases |patches|
  {
    if patches != [] { EventuallyUntouched(cache, patches[..|patches| - 1], key); }
  }

  // ----- the invariant -----

  /** The patch was pushed no later than the key's pending entry and is still young. */
  predicate Covered(pending: map<string, Pending>, p: Patch, now: int) {
    p.key in pending && p.at <= pending[p.key].addedAt && p.at <= now && now - p.at < PENDING_TTL
  }

  predicate EntryAgrees(goal: Contents, key: string, value: Blob) {
    match value
    case Nil => key !in goal
    case Bytes(data) => key in goal && goal[key] == Encode(data)
  }

  ghost predicate Good(w: World) {
    && (forall i :: 0 <= i < |w.overlay.patches| ==> Covered(w.overlay.pending, w.overlay.patches[i], w.now))
    && (forall k :: k in w.overlay.pending ==>
          w.overlay.pending[k].addedAt <= w.now && EntryAgrees(w.goal, k, w.overlay.pending[k].value))
    && (forall k :: Eventually(w.overlay.cache, w.overlay.patches, k) == Wanted(w.goal, k))
  }

  lemma PushKeepsGood(w: World, after: World, key: string, value: Blob, text: Option<string>)
    requires Good(w) && after.now == w.now
    requires after.overlay == Pushed(w.overlay, key, value, text, w.now)
    requires EntryAgrees(after.goal, key, value) && Wanted(after.goal, key) == text
    requires forall k :: k != key ==> Wanted(after.goal, k) == Wanted(w.goal, k)
    ensures Good(after)
  {
    var o := after.overlay;
    forall k ensures Eventually(o.cache, o.patches, k) == Wanted(after.goal, k) {
      assert o.patches[..|o.patches| - 1] == w.overlay.patches;
    }
    forall k | k in o.pending
      ensures o.pending[k].addedAt <= after.now && EntryAgrees(after.goal, k, o.pending[k].value)
    {
      if k != key {
        assert Wanted(after.goal, k) == Wanted(w.goal, k);
        assert EntryAgrees(w.goal, k, w.overlay.pending[k].value);
      }
    }
    forall i | 0 <= i < |o.patches| ensures Covered(o.pending, o.patches[i], after.now) {
      if i < |o.patches| - 1 { assert Covered(w.overlay.pending, w.overlay.patches[i], w.now); }
    }
  }

  lemma ArrivalKeepsGood(w: World)
    requires Good(w) && w.overlay.patches != []
    ensures Good(Happens(w, Arrive))
  {
    var o, t := w.overlay, Happens(w, Arrive);
    forall k ensures Eventually(t.overlay.cache, t.overlay.patches, k) == Wanted(t.goal, k) {
      EventuallyAfterArrival(o.cache, o.patches, k);
    }
    forall i | 0 <= i < |t.overlay.patches| ensures Covered(t.overlay.pending, t.overlay.patches[i], t.now) {
      assert t.overlay.patches[i] == o.patches[i + 1];
    }
  }

  /** Every value written is an actual slice: Set with nil is a different story, see SetReadsBackIff. */
  predicate NonNil(e: Event) { e.Set? ==> e.value.Bytes? }

  lemma EventKeepsGood(w: World, e: Event)
    requires Good(w) && Possible(w, e) && Timely(w, e) && NonNil(e)
    ensures Good(Happens(w, e))
  {
    match e
    case Set(key, value) => PushKeepsGood(w, Happens(w, e), key, value, Some(TextOf(value)));
    case Delete(key) => PushKeepsGood(w, Happens(w, e), key, Nil, None);
    case Arrive => ArrivalKeepsGood(w);
    case Pass(later) =>
  }

  /** In a good state a read of any key is a read of the plain map. */
  lemma GoodReads(w: World, key: string)
    requires Good(w)
    ensures Read(w.overlay.pending, w.overlay.cache, key, w.now) == ReadText(Wanted(w.goal, key))
  {
    var o := w.overlay;
    match Live(o.pending, key, w.now)
    case Some(Nil) =>
    case Some(Bytes(data)) => DecodeOfEncode(data);
    case None =>
      forall i | 0 <= i < |o.patches| ensures o.patches[i].key != key {
        assert Covered(o.pending, o.patches[i], w.now);
      }
      EventuallyUntouched(o.cache, o.patches, key);
      assert Eventually(o.cache, o.patches, key) == Wanted(w.goal, key);
  }

  // ----- runs -----

  /** Any interleaving of writes, arrivals and time. */
  ghost predicate IsTrace(trace: seq<World>, events: seq<Event>) {
    && |trace| == |events| + 1
    && (forall i :: 0 <= i < |events| ==>
          Possible(trace[i], events[i]) && trace[i + 1] == Happens(trace[i], events[i]))
  }

  ghost predicate IsHistory(trace: seq<World>, events: seq<Event>) {
    && IsTrace(trace, events)
    && (forall i :: 0 <= i < |events| ==> NonNil(events[i]) && Timely(trace[i], events[i]))
  }

  /** Nothing written locally yet: the plain map is what the cache holds. */
  ghost predicate Fresh(w: World) {
    && w.overlay.pending == map[] && w.overlay.patches == []
    && (forall k :: Lookup(w.overlay.cache, k) == Wanted(w.goal, k))
  }

  /**
   * The store refines a plain map: over any history of writes, arrivals and expiries, every Get
   * at every moment answers as the plain map of the last local writes does.
   */
  lemma {:induction false} StoreRefinesMap(trace: seq<World>, events: seq<Event>, n: nat, key: string)
    requires IsHistory(trace, events) && Fresh(trace[0]) && n < |trace|
    ensures Good(trace[n])
    ensures var w := trace[n];
      Read(w.overlay.pending, w.overlay.cache, key, w.now) == ReadText(Wanted(w.goal, key))
    decreases n
  {
    if n > 0 {
      StoreRefinesMap(trace, events, n - 1, key);
      EventKeepsGood(trace[n - 1], events[n - 1]);
    }
    GoodReads(trace[n], key);
  }

  /** The value last set is the value read, byte for byte. */
  lemma ReadBack(w: World, key: string, data: seq<Byte>)
    requires Good(w) && Wanted(w.goal, key) == Some(Encode(data))
    ensures Read(w.overlay.pending, w.overlay.cache, key, w.now) == Present(data)
  {
    GoodReads(w, key);
    DecodeOfEncode(data);
  }

  /**
   * A read right after Set is the plain map's reading exactly when the value is not nil: Set with
   * nil writes a tombstone over a patch that sets the empty text.
   */
  lemma SetReadsBackIff(w: World, key: string, value: Blob)
    ensures var after := Happens(w, Set(key, value));
      Read(after.overlay.pending, after.overlay.cache, key, after.now) == ReadText(Wanted(after.goal, key))
      <==> value.Bytes?
  {
    match value
    case Nil => DecodeOfEncode([]);
    case Bytes(data) => DecodeOfEncode(data);
  }

  /**
   * The key that was set to nil comes back as the empty value once the patches have arrived, any
   * number of earlier ones among them, and the tombstone has expired.
   */
  lemma NilReappears(w: World, key: string, later: int)
    requires later >= w.now + PENDING_TTL
    ensures var o := Happens(w, Set(key, Nil)).overlay;
      && Read(o.pending, o.cache, key, w.now) == Absent
      && Read(o.pending, ApplyAll(o.cache, o.patches), key, later) == Present([])
  {
    var p := Patch(key, Some(""), w.now);
    ApplyAllMore(w.overlay.cache, w.overlay.patches, p);
    LookupAfterPatch(ApplyAll(w.overlay.cache, w.overlay.patches), p, key);
    DecodeOfEncode([]);
  }

  /** A write shows for five seconds, whatever the cache says, and then what the cache says shows. */
  lemma WritesShadowForFiveSeconds(w: World, key: string, data: seq<Byte>, cache: Metadata, later: int)
    requires w.now <= later
    ensures var o := Happens(w, Set(key, Bytes(data))).overlay;
      && (later < w.now + 5 ==> Read(o.pending, cache, key, later) == Present(data))
      && (later >= w.now + 5 && "_state/" + key !in cache ==> Read(o.pending, cache, key, later) == Absent)
      && (later >= w.now + 5 && "_state/" + key in cache ==>
            Read(o.pending, cache, key, later) == match Decode(cache["_state/" + key])
                                                  case Some(shown) => Present(shown)
                                                  case None => Unreadable)
  {
  }

  // ----- listing -----

  /** The user keys that List gathers before sorting. */
  ghost predicate Gathered(pending: map<string, Pending>, cache: Metadata, prefix: string, now: int, k: string) {
    HasPrefix(k, prefix) &&
    match Live(pending, k, now)
    case Some(b) => b.Bytes?
    case None => StateKey(k) in cache
  }

  /** List's keys are exactly those under the prefix that Get reports present, readable or not. */
  lemma ListedIsPresent(pending: map<string, Pending>, cache: Metadata, prefix: string, now: int, k: string)
    ensures Gathered(pending, cache, prefix, now, k)
       <==> HasPrefix(k, prefix) && Read(pending, cache, k, now) != Absent
  {
  }

  /** In a good state List gathers exactly the plain map's keys under the prefix. */
  lemma ListedIsWanted(w: World, prefix: string, k: string)
    requires Good(w)
    ensures Gathered(w.overlay.pending, w.overlay.cache, prefix, w.now, k)
       <==> HasPrefix(k, prefix) && k in w.goal
  {
    ListedIsPresent(w.overlay.pending, w.overlay.cache, prefix, w.now, k);
    GoodReads(w, k);
  }

  // ----- the cap over a history -----

  lemma {:induction false} ApplyAllFirst(meta: Metadata, patches: seq<Patch>)
    requires patches != []
    ensures ApplyAll(ApplyPatch(meta, patches[0]), patches[1..]) == ApplyAll(meta, patches)
    decreases |patches|
  {
    if |patches| == 1 {
      assert patches == [] + [patches[0]];
      ApplyAllMore(meta, [], patches[0]);
    } else {
      var front := patches[..|patches| - 1];
      ApplyAllFirst(meta, front);
      assert patches[1..][..|patches| - 2] == front[1..];
    }
  }

  lemma ArrivalStaysWithinCap(meta: Metadata, patches: seq<Patch>)
    requires patches != [] && StaysWithinCap(meta, patches)
    ensures StaysWithinCap(ApplyPatch(meta, patches[0]), patches[1..])
  {
    forall n | 0 <= n < |patches|
      ensures SizeOf(ApplyAll(ApplyPatch(meta, patches[0]), patches[1..][..n])) <= MAX_STATE_BYTES
    {
      ApplyAllFirst(meta, patches[..n + 1]);
      assert patches[..n + 1][1..] == patches[1..][..n];
    }
  }

  /** The guard accepted the Set, and there was room for whatever it would accept. */
  ghost predicate Guarded(w: World, e: Event) {
    e.Set? ==>
      var shadow := Live(w.overlay.pending, e.key, w.now);
      && Room(w.overlay.cache, w.overlay.patches, shadow, e.key)
      && Accepted(w.overlay.cache, shadow, e.key, e.value)
  }

  /**
   * The cap holds at every moment, whatever is written and however late patches arrive, when each
   * Set was accepted with room; by AcceptedSetsFitIff nothing less is enough for a Set to be safe.
   */
  lemma {:induction false} CapHolds(trace: seq<World>, events: seq<Event>, n: nat)
    requires IsTrace(trace, events) && n < |trace|
    requires StaysWithinCap(trace[0].overlay.cache, trace[0].overlay.patches)
    requires forall i :: 0 <= i < |events| ==> Guarded(trace[i], events[i])
    ensures StaysWithinCap(trace[n].overlay.cache, trace[n].overlay.patches)
    ensures SizeOf(trace[n].overlay.cache) <= MAX_STATE_BYTES
    decreases n
  {
    if n > 0 {
      CapHolds(trace, events, n - 1);
      var w, o := trace[n - 1], trace[n - 1].overlay;
      assert Guarded(w, events[n - 1]);
      match events[n - 1]
      case Set(key, value) => AcceptedSetStays(o.cache, o.patches, Live(o.pending, key, w.now), key, value, w.now);
      case Delete(key) => DeleteFits(o.cache, o.patches, key, w.now);
      case Arrive => ArrivalStaysWithinCap(o.cache, o.patches);
      case Pass(_) =>
    }
    assert ApplyAll(trace[n].overlay.cache, trace[n].overlay.patches[..0]) == trace[n].overlay.cache;
  }

  /** The guard accepted the Set over a cache that lagged by deletes and patches of the same key at most. */
  ghost predicate KeptUp(w: World, e: Event) {
    e.Set? ==>
      && OnlyLagsBehind(w.overlay.patches, e.key)
      && Accepted(w.overlay.cache, Live(w.overlay.pending, e.key, w.now), e.key, e.value)
  }

  /**
   * So the guard alone keeps the cap over every history of Sets and Deletes in which no Set of
   * another key is still on its way when a Set is accepted.
   */
  lemma CapHoldsWhenKeptUp(trace: seq<World>, events: seq<Event>, n: nat)
    requires IsTrace(trace, events) && n < |trace|
    requires StaysWithinCap(trace[0].overlay.cache, trace[0].overlay.patches)
    requires forall i :: 0 <= i < |events| ==> KeptUp(trace[i], events[i])
    ensures StaysWithinCap(trace[n].overlay.cache, trace[n].overlay.patches)
    ensures SizeOf(trace[n].overlay.cache) <= MAX_STATE_BYTES
  {
    forall i | 0 <= i < |events| ensures Guarded(trace[i], events[i]) {
      var w, e := trace[i], events[i];
      assert KeptUp(w, e);
      if e.Set? {
        LaggingLeavesRoom(w.overlay.cache, w.overlay.patches, Live(w.overlay.pending, e.key, w.now), e.key);
      }
    }
    CapHolds(trace, events, n);
  }
}
