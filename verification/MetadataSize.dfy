/** How pkg/state/metadata.go measures the `_state/` part of a node's metadata. */
module MetadataSize {
  import opened Text
  import opened Base64

  const KEY_PREFIX := "_state/"
  const MAX_STATE_BYTES: int := 900 * 1024

  type Metadata = map<string, string>

  /** A Go byte slice; the nil slice is not the empty one. */
  datatype Blob = Nil | Bytes(data: seq<Byte>)

  function TextOf(b: Blob): string { if b.Nil? then "" else Encode(b.data) }

  function StateKey(key: string): string { KEY_PREFIX + key }

  lemma StateKeyInjective(a: string, b: string)
    requires StateKey(a) == StateKey(b)
    ensures a == b
  {
    assert StateKey(a)[|KEY_PREFIX|..] == a && StateKey(b)[|KEY_PREFIX|..] == b;
  }

  lemma StateKeyPrefixed(key: string)
    ensures HasPrefix(StateKey(key), KEY_PREFIX)
  {
  }

  function Weight(k: string, v: string): nat { if HasPrefix(k, KEY_PREFIX) then |k| + |v| else 0 }

  /** Bytes of all `_state/` keys and values. */
  ghost function SizeOf(meta: Metadata): nat
    decreases |meta|
  {
    if meta == map[] then 0
    else
      var k :| k in meta;
      Weight(k, meta[k]) + SizeOf(meta - {k})
  }

  lemma {:induction false} SizeRemove(meta: Metadata, k: string)
    requires k in meta
    ensures SizeOf(meta) == Weight(k, meta[k]) + SizeOf(meta - {k})
    decreases |meta|
  {
    var first :| first in meta && SizeOf(meta) == Weight(first, meta[first]) + SizeOf(meta - {first});
    if first != k {
      SizeRemove(meta - {first}, k);
      SizeRemove(meta - {k}, first);
      assert meta - {first} - {k} == meta - {k} - {first};
    }
  }

  lemma SizePut(meta: Metadata, k: string, v: string)
    ensures SizeOf(meta[k := v]) == Weight(k, v) + SizeOf(meta - {k})
  {
    SizeRemove(meta[k := v], k);
    assert meta[k := v] - {k} == meta - {k};
  }

  lemma SizeDrop(meta: Metadata, k: string)
    ensures SizeOf(meta - {k}) <= SizeOf(meta)
  {
    if k in meta {
      SizeRemove(meta, k);
    } else {
      assert meta - {k} == meta;
    }
  }

  /**
   * When the guard counts the key itself twice: the stored text is empty, or it is not
   * while a live pending write of the empty value shadows it.
   */
  predicate CountsKeyTwice(meta: Metadata, fullKey: string, shadow: Option<Blob>) {
    fullKey in meta && (meta[fullKey] == "" || shadow == Some(Bytes([])))
  }

  /** The guard's total: the size with the key replaced, or that plus the key once more. */
  ghost function GuardTotal(meta: Metadata, fullKey: string, shadow: Option<Blob>, newText: string): nat {
    SizeOf(meta[fullKey := newText]) + (if CountsKeyTwice(meta, fullKey, shadow) then |fullKey| else 0)
  }

  /** Only keys that start with `_state/` count. */
  lemma ForeignKeysDoNotCount(meta: Metadata, k: string, v: string)
    requires |k| < 7 || k[..7] != "_state/"
    ensures SizeOf(meta[k := v]) == SizeOf(meta)
  {
    SizePut(meta, k, v);
    if k in meta {
      SizeRemove(meta, k);
    } else {
      assert meta - {k} == meta;
    }
  }

  /** A live non-empty pending write on the key changes nothing. */
  lemma ShadowDoesNotMatter(meta: Metadata, fullKey: string, b: Blob, newText: string)
    requires b != Bytes([])
    ensures GuardTotal(meta, fullKey, Some(b), newText) == GuardTotal(meta, fullKey, None, newText)
  {
  }

  // ----- patches that are still on their way -----

  /** A queued updater: sets or deletes one state key when it reaches the metadata. */
  datatype Patch = Patch(key: string, text: Option<string>, at: int)

  function ApplyPatch(meta: Metadata, p: Patch): Metadata {
    if p.text.Some? then meta[StateKey(p.key) := p.text.value] else meta - {StateKey(p.key)}
  }

  function ApplyAll(meta: Metadata, patches: seq<Patch>): Metadata
    decreases |patches|
  {
    if patches == [] then meta else ApplyPatch(ApplyAll(meta, patches[..|patches| - 1]), patches[|patches| - 1])
  }

  /** Whatever the metadata is by the time it has seen any number of the patches, it fits the cap. */
  ghost predicate StaysWithinCap(meta: Metadata, patches: seq<Patch>) {
    forall n :: 0 <= n <= |patches| ==> SizeOf(ApplyAll(meta, patches[..n])) <= MAX_STATE_BYTES
  }

  /** Every patch on its way is a delete, or concerns this key anyway. */
  predicate OnlyLagsBehind(patches: seq<Patch>, key: string) {
    forall p <- patches :: p.text.None? || p.key == key
  }

  lemma {:induction false} LaggingSizeIsEnough(meta: Metadata, patches: seq<Patch>, key: string, text: string)
    requires OnlyLagsBehind(patches, key)
    ensures SizeOf(ApplyAll(meta, patches)[StateKey(key) := text]) <= SizeOf(meta[StateKey(key) := text])
    decreases |patches|
  {
    if patches != [] {
      var front, last := patches[..|patches| - 1], patches[|patches| - 1];
      LaggingSizeIsEnough(meta, front, key, text);
      OnePatchLess(ApplyAll(meta, front), last, key, text);
    }
  }

  lemma OnePatchLess(meta: Metadata, p: Patch, key: string, text: string)
    requires p.text.None? || p.key == key
    ensures SizeOf(ApplyPatch(meta, p)[StateKey(key) := text]) <= SizeOf(meta[StateKey(key) := text])
  {
    if p.key == key {
      assert ApplyPatch(meta, p)[StateKey(key) := text] == meta[StateKey(key) := text];
    } else {
      if StateKey(p.key) == StateKey(key) { StateKeyInjective(p.key, key); }
      assert ApplyPatch(meta, p)[StateKey(key) := text] == meta[StateKey(key) := text] - {StateKey(p.key)};
      SizeDrop(meta[StateKey(key) := text], StateKey(p.key));
    }
  }

  lemma ApplyAllMore(meta: Metadata, patches: seq<Patch>, p: Patch)
    ensures ApplyAll(meta, patches + [p]) == ApplyPatch(ApplyAll(meta, patches), p)
  {
    assert (patches + [p])[..|patches|] == patches;
  }

  lemma OneMoreWithinCap(meta: Metadata, patches: seq<Patch>, p: Patch)
    requires StaysWithinCap(meta, patches)
    requires SizeOf(ApplyPatch(ApplyAll(meta, patches), p)) <= MAX_STATE_BYTES
    ensures StaysWithinCap(meta, patches + [p])
  {
    ApplyAllMore(meta, patches, p);
    var all := patches + [p];
    forall n | 0 <= n <= |all| ensures SizeOf(ApplyAll(meta, all[..n])) <= MAX_STATE_BYTES {
      if n <= |patches| {
        assert all[..n] == patches[..n];
      } else {
        assert all[..n] == all;
      }
    }
  }

  /** What the guard counts besides the new text. */
  ghost function Counted(meta: Metadata, fullKey: string, shadow: Option<Blob>): nat {
    SizeOf(meta - {fullKey}) + |fullKey| + (if CountsKeyTwice(meta, fullKey, shadow) then |fullKey| else 0)
  }

  /** What there will be besides the new text once the patches on their way have arrived. */
  ghost function Arriving(meta: Metadata, patches: seq<Patch>, fullKey: string): nat {
    SizeOf(ApplyAll(meta, patches) - {fullKey}) + |fullKey|
  }

  /**
   * The longest text that the guard lets through still fits when everything has arrived. Texts come
   * in steps of four characters; where not even the empty one passes, nothing can go wrong.
   */
  ghost predicate Room(meta: Metadata, patches: seq<Patch>, shadow: Option<Blob>, key: string) {
    var counted := Counted(meta, StateKey(key), shadow);
    counted > MAX_STATE_BYTES
    || Arriving(meta, patches, StateKey(key)) + 4 * ((MAX_STATE_BYTES - counted) / 4) <= MAX_STATE_BYTES
  }

  ghost predicate Accepted(meta: Metadata, shadow: Option<Blob>, key: string, b: Blob) {
    GuardTotal(meta, StateKey(key), shadow, TextOf(b)) <= MAX_STATE_BYTES
  }

  ghost predicate EndsWithinCap(meta: Metadata, patches: seq<Patch>, key: string, b: Blob, now: int) {
    SizeOf(ApplyAll(meta, patches + [Patch(key, Some(TextOf(b)), now)])) <= MAX_STATE_BYTES
  }

  lemma TotalsOfSet(meta: Metadata, patches: seq<Patch>, shadow: Option<Blob>, key: string, b: Blob, now: int)
    ensures Accepted(meta, shadow, key, b)
       <==> Counted(meta, StateKey(key), shadow) + |TextOf(b)| <= MAX_STATE_BYTES
    ensures EndsWithinCap(meta, patches, key, b, now)
       <==> Arriving(meta, patches, StateKey(key)) + |TextOf(b)| <= MAX_STATE_BYTES
    ensures |TextOf(b)| % 4 == 0
  {
    ApplyAllMore(meta, patches, Patch(key, Some(TextOf(b)), now));
    StateKeyPrefixed(key);
    SizePut(meta, StateKey(key), TextOf(b));
    SizePut(ApplyAll(meta, patches), StateKey(key), TextOf(b));
  }

  /** For every multiple of four there is a value with a text of that length. */
  lemma TextOfLength(quads: nat) returns (b: Blob)
    ensures |TextOf(b)| == 4 * quads
  {
    b := Bytes(seq(3 * quads, _ => 0));
  }

  lemma WholeQuads(n: nat, left: int)
    requires n % 4 == 0 && n <= left
    ensures n <= 4 * (left / 4)
  {
  }

  lemma RoomIsEnough(meta: Metadata, patches: seq<Patch>, shadow: Option<Blob>, key: string, b: Blob, now: int)
    requires Room(meta, patches, shadow, key) && Accepted(meta, shadow, key, b)
    ensures EndsWithinCap(meta, patches, key, b, now)
  {
    TotalsOfSet(meta, patches, shadow, key, b, now);
    WholeQuads(|TextOf(b)|, MAX_STATE_BYTES - Counted(meta, StateKey(key), shadow));
  }

  lemma NoRoomIsNot(meta: Metadata, patches: seq<Patch>, shadow: Option<Blob>, key: string, now: int) returns (b: Blob)
    requires !Room(meta, patches, shadow, key)
    ensures Accepted(meta, shadow, key, b) && !EndsWithinCap(meta, patches, key, b, now)
  {
    b := TextOfLength((MAX_STATE_BYTES - Counted(meta, StateKey(key), shadow)) / 4);
    TotalsOfSet(meta, patches, shadow, key, b, now);
  }

  /**
   * Whatever is on its way to a lagging cache: every value that the guard accepts for the key ends
   * within the cap exactly when there is room.
   */
  lemma AcceptedSetsFitIff(meta: Metadata, patches: seq<Patch>, shadow: Option<Blob>, key: string, now: int)
    ensures (forall b: Blob :: Accepted(meta, shadow, key, b) ==> EndsWithinCap(meta, patches, key, b, now))
       <==> Room(meta, patches, shadow, key)
  {
    if Room(meta, patches, shadow, key) {
      forall b: Blob | Accepted(meta, shadow, key, b) ensures EndsWithinCap(meta, patches, key, b, now) {
        RoomIsEnough(meta, patches, shadow, key, b, now);
      }
    } else {
      var b := NoRoomIsNot(meta, patches, shadow, key, now);
    }
  }

  /** The first value is accepted exactly when its key and text come to no more than 900 kibibytes. */
  lemma FirstValueAcceptedIff(key: string, data: seq<Byte>)
    ensures Accepted(map[], None, key, Bytes(data)) <==> 7 + |key| + 4 * ((|data| + 2) / 3) <= 921600
  {
    TotalsOfSet(map[], [], None, key, Bytes(data), 0);
    var none: Metadata := map[];
    assert none - {StateKey(key)} == none;
  }

  /** A Set accepted with room keeps every later state of the metadata within the cap. */
  lemma AcceptedSetStays(meta: Metadata, patches: seq<Patch>, shadow: Option<Blob>, key: string, b: Blob, now: int)
    requires StaysWithinCap(meta, patches) && Room(meta, patches, shadow, key) && Accepted(meta, shadow, key, b)
    ensures StaysWithinCap(meta, patches + [Patch(key, Some(TextOf(b)), now)])
  {
    RoomIsEnough(meta, patches, shadow, key, b, now);
    ApplyAllMore(meta, patches, Patch(key, Some(TextOf(b)), now));
    OneMoreWithinCap(meta, patches, Patch(key, Some(TextOf(b)), now));
  }

  /** A cache that lags by nothing but deletes and patches of the same key leaves room. */
  lemma LaggingLeavesRoom(meta: Metadata, patches: seq<Patch>, shadow: Option<Blob>, key: string)
    requires OnlyLagsBehind(patches, key)
    ensures Room(meta, patches, shadow, key)
  {
    var fullKey := StateKey(key);
    LaggingSizeIsEnough(meta, patches, key, "");
    StateKeyPrefixed(key);
    SizePut(meta, fullKey, "");
    SizePut(ApplyAll(meta, patches), fullKey, "");
  }

  /**
   * In particular a Set that the guard accepts keeps the metadata within the cap when only deletes
   * and patches of the same key are on their way; a cache that has caught up is the simplest case.
   */
  lemma AcceptedSetFits(meta: Metadata, patches: seq<Patch>, shadow: Option<Blob>, key: string, b: Blob, now: int)
    requires StaysWithinCap(meta, patches) && OnlyLagsBehind(patches, key)
    requires Accepted(meta, shadow, key, b)
    ensures StaysWithinCap(meta, patches + [Patch(key, Some(TextOf(b)), now)])
  {
    LaggingLeavesRoom(meta, patches, shadow, key);
    AcceptedSetStays(meta, patches, shadow, key, b, now);
  }

  /** A Delete always fits. */
  lemma DeleteFits(meta: Metadata, patches: seq<Patch>, key: string, now: int)
    requires StaysWithinCap(meta, patches)
    ensures StaysWithinCap(meta, patches + [Patch(key, None, now)])
  {
    assert patches[..|patches|] == patches;
    SizeDrop(ApplyAll(meta, patches), StateKey(key));
    OneMoreWithinCap(meta, patches, Patch(key, None, now));
  }

  lemma SizeOfOne(k: string, v: string)
    ensures SizeOf(map[][k := v]) == Weight(k, v)
    ensures SizeOf(map[]) == 0
  {
    var none: Metadata := map[];
    SizePut(none, k, v);
    assert none - {k} == none;
  }

  /**
   * The double count refuses values that fit: for every key that can be set at all, once its empty
   * value is stored there is a value that would end within the cap and that the guard refuses.
   */
  lemma StoredEmptyTextRefuses(key: string) returns (b: Blob)
    requires |StateKey(key)| <= MAX_STATE_BYTES
    ensures var meta := map[StateKey(key) := TextOf(Bytes([]))];
      && CountsKeyTwice(meta, StateKey(key), None)
      && EndsWithinCap(meta, [], key, b, 0) && !Accepted(meta, None, key, b)
  {
    var meta: Metadata := map[StateKey(key) := TextOf(Bytes([]))];
    b := TextOfLength((MAX_STATE_BYTES - |StateKey(key)|) / 4);
    TotalsOfSet(meta, [], None, key, b, 0);
    assert meta - {StateKey(key)} == map[];
    SizeOfOne(StateKey(key), "");
  }

  /**
   * Room runs out with one patch of another key: over an empty cache, a queued Set of `x` leaves no
   * room for `y` exactly when x's entry, and y's key with the longest text that passes alone, do not
   * fit together.
   */
  lemma QueuedSetLeavesRoomIff(x: string, v: string, y: string, at: int)
    requires x != y
    ensures var longest := 4 * ((MAX_STATE_BYTES - |StateKey(y)|) / 4);
      Room(map[], [Patch(x, Some(v), at)], None, y)
      <==> |StateKey(y)| > MAX_STATE_BYTES || |StateKey(x)| + |v| + |StateKey(y)| + longest <= MAX_STATE_BYTES
  {
    var none: Metadata := map[];
    var p := Patch(x, Some(v), at);
    ApplyAllMore(none, [], p);
    assert [] + [p] == [p];
    if StateKey(x) == StateKey(y) { StateKeyInjective(x, y); }
    StateKeyPrefixed(x);
    SizeOfOne(StateKey(x), v);
    assert ApplyAll(none, [p]) - {StateKey(y)} == none[StateKey(x) := v];
    assert none - {StateKey(y)} == none;
  }

  /**
   * So two Sets of different keys over an empty lagging cache are never safe: whenever each key can be
   * set at all, there are values that are accepted for each and exceed the cap together.
   */
  lemma TwoLaggingSetsExceed(x: string, y: string) returns (a: Blob, b: Blob)
    requires x != y && |StateKey(x)| <= MAX_STATE_BYTES && |StateKey(y)| <= MAX_STATE_BYTES
    ensures Accepted(map[], None, x, a) && Accepted(map[], None, y, b)
    ensures !EndsWithinCap(map[], [Patch(x, Some(TextOf(a)), 0)], y, b, 0)
  {
    var none: Metadata := map[];
    a := TextOfLength((MAX_STATE_BYTES - |StateKey(x)|) / 4);
    b := Bytes([]);
    var p := Patch(x, Some(TextOf(a)), 0);
    SizeOfOne(StateKey(x), TextOf(a));
    assert none - {StateKey(x)} == none - {StateKey(y)} == none;
    TotalsOfSet(none, [], None, x, a, 0);
    TotalsOfSet(none, [p], None, y, b, 0);
    ApplyAllMore(none, [], p);
    assert [] + [p] == [p];
    if StateKey(x) == StateKey(y) { StateKeyInjective(x, y); }
    StateKeyPrefixed(x);
    assert ApplyAll(none, [p]) - {StateKey(y)} == none[StateKey(x) := TextOf(a)];
  }
}
