/** The metadata-backed state store as it runs (pkg/state/metadata.go). */
module MetadataState {
  import opened Text
  import opened Base64
  import opened SortedKeys
  import opened MetadataSize
  import opened MetadataView

  /** The node as the watch has shown it so far. */
  class NodeCache {
    var metadata: Metadata

    constructor (metadata: Metadata)
      ensures this.metadata == metadata
    {
      this.metadata := metadata;
    }
  }

  /** The reconcile port: updaters in the order in which they were emitted. */
  class ReconcilePort {
    var patches: seq<Patch>

    constructor ()
      ensures patches == []
    {
      patches := [];
    }
  }

  class Store {
    // Either may be missing: a store without a reader or without a port.
    const reader: NodeCache?
    const emit: ReconcilePort?
    var pending: map<string, Pending>

    constructor (reader: NodeCache?, emit: ReconcilePort?)
      ensures pending == map[] && this.reader == reader && this.emit == emit
    {
      this.reader := reader;
      this.emit := emit;
      pending := map[];
    }

    /** What the store can see; without a reader the cache is empty. */
    ghost function Cache(): Metadata
      reads reader
    {
      if reader == null then map[] else reader.metadata
    }

    ghost function At(): Overlay
      reads this, reader, emit
    {
      Overlay(pending, Cache(), if emit == null then [] else emit.patches)
    }

    /** None when the reader fails. */
    method Get(key: string, now: int, readFails: bool) returns (r: Option<Reading>)
      ensures r == if Live(pending, key, now).None? && reader != null && readFails then None
                   else Some(Read(pending, Cache(), key, now))
    {
      if key in pending && now - pending[key].addedAt < PENDING_TTL {
        var value := pending[key].value;
        return Some(if value.Nil? then Absent else Present(value.data));
      }
      if reader == null {
        return Some(Absent);
      }
      if readFails {
        return None;
      }
      if StateKey(key) !in reader.metadata {
        return Some(Absent);
      }
      var decoded := Decode(reader.metadata[StateKey(key)]);
      r := Some(if decoded.None? then Unreadable else Present(decoded.value));
    }

    /** The loop of guardSize over the node's metadata. */
    method MeasureState(meta: Metadata, fullKey: string) returns (current: nat, existing: string)
      ensures current == SizeOf(meta)
      ensures existing == if fullKey in meta && HasPrefix(fullKey, KEY_PREFIX) then meta[fullKey] else ""
    {
      current, existing := 0, "";
      var rest := meta;
      while rest != map[]
        invariant forall k :: k in rest ==> k in meta && rest[k] == meta[k]
        invariant current + SizeOf(rest) == SizeOf(meta)
        invariant existing == if fullKey in meta && fullKey !in rest && HasPrefix(fullKey, KEY_PREFIX)
                              then meta[fullKey] else ""
        decreases |rest|
      {
        var k :| k in rest;
        SizeRemove(rest, k);
        if HasPrefix(k, KEY_PREFIX) {
          current := current + |k| + |rest[k]|;
          if k == fullKey {
            existing := rest[k];
          }
        }
        rest := rest - {k};
      }
    }

    /**
     * Accepts a write exactly when its total fits. The total is the size of the metadata with the
     * key replaced, plus the key once more in the two cases that CountsKeyTwice names.
     */
    method GuardSize(key: string, newText: string, now: int, readFails: bool) returns (ok: bool)
      ensures ok <==> (
        reader == null || readFails ||
        GuardTotal(Cache(), StateKey(key), Live(pending, key, now), newText) <= MAX_STATE_BYTES)
    {
      if reader == null || readFails {
        return true;
      }
      var fullKey := StateKey(key);
      StateKeyPrefixed(key);
      var meta := reader.metadata;
      var current: int, existing := MeasureState(meta, fullKey);
      var entry := Live(pending, key, now);
      if entry.Some? && entry.value.Bytes? {
        var pendingText := TextOf(entry.value);
        if existing != pendingText {
          current := current - |existing| + |pendingText|;
          if existing == "" {
            current := current + |fullKey|;
          }
          existing := pendingText;
        }
      }
      var delta := if existing == "" then |fullKey| + |newText| else |newText| - |existing|;
      GuardArithmetic(meta, fullKey, entry, newText);
      ok := current + delta <= MAX_STATE_BYTES;
    }

    /** Set: refused, or a pending entry at once and a patch on its way. */
    method Set(key: string, value: Blob, now: int, readFails: bool) returns (ok: bool)
      modifies this`pending, emit
      ensures ok <==> (
        reader == null || readFails ||
        GuardTotal(Cache(), StateKey(key), Live(old(pending), key, now), TextOf(value)) <= MAX_STATE_BYTES)
      ensures !ok ==> At() == old(At())
      ensures ok && emit != null ==> At() == Pushed(old(At()), key, value, Some(TextOf(value)), now)
      ensures ok && emit == null ==> At() == old(At()).(pending := old(pending)[key := Pending(value, now)])
    {
      var encoded := TextOf(value);
      ok := GuardSize(key, encoded, now, readFails);
      if !ok {
        return;
      }
      pending := pending[key := Pending(value, now)];
      if emit == null {
        return;
      }
      emit.patches := emit.patches + [Patch(key, Some(encoded), now)];
    }

    method Delete(key: string, now: int)
      modifies this`pending, emit
      ensures emit != null ==> At() == Pushed(old(At()), key, Nil, None, now)
      ensures emit == null ==> At() == old(At()).(pending := old(pending)[key := Pending(Nil, now)])
    {
      pending := pending[key := Pending(Nil, now)];
      if emit == null {
        return;
      }
      emit.patches := emit.patches + [Patch(key, None, now)];
    }

    /** The cached keys under the prefix, without the internal one. */
    method CachedKeys(prefix: string) returns (keys: set<string>)
      ensures forall k :: k in keys <==> HasPrefix(k, prefix) && StateKey(k) in Cache()
    {
      keys := {};
      if reader == null {
        return;
      }
      var fullPrefix := StateKey(prefix);
      var rest := reader.metadata.Keys;
      while rest != {}
        invariant rest <= reader.metadata.Keys
        invariant forall k :: k in keys <==>
          HasPrefix(k, prefix) && StateKey(k) in reader.metadata && StateKey(k) !in rest
        decreases |rest|
      {
        var k :| k in rest;
        StripPrefix(k, prefix);
        if HasPrefix(k, fullPrefix) {
          keys := keys + {k[|KEY_PREFIX|..]};
        }
        rest := rest - {k};
      }
    }

    /** Sorted and duplicate-free, the keys under the prefix that Get reports present. */
    method List(prefix: string, now: int, readFails: bool) returns (out: Option<seq<string>>)
      ensures out.None? <==> reader != null && readFails
      ensures out.Some? ==> exists keys: set<string> ::
        && Lists(out.value, keys)
        && forall k :: k in keys <==> HasPrefix(k, prefix) && Read(pending, Cache(), k, now) != Absent
    {
      if reader != null && readFails {
        return None;
      }
      var cached := CachedKeys(prefix);
      var keys := cached;
      var rest := pending.Keys;
      while rest != {}
        invariant rest <= pending.Keys
        invariant forall k :: k in keys <==>
          if k in rest then k in cached else Gathered(pending, Cache(), prefix, now, k)
        decreases |rest|
      {
        var k :| k in rest;
        if HasPrefix(k, prefix) && now - pending[k].addedAt < PENDING_TTL {
          if pending[k].value.Nil? {
            keys := keys - {k};
          } else {
            keys := keys + {k};
          }
        }
        rest := rest - {k};
      }
      forall k ensures k in keys <==> HasPrefix(k, prefix) && Read(pending, Cache(), k, now) != Absent {
        ListedIsPresent(pending, Cache(), prefix, now, k);
      }
      var sorted := SortedList(keys);
      out := Some(sorted);
    }
  }

  /** A metadata key has the internal and the user prefix exactly when it is a state key under the latter. */
  lemma StripPrefix(k: string, prefix: string)
    ensures HasPrefix(k, StateKey(prefix)) ==>
      StateKey(k[|KEY_PREFIX|..]) == k && HasPrefix(k[|KEY_PREFIX|..], prefix)
    ensures forall u :: StateKey(u) == k && HasPrefix(u, prefix) ==>
      HasPrefix(k, StateKey(prefix)) && k[|KEY_PREFIX|..] == u
  {
    if HasPrefix(k, StateKey(prefix)) {
      var n := |KEY_PREFIX|;
      assert k[..n] == StateKey(prefix)[..n] == KEY_PREFIX;
      assert k == k[..n] + k[n..];
      assert k[n..][..|prefix|] == StateKey(prefix)[n..] == prefix;
    }
    forall u | StateKey(u) == k && HasPrefix(u, prefix)
      ensures HasPrefix(k, StateKey(prefix)) && k[|KEY_PREFIX|..] == u
    {
      assert u == u[..|prefix|] + u[|prefix|..];
    }
  }

  /** What the guard's case analysis comes to. */
  lemma GuardArithmetic(meta: Metadata, fullKey: string, entry: Option<Blob>, newText: string)
    requires HasPrefix(fullKey, KEY_PREFIX)
    ensures var e := if fullKey in meta then meta[fullKey] else "";
      var p := if entry.Some? && entry.value.Bytes? then TextOf(entry.value) else e;
      var shown := if e == p then SizeOf(meta)
                   else SizeOf(meta) - |e| + |p| + (if e == "" then |fullKey| else 0);
      GuardTotal(meta, fullKey, entry, newText)
      == shown + (if p == "" then |fullKey| + |newText| else |newText| - |p|)
  {
    SizePut(meta, fullKey, newText);
    if fullKey in meta {
      SizeRemove(meta, fullKey);
    } else {
      assert meta - {fullKey} == meta;
    }
  }
}
