/** The execution-scoped state store over a shared KV bucket (pkg/state/jetstream.go). */
module ExecBucket {
  import opened Text
  import opened ExecKeys
  import opened SortedKeys

  /** A JetStream KV bucket with history 1: the latest value of each key. */
  class Bucket<V> {
    var entries: map<string, V>

    constructor ()
      ensures entries == map[]
    {
      entries := map[];
    }
  }

  /** JetStreamState: one run's namespace inside the bucket. */
  class ExecState<V> {
    const kv: Bucket<V>
    const runId: string
    const ns: string

    predicate Valid() { ns == Namespace(runId) }

    /** newExecState. */
    constructor (kv: Bucket<V>, runId: string)
      ensures Valid() && this.kv == kv && this.runId == runId
    {
      this.kv := kv;
      this.runId := runId;
      ns := SanitizeKey("exec/" + runId + "/");
    }

    method Get(key: string) returns (r: Option<V>)
      requires Valid()
      ensures r == if FullKey(runId, key) in kv.entries then Some(kv.entries[FullKey(runId, key)]) else None
    {
      var k := ns + SanitizeKey(key);
      r := if k in kv.entries then Some(kv.entries[k]) else None;
    }

    method Set(key: string, value: V)
      requires Valid()
      modifies kv
      ensures kv.entries == old(kv.entries)[FullKey(runId, key) := value]
    {
      kv.entries := kv.entries[ns + SanitizeKey(key) := value];
    }

    method Delete(key: string)
      requires Valid()
      modifies kv
      ensures kv.entries == old(kv.entries) - {FullKey(runId, key)}
    {
      kv.entries := kv.entries - {ns + SanitizeKey(key)};
    }

    /** Sorted user keys under a user prefix. */
    method List(prefix: string) returns (out: seq<string>)
      requires Valid()
      ensures Lists(out, Listed(kv.entries.Keys, runId, prefix))
    {
      var match_ := ns + SanitizeKey(prefix);
      var keys: set<string> := {};
      var rest := kv.entries.Keys;
      while rest != {}
        invariant rest <= kv.entries.Keys
        invariant keys == Listed(kv.entries.Keys - rest, runId, prefix)
        decreases |rest|
      {
        var k :| k in rest;
        if HasPrefix(k, match_) {
          keys := keys + {k[|ns|..]};
        }
        assert kv.entries.Keys - (rest - {k}) == kv.entries.Keys - rest + {k};
        rest := rest - {k};
      }
      assert kv.entries.Keys - {} == kv.entries.Keys;
      out := SortedList(keys);
    }
  }

  /** The keys of the bucket under a user prefix of a run, without the run's namespace. */
  function Listed(keys: set<string>, runId: string, prefix: string): set<string> {
    set k | k in keys && HasPrefix(k, FullKey(runId, prefix)) :: k[|Namespace(runId)|..]
  }

  /** Every listed key is found again by Get: its full key is the bucket key it came from. */
  lemma ListedKeysAreFound(keys: set<string>, runId: string, prefix: string, key: string)
    requires forall k <- keys :: Clean(k)
    requires key in Listed(keys, runId, prefix)
    ensures FullKey(runId, key) in keys
  {
    var k :| k in keys && HasPrefix(k, FullKey(runId, prefix)) && key == k[|Namespace(runId)|..];
    var n := |Namespace(runId)|;
    assert FullKey(runId, prefix)[..n] == Namespace(runId);
    assert k[..n] == k[..|FullKey(runId, prefix)|][..n];
    assert k == Namespace(runId) + key;
    assert forall c <- key :: c in k;
    SanitizeClean(key);
  }

  /** What is written under one run is listed and found under no other. */
  lemma RunsDoNotShareKeys(r: string, s: string, key: string, prefix: string, keys: set<string>)
    requires Clean(r) && Clean(s) && '/' !in r && '/' !in s && r != s
    ensures !HasPrefix(FullKey(r, key), FullKey(s, prefix))
    ensures FullKey(r, key) != FullKey(s, prefix)
  {
    if HasPrefix(FullKey(r, key), FullKey(s, prefix)) {
      var k, n, m := FullKey(r, key), |Namespace(r)|, |Namespace(s)|;
      assert k[..n] == Namespace(r);
      assert k[..m] == k[..|FullKey(s, prefix)|][..m] == Namespace(s);
      NamespacesDisjoint(r, s, k);
    }
    assert FullKey(s, prefix)[..|FullKey(s, prefix)|] == FullKey(s, prefix);
  }
}
