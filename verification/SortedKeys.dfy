/** Key lists in the order sort.Strings leaves them: byte-wise lexicographic. */
module SortedKeys {

  predicate Leq(a: string, b: string) {
    a == "" || (b != "" && (a[0] < b[0] || (a[0] == b[0] && Leq(a[1..], b[1..]))))
  }

  lemma {:induction false} LeqTotal(a: string, b: string)
    ensures Leq(a, b) || Leq(b, a)
  {
    if a != "" && b != "" && a[0] == b[0] { LeqTotal(a[1..], b[1..]); }
  }

  lemma {:induction false} LeqTransitive(a: string, b: string, c: string)
    requires Leq(a, b) && Leq(b, c)
    ensures Leq(a, c)
  {
    if a != "" && a[0] == b[0] == c[0] { LeqTransitive(a[1..], b[1..], c[1..]); }
  }

  lemma {:induction false} LeqAntisymmetric(a: string, b: string)
    requires Leq(a, b) && Leq(b, a)
    ensures a == b
  {
    if a != "" {
      LeqAntisymmetric(a[1..], b[1..]);
      assert a == [a[0]] + a[1..] && b == [b[0]] + b[1..];
    }
  }

  /** Where the texts first differ, `a` has the lesser character, or has ended. */
  predicate Precedes(a: string, b: string) {
    || (|a| <= |b| && a == b[..|a|])
    || exists i :: 0 <= i < |a| && i < |b| && a[..i] == b[..i] && a[i] < b[i]
  }

  lemma {:induction false} LeqIsPrecedes(a: string, b: string)
    ensures Leq(a, b) <==> Precedes(a, b)
    decreases |a|
  {
    if a != "" && b != "" && a[0] == b[0] {
      LeqIsPrecedes(a[1..], b[1..]);
      PrecedesPeels(a, b);
    } else if a != "" && b != "" {
      assert a[0] < b[0] ==> a[..0] == b[..0];
    }
  }

  lemma PrecedesPeels(a: string, b: string)
    requires a != "" && b != "" && a[0] == b[0]
    ensures Precedes(a, b) <==> Precedes(a[1..], b[1..])
  {
    var s, t := a[1..], b[1..];
    assert a == [a[0]] + s && b == [a[0]] + t;
    if |s| <= |t| { assert b[..|a|] == [a[0]] + t[..|s|] && t[..|s|] == b[..|a|][1..]; }
    forall i | 0 <= i < |s| && i < |t| && s[..i] == t[..i] && s[i] < t[i] ensures Precedes(a, b) {
      assert a[..i + 1] == [a[0]] + s[..i] == b[..i + 1] && a[i + 1] < b[i + 1];
    }
    forall i | 0 <= i < |a| && i < |b| && a[..i] == b[..i] && a[i] < b[i] ensures Precedes(s, t) {
      assert s[..i - 1] == a[..i][1..] == b[..i][1..] == t[..i - 1] && s[i - 1] < t[i - 1];
    }
  }

  /** Ascending character by character, without duplicates, and holding exactly the given keys. */
  ghost predicate Lists(out: seq<string>, keys: set<string>) {
    && (forall i, j :: 0 <= i < j < |out| ==> Precedes(out[i], out[j]) && out[i] != out[j])
    && (forall k :: k in out <==> k in keys)
  }

  /** The list does not depend on the order in which the keys were met. */
  lemma {:induction false} ListUnique(s: seq<string>, t: seq<string>, keys: set<string>)
    requires Lists(s, keys) && Lists(t, keys)
    ensures s == t
    decreases |s|
  {
    assert t != [] ==> t[0] in keys;
    if s != [] {
      assert s[0] in keys && s[0] in t && t[0] in s;
      var i :| 0 <= i < |t| && t[i] == s[0];
      var j :| 0 <= j < |s| && s[j] == t[0];
      LeqIsPrecedes(s[0], t[0]);
      LeqIsPrecedes(t[0], s[0]);
      LeqTotal(s[0], t[0]);
      if s[0] != t[0] { LeqAntisymmetric(s[0], t[0]); }
      TailLists(s, keys);
      TailLists(t, keys);
      ListUnique(s[1..], t[1..], keys - {s[0]});
      assert s == [s[0]] + s[1..] && t == [t[0]] + t[1..];
    }
  }

  lemma TailLists(s: seq<string>, keys: set<string>)
    requires Lists(s, keys) && s != []
    ensures Lists(s[1..], keys - {s[0]})
  {
    forall k
      ensures k in s[1..] <==> k in keys && k != s[0]
    {
      if k in keys && k != s[0] {
        assert k in s;
        var i :| 0 <= i < |s| && s[i] == k;
        assert s[1..][i - 1] == k;
      }
      if k in s[1..] {
        var i :| 0 <= i < |s| - 1 && s[1..][i] == k;
        assert s[i + 1] == k && k in s;
      }
    }
  }

  method Least(keys: set<string>) returns (m: string)
    requires keys != {}
    ensures m in keys && forall k <- keys :: Leq(m, k)
  {
    m :| m in keys;
    var rest := keys - {m};
    LeqTotal(m, m);
    while rest != {}
      invariant m in keys && rest <= keys
      invariant forall k <- keys - rest :: Leq(m, k)
      decreases |rest|
    {
      var k :| k in rest;
      LeqTotal(m, k);
      if !Leq(m, k) {
        forall j | j in keys - rest ensures Leq(k, j) { LeqTransitive(k, m, j); }
        LeqTotal(k, k);
        m := k;
      }
      rest := rest - {k};
    }
  }

  /** Collects a key set into a slice and sorts it. */
  method SortedList(keys: set<string>) returns (out: seq<string>)
    ensures Lists(out, keys)
  {
    out := [];
    var rest := keys;
    while rest != {}
      invariant rest <= keys
      invariant Lists(out, keys - rest)
      invariant forall i, k :: 0 <= i < |out| && k in rest ==> Leq(out[i], k)
      decreases |rest|
    {
      var m := Least(rest);
      assert forall i :: 0 <= i < |out| ==> out[i] in out;
      forall i | 0 <= i < |out| ensures Precedes(out[i], m) { LeqIsPrecedes(out[i], m); }
      out := out + [m];
      rest := rest - {m};
    }
  }
}
