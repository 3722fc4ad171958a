/** The few string operations of Go's standard library that several components share. */
module Text {

  datatype Option<+T> = None | Some(value: T)

  predicate HasPrefix(s: string, prefix: string) {
    |prefix| <= |s| && s[..|prefix|] == prefix
  }

  /** A text has a prefix exactly when something, maybe nothing, follows the prefix in it. */
  lemma PrefixMeans(s: string, prefix: string)
    ensures HasPrefix(s, prefix) <==> exists rest :: s == prefix + rest
  {
    if HasPrefix(s, prefix) { assert s == prefix + s[|prefix|..]; }
  }

  /** The decimal numeral that `%d` and strconv.Itoa print for a non-negative number. */
  function Itoa(n: nat): (s: string)
    ensures |s| > 0
    ensures forall c <- s :: '0' <= c <= '9'
  {
    if n < 10 then [Digit(n)] else Itoa(n / 10) + [Digit(n % 10)]
  }

  function Digit(d: nat): (c: char)
    requires d < 10
    ensures '0' <= c <= '9' && c as int == '0' as int + d
  {
    ('0' as int + d) as char
  }

  /** strconv.Atoi on numerals without a sign. */
  function ParseNat(s: string): Option<nat> {
    if |s| == 0 then None
    else
      var c := s[|s| - 1];
      if !('0' <= c <= '9') then None
      else if |s| == 1 then Some(c as int - '0' as int)
      else
        match ParseNat(s[..|s| - 1])
        case None => None
        case Some(high) => Some(10 * high + (c as int - '0' as int))
  }

  lemma {:induction false} ParseNatOfItoa(n: nat)
    ensures ParseNat(Itoa(n)) == Some(n)
  {
    if n >= 10 {
      ParseNatOfItoa(n / 10);
      assert Itoa(n)[..|Itoa(n)| - 1] == Itoa(n / 10);
    }
  }

  /** Where `sep` first occurs in `s`, or |s| when it does not. */
  function IndexOf(s: string, sep: char): (i: nat)
    ensures i <= |s|
    ensures sep !in s[..i]
    ensures i < |s| ==> s[i] == sep
    ensures i == |s| <==> sep !in s
  {
    if s == "" then 0
    else if s[0] == sep then 0
    else 1 + IndexOf(s[1..], sep)
  }

  /** IndexOf is the only position with a separator and none before it. */
  lemma {:induction false} IndexOfAfter(clean: string, sep: char, rest: string)
    requires sep !in clean
    ensures IndexOf(clean + [sep] + rest, sep) == |clean|
  {
    if clean != "" {
      IndexOfAfter(clean[1..], sep, rest);
      assert (clean + [sep] + rest)[1..] == clean[1..] + [sep] + rest;
    }
  }

  /** strings.SplitN: at most `n` parts, the last one unsplit. */
  function SplitN(s: string, sep: char, n: nat): (parts: seq<string>)
    requires n > 0
    ensures 0 < |parts| <= n
    decreases |s|
  {
    var i := IndexOf(s, sep);
    if n == 1 || i == |s| then [s]
    else [s[..i]] + SplitN(s[i + 1..], sep, n - 1)
  }

  /** One separator-free part peels off the front of a split. */
  lemma SplitNPeel(clean: string, sep: char, rest: string, n: nat)
    requires sep !in clean && n > 1
    ensures SplitN(clean + [sep] + rest, sep, n) == [clean] + SplitN(rest, sep, n - 1)
  {
    IndexOfAfter(clean, sep, rest);
    var s := clean + [sep] + rest;
    assert s[..|clean|] == clean;
    assert s[|clean| + 1..] == rest;
  }

  /** strings.Join. */
  function Join(parts: seq<string>, sep: char): string {
    if |parts| == 0 then ""
    else if |parts| == 1 then parts[0]
    else parts[0] + [sep] + Join(parts[1..], sep)
  }

  /** Splitting loses nothing, and only the last part may still hold a separator. */
  lemma {:induction false} JoinSplitN(s: string, sep: char, n: nat)
    requires n > 0
    ensures Join(SplitN(s, sep, n), sep) == s
    ensures forall i :: 0 <= i < |SplitN(s, sep, n)| - 1 ==> sep !in SplitN(s, sep, n)[i]
  {
    var i := IndexOf(s, sep);
    if n > 1 && i < |s| {
      JoinSplitN(s[i + 1..], sep, n - 1);
      var parts := SplitN(s, sep, n);
      assert parts[1..] == SplitN(s[i + 1..], sep, n - 1);
      assert s == s[..i] + [sep] + s[i + 1..];
    }
  }
}
