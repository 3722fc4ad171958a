/** Base64 with the standard alphabet and padding (RFC 4648, section 4), as pkg/state/metadata.go stores values. */
module Base64 {
  import opened Text

  type Byte = b: int | 0 <= b < 256

  /** The alphabet of RFC 4648, table 1. */
  function Symbol(v: nat): (c: char)
    requires v < 64
    ensures SymbolValue(c) == Some(v)
  {
    if v < 26 then ('A' as int + v) as char
    else if v < 52 then ('a' as int + v - 26) as char
    else if v < 62 then ('0' as int + v - 52) as char
    else if v == 62 then '+'
    else '/'
  }

  function SymbolValue(c: char): (v: Option<nat>)
    ensures v.Some? ==> v.value < 64
  {
    if 'A' <= c <= 'Z' then Some(c as int - 'A' as int)
    else if 'a' <= c <= 'z' then Some(c as int - 'a' as int + 26)
    else if '0' <= c <= '9' then Some(c as int - '0' as int + 52)
    else if c == '+' then Some(62)
    else if c == '/' then Some(63)
    else None
  }

  /** Symbols of the alphabet and padding. */
  predicate IsText(s: string) { forall i :: 0 <= i < |s| ==> s[i] == '=' || SymbolValue(s[i]).Some? }

  lemma TextsJoin(s: string, t: string)
    requires IsText(s) && IsText(t)
    ensures IsText(s + t)
  {
  }

  /** One group of up to three bytes as four characters. */
  function EncodeGroup(g: seq<Byte>): (q: string)
    requires 1 <= |g| <= 3
    ensures |q| == 4
    ensures IsText(q)
  {
    if |g| == 1 then [Symbol(g[0] / 4), Symbol(g[0] % 4 * 16), '=', '=']
    else if |g| == 2 then [Symbol(g[0] / 4), Symbol(g[0] % 4 * 16 + g[1] / 16), Symbol(g[1] % 16 * 4), '=']
    else [Symbol(g[0] / 4), Symbol(g[0] % 4 * 16 + g[1] / 16), Symbol(g[1] % 16 * 4 + g[2] / 64), Symbol(g[2] % 64)]
  }

  function EncodedLength(n: nat): nat { 4 * ((n + 2) / 3) }

  lemma OneGroupMore(n: nat)
    ensures EncodedLength(n + 3) == EncodedLength(n) + 4
    ensures 1 <= n <= 3 ==> EncodedLength(n) == 4
  {
  }

  function Encode(data: seq<Byte>): (text: string)
    ensures |text| == EncodedLength(|data|)
    ensures IsText(text)
    decreases |data|
  {
    if |data| == 0 then ""
    else if |data| <= 3 then EncodeGroup(data)
    else
      var first, rest := EncodeGroup(data[..3]), Encode(data[3..]);
      TextsJoin(first, rest);
      OneGroupMore(|data| - 3);
      first + rest
  }

  function Triple(a: nat, b: nat, c: nat, d: nat): seq<Byte>
    requires a < 64 && b < 64 && c < 64 && d < 64
  {
    [a * 4 + b / 16, b % 16 * 16 + c / 4, c % 4 * 64 + d]
  }

  /** Four characters back to bytes: padding only in the last quad, whose spare bits are ignored. */
  function DecodeGroup(q: string, last: bool): Option<seq<Byte>>
    requires |q| == 4
  {
    var a, b, c, d := SymbolValue(q[0]), SymbolValue(q[1]), SymbolValue(q[2]), SymbolValue(q[3]);
    if a.None? || b.None? then None
    else if c.Some? && d.Some? then Some(Triple(a.value, b.value, c.value, d.value))
    else if c.Some? && last && q[3] == '=' then Some(Triple(a.value, b.value, c.value, 0)[..2])
    else if last && q[2] == '=' && q[3] == '=' then Some(Triple(a.value, b.value, 0, 0)[..1])
    else None
  }

  function DecodeQuads(s: string): Option<seq<Byte>>
    decreases |s|
  {
    if |s| == 0 then Some([])
    else if |s| < 4 then None
    else
      var first := DecodeGroup(s[..4], |s| == 4);
      var rest := DecodeQuads(s[4..]);
      if first.Some? && rest.Some? then Some(first.value + rest.value) else None
  }

  /** Line breaks are skipped wherever they stand. */
  function Unbroken(s: string): string {
    if s == "" then ""
    else (if s[0] == '\r' || s[0] == '\n' then "" else [s[0]]) + Unbroken(s[1..])
  }

  function Decode(s: string): Option<seq<Byte>> { DecodeQuads(Unbroken(s)) }

  lemma {:induction false} UnbrokenSame(s: string)
    requires IsText(s)
    ensures Unbroken(s) == s
    decreases |s|
  {
    if s != "" {
      assert s[0] == '=' || SymbolValue(s[0]).Some?;
      UnbrokenSame(s[1..]);
    }
  }

  /** The four six-bit parts of three bytes put together again. */
  lemma BitsRejoin(a: Byte, b: Byte, c: Byte)
    ensures a / 4 < 64 && a % 4 * 16 + b / 16 < 64 && b % 16 * 4 + c / 64 < 64 && c % 64 < 64
    ensures a / 4 * 4 + (a % 4 * 16 + b / 16) / 16 == a
    ensures (a % 4 * 16 + b / 16) % 16 * 16 + (b % 16 * 4 + c / 64) / 4 == b
    ensures (b % 16 * 4 + c / 64) % 4 * 64 + c % 64 == c
  {
  }

  lemma TripleRejoins(a: Byte, b: Byte, c: Byte)
    requires a / 4 < 64 && a % 4 * 16 + b / 16 < 64 && b % 16 * 4 + c / 64 < 64 && c % 64 < 64
    ensures Triple(a / 4, a % 4 * 16 + b / 16, b % 16 * 4 + c / 64, c % 64) == [a, b, c]
  {
    BitsRejoin(a, b, c);
  }

  lemma SymbolsDecode(w: nat, x: nat, y: nat, z: nat, last: bool)
    requires w < 64 && x < 64 && y < 64 && z < 64
    ensures DecodeGroup([Symbol(w), Symbol(x), Symbol(y), Symbol(z)], last) == Some(Triple(w, x, y, z))
    ensures DecodeGroup([Symbol(w), Symbol(x), Symbol(y), '='], true) == Some(Triple(w, x, y, 0)[..2])
    ensures DecodeGroup([Symbol(w), Symbol(x), '=', '='], true) == Some(Triple(w, x, 0, 0)[..1])
  {
  }

  lemma OneByte(a: Byte)
    ensures DecodeGroup(EncodeGroup([a]), true) == Some([a])
  {
    var t := Triple(a / 4, a % 4 * 16, 0, 0);
    assert t[0] == a / 4 * 4 + a % 4 * 16 / 16 == a;
    assert t[..1] == [a];
    SymbolsDecode(a / 4, a % 4 * 16, 0, 0, true);
  }

  lemma TwoRejoin(a: Byte, b: Byte)
    ensures a / 4 < 64 && a % 4 * 16 + b / 16 < 64 && b % 16 * 4 < 64
    ensures Triple(a / 4, a % 4 * 16 + b / 16, b % 16 * 4, 0)[..2] == [a, b]
  {
    BitsRejoin(a, b, 0);
    var c := b % 16 * 4;
    assert c == b % 16 * 4 + 0 / 64;
    var t := Triple(a / 4, a % 4 * 16 + b / 16, c, 0);
    assert t[..2] == [t[0], t[1]];
  }

  lemma TwoBytes(a: Byte, b: Byte)
    ensures DecodeGroup(EncodeGroup([a, b]), true) == Some([a, b])
  {
    TwoRejoin(a, b);
    SymbolsDecode(a / 4, a % 4 * 16 + b / 16, b % 16 * 4, 0, true);
  }

  lemma ThreeBytes(a: Byte, b: Byte, c: Byte, last: bool)
    ensures DecodeGroup(EncodeGroup([a, b, c]), last) == Some([a, b, c])
  {
    BitsRejoin(a, b, c);
    TripleRejoins(a, b, c);
    SymbolsDecode(a / 4, a % 4 * 16 + b / 16, b % 16 * 4 + c / 64, c % 64, last);
  }

  lemma DecodeEncodedGroup(g: seq<Byte>, last: bool)
    requires |g| == 3 || (1 <= |g| < 3 && last)
    ensures DecodeGroup(EncodeGroup(g), last) == Some(g)
  {
    if |g| == 1 {
      OneByte(g[0]);
      assert g == [g[0]];
    } else if |g| == 2 {
      TwoBytes(g[0], g[1]);
      assert g == [g[0], g[1]];
    } else {
      ThreeBytes(g[0], g[1], g[2], last);
      assert g == [g[0], g[1], g[2]];
    }
  }

  lemma DecodeQuadsPeels(q: string, rest: string, last: bool)
    requires |q| == 4 && last == (rest == "")
    requires DecodeGroup(q, last).Some? && DecodeQuads(rest).Some?
    ensures DecodeQuads(q + rest) == Some(DecodeGroup(q, last).value + DecodeQuads(rest).value)
  {
    assert (q + rest)[..4] == q && (q + rest)[4..] == rest;
  }

  lemma {:induction false} DecodeQuadsOfEncode(data: seq<Byte>)
    ensures DecodeQuads(Encode(data)) == Some(data)
    decreases |data|
  {
    if |data| > 3 {
      DecodeQuadsOfEncode(data[3..]);
      DecodeEncodedGroup(data[..3], false);
      DecodeQuadsPeels(EncodeGroup(data[..3]), Encode(data[3..]), false);
      assert data == data[..3] + data[3..];
    } else if |data| > 0 {
      DecodeEncodedGroup(data, true);
      DecodeQuadsPeels(EncodeGroup(data), "", true);
      assert EncodeGroup(data) + "" == EncodeGroup(data) && data + [] == data;
    }
  }

  /** Decoding inverts encoding. */
  lemma DecodeOfEncode(data: seq<Byte>)
    ensures Decode(Encode(data)) == Some(data)
  {
    UnbrokenSame(Encode(data));
    DecodeQuadsOfEncode(data);
  }

  /** Different values have different texts; only the empty value has the empty text. */
  lemma EncodeInjective(a: seq<Byte>, b: seq<Byte>)
    requires Encode(a) == Encode(b)
    ensures a == b
  {
    DecodeOfEncode(a);
    DecodeOfEncode(b);
  }

  lemma FooGroup()
    ensures EncodeGroup([0x66, 0x6f, 0x6f]) == "Zm9v"
  {
    assert 0x66 / 4 == 25 && 0x66 % 4 * 16 + 0x6f / 16 == 38;
    assert 0x6f % 16 * 4 + 0x6f / 64 == 61 && 0x6f % 64 == 47;
  }

  lemma BarGroup()
    ensures EncodeGroup([0x62, 0x61, 0x72]) == "YmFy"
  {
    assert 0x62 / 4 == 24 && 0x62 % 4 * 16 + 0x61 / 16 == 38;
    assert 0x61 % 16 * 4 + 0x72 / 64 == 5 && 0x72 % 64 == 50;
  }

  /** A test vector of RFC 4648, section 10. */
  lemma FoobarVector()
    ensures Encode([0x66, 0x6f, 0x6f, 0x62, 0x61, 0x72]) == "Zm9vYmFy"
  {
    var foobar := [0x66, 0x6f, 0x6f, 0x62, 0x61, 0x72];
    assert foobar[..3] == [0x66, 0x6f, 0x6f] && foobar[3..] == [0x62, 0x61, 0x72];
    FooGroup();
    BarGroup();
  }

  /** ... and one with padding. */
  lemma PaddedVector()
    ensures Encode([0x66]) == "Zg=="
  {
    assert 0x66 / 4 == 25 && 0x66 % 4 * 16 == 32;
  }
}
