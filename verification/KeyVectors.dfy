/**
 * Published hash values and one step key in full, computed by the definitions of RunKeys: a state is
 * kept as the bits of its low byte, which are all that a byte touches, and the rest.
 */
module KeyVectors {
  import opened Text
  import opened RunKeys

  function Bit(b: bool): nat { if b then 1 else 0 }

  /** The number with these bits, the highest first, after those of `q`. */
  function Over(q: nat, bits: seq<bool>): nat {
    if bits == [] then q else 2 * Over(q, bits[..|bits| - 1]) + Bit(bits[|bits| - 1])
  }

  function Differ(s: seq<bool>, t: seq<bool>): (r: seq<bool>)
    requires |s| == |t|
  {
    seq(|s|, i requires 0 <= i < |s| => s[i] != t[i])
  }

  lemma Halves(x: nat, i: bool)
    ensures (2 * x + Bit(i)) / 2 == x && (2 * x + Bit(i)) % 2 == Bit(i)
  {
  }

  lemma XorOfBits(x: nat, y: nat, i: bool, j: bool)
    ensures Xor(2 * x + Bit(i), 2 * y + Bit(j)) == 2 * Xor(x, y) + Bit(i != j)
  {
    var z := Xor(2 * x + Bit(i), 2 * y + Bit(j));
    XorBits(2 * x + Bit(i), 2 * y + Bit(j));
    Halves(x, i);
    Halves(y, j);
    Halves(Xor(x, y), i != j);
    SameHalves(z, 2 * Xor(x, y) + Bit(i != j));
  }

  /** A byte changes the low bits of a state, one by one, and nothing else. */
  lemma {:induction false} XorOver(q: nat, s: seq<bool>, t: seq<bool>)
    requires |s| == |t|
    ensures Xor(Over(q, s), Over(0, t)) == Over(q, Differ(s, t))
    decreases |s|
  {
    if s == [] {
      XorZero(q);
    } else {
      var n := |s| - 1;
      XorOver(q, s[..n], t[..n]);
      XorOfBits(Over(q, s[..n]), Over(0, t[..n]), s[n], t[n]);
      assert Differ(s, t)[..n] == Differ(s[..n], t[..n]);
    }
  }

  function ByteOf(o: seq<bool>): nat
    requires |o| == 8
  {
    128 * Bit(o[0]) + 64 * Bit(o[1]) + 32 * Bit(o[2]) + 16 * Bit(o[3])
    + 8 * Bit(o[4]) + 4 * Bit(o[5]) + 2 * Bit(o[6]) + Bit(o[7])
  }

  lemma OverByte(q: nat, o: seq<bool>)
    requires |o| == 8
    ensures Over(q, o) == q * 256 + ByteOf(o)
  {
    var a, b, c, d, e, f, g := o[..1], o[..2], o[..3], o[..4], o[..5], o[..6], o[..7];
    assert g[..6] == f && f[..5] == e && e[..4] == d && d[..3] == c && c[..2] == b && b[..1] == a && a[..0] == [];
    assert Over(q, a) == 2 * q + Bit(o[0]);
    assert Over(q, c) == 2 * Over(q, b) + Bit(o[2]);
    assert Over(q, e) == 2 * Over(q, d) + Bit(o[4]);
    assert Over(q, g) == 2 * Over(q, f) + Bit(o[6]);
  }

  lemma ByteXor(q: nat, o: seq<bool>, p: seq<bool>)
    requires |o| == |p| == 8
    ensures Xor(q * 256 + ByteOf(o), ByteOf(p)) == q * 256 + ByteOf(Differ(o, p))
  {
    OverByte(q, o);
    OverByte(0, p);
    OverByte(q, Differ(o, p));
    XorOver(q, o, p);
  }

  lemma ModIs(x: nat, k: nat, r: nat)
    requires r < WORD && x == k * WORD + r
    ensures x % WORD == r
  {
    DivUnique(x, WORD, k, r);
  }

  lemma RoundIs(h: nat, q: nat, o: seq<bool>, c: char, p: seq<bool>, k: nat, r: nat)
    requires |o| == |p| == 8 && h == q * 256 + ByteOf(o) && c as int == ByteOf(p) && r < WORD
    requires (q * 256 + ByteOf(Differ(o, p))) * FNV_PRIME == k * WORD + r
    ensures Round(h, c) == r
  {
    ByteXor(q, o, p);
    ModIs(Xor(h, c as int) * FNV_PRIME, k, r);
  }

  lemma FnvPeels(h: nat, s: string)
    requires s != ""
    ensures FnvFrom(h, s) == FnvFrom(Round(h, s[0]), s[1..])
  {
  }

  /** One byte of a hash, with the quotient and the remainder of its product. */
  lemma OneByte(h: nat, s: string, q: nat, o: seq<bool>, p: seq<bool>, k: nat, r: nat)
    requires s != "" && |o| == |p| == 8 && h == q * 256 + ByteOf(o) && s[0] as int == ByteOf(p) && r < WORD
    requires (q * 256 + ByteOf(Differ(o, p))) * FNV_PRIME == k * WORD + r
    ensures FnvFrom(h, s) == FnvFrom(r, s[1..])
  {
    RoundIs(h, q, o, s[0], p, k, r);
    FnvPeels(h, s);
  }

  lemma LetterA1(h: nat, s: string)
    requires h == 0xcbf29ce484222325 && s != "" && s[0] == 'a'
    ensures FnvFrom(h, s) == FnvFrom(0xaf63dc4c8601ec8c, s[1..])
  {
    OneByte(h, s, 0xcbf29ce4842223, [false, false, true, false, false, true, false, true],
            [false, true, true, false, false, false, false, true], 0xcbf29ce5de, 0xaf63dc4c8601ec8c);
  }

  /** The test vectors of draft-eastlake-fnv for no text and for one letter. */
  lemma FnvVectors()
    ensures Fnv("") == 0xcbf29ce484222325 && Fnv("a") == 0xaf63dc4c8601ec8c
  {
    LetterA1(OFFSET_BASIS, "a");
  }

  lemma KeyByte1(h: nat, s: string)
    requires h == 0xcbf29ce484222325 && s != "" && s[0] == 'p'
    ensures FnvFrom(h, s) == FnvFrom(0xaf63ed4c8602096f, s[1..])
  {
    OneByte(h, s, 0xcbf29ce4842223, [false, false, true, false, false, true, false, true],
            [false, true, true, true, false, false, false, false], 0xcbf29ce5de, 0xaf63ed4c8602096f);
  }

  lemma KeyByte2(h: nat, s: string)
    requires h == 0xaf63ed4c8602096f && s != "" && s[0] == '|'
    ensures FnvFrom(h, s) == FnvFrom(0x8d54c07b5756b49, s[1..])
  {
    OneByte(h, s, 0xaf63ed4c860209, [false, true, true, false, true, true, true, true],
            [false, true, true, true, true, true, false, false], 0xaf63ed4db0, 0x8d54c07b5756b49);
  }

  lemma KeyByte3(h: nat, s: string)
    requires h == 0x8d54c07b5756b49 && s != "" && s[0] == 'e'
    ensures FnvFrom(h, s) == FnvFrom(0x77db5d1956851bc4, s[1..])
  {
    OneByte(h, s, 0x8d54c07b5756b, [false, true, false, false, true, false, false, true],
            [false, true, true, false, false, true, false, true], 0x8d54c07c4, 0x77db5d1956851bc4);
  }

  lemma KeyByte4(h: nat, s: string)
    requires h == 0x77db5d1956851bc4 && s != "" && s[0] == '|'
    ensures FnvFrom(h, s) == FnvFrom(0x2edaea0e042e19a8, s[1..])
  {
    OneByte(h, s, 0x77db5d1956851b, [true, true, false, false, false, true, false, false],
            [false, true, true, true, true, true, false, false], 0x77db5d1a22, 0x2edaea0e042e19a8);
  }

  lemma KeyByte5(h: nat, s: string)
    requires h == 0x2edaea0e042e19a8 && s != "" && s[0] == '0'
    ensures FnvFrom(h, s) == FnvFrom(0xcc154dd11a557d48, s[1..])
  {
    OneByte(h, s, 0x2edaea0e042e19, [true, false, true, false, true, false, false, false],
            [false, false, true, true, false, false, false, false], 0x2edaea0e53, 0xcc154dd11a557d48);
  }

  lemma KeyHash(s: string)
    requires |s| == 5 && s[0] == 'p' && s[1] == '|' && s[2] == 'e' && s[3] == '|' && s[4] == '0'
    ensures Fnv(s) == 0xcc154dd11a557d48
  {
    KeyByte1(0xcbf29ce484222325, s);
    KeyByte2(0xaf63ed4c8602096f, s[1..]);
    KeyByte3(0x8d54c07b5756b49, s[2..]);
    KeyByte4(0x77db5d1956851bc4, s[3..]);
    KeyByte5(0x2edaea0e042e19a8, s[4..]);
    assert s[1..][1..] == s[2..] && s[2..][1..] == s[3..] && s[3..][1..] == s[4..] && s[4..][1..] == "";
  }

  lemma HexPeel(h: nat, d: nat, width: nat)
    requires d < 16
    ensures Hex(16 * h + d, width + 1) == Hex(h, width) + [HexDigit(d)]
  {
    assert (16 * h + d) / 16 == h && (16 * h + d) % 16 == d;
  }

  lemma HexFour(h: nat, a: nat, b: nat, c: nat, d: nat, width: nat)
    requires a < 16 && b < 16 && c < 16 && d < 16
    ensures Hex(0x1_0000 * h + 0x1000 * a + 0x100 * b + 0x10 * c + d, width + 4)
         == Hex(h, width) + [HexDigit(a), HexDigit(b), HexDigit(c), HexDigit(d)]
  {
    var x := 16 * h + a;
    var y := 16 * x + b;
    var z := 16 * y + c;
    HexPeel(h, a, width);
    HexPeel(x, b, width + 1);
    HexPeel(y, c, width + 2);
    HexPeel(z, d, width + 3);
  }

  lemma KeyHex1()
    ensures Hex(0xcc15, 4) == "cc15"
  {
    HexFour(0, 12, 12, 1, 5, 0);
  }

  lemma KeyHex2()
    ensures Hex(0xcc154dd1, 8) == "cc154dd1"
  {
    HexFour(0xcc15, 4, 13, 13, 1, 4);
    KeyHex1();
  }

  lemma KeyHex3()
    ensures Hex(0xcc154dd11a55, 12) == "cc154dd11a55"
  {
    HexFour(0xcc154dd1, 1, 10, 5, 5, 8);
    KeyHex2();
  }

  lemma KeyHex4()
    ensures Hex(0xcc154dd11a557d48, 16) == "cc154dd11a557d48"
  {
    HexFour(0xcc154dd11a55, 7, 13, 4, 8, 12);
    KeyHex3();
  }

  /** The first key that the step `p` of run `r` draws for the edge `e`, in full. */
  lemma StepKeyExample()
    ensures StepKeyFor("r", "p", "e", 0) == "r.cc154dd11a557d48"
  {
    var s := Preimage("p", "e", 0);
    assert Itoa(0) == "0";
    KeyHash(s);
    KeyHex4();
  }
}
