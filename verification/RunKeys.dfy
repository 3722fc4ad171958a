/**
 * Deterministic idempotency keys of durable hops (module/run.go).
 *
 * A hop's key is the run id followed by the FNV-1a 64-bit hash of
 * "parent|edge|ordinal". A character stands for one byte of a Go string, so the
 * hash lemmas speak of texts whose characters have codes below 256.
 */
module RunKeys {
  import opened Text

  // FNV-1a with 64-bit parameters: section 2 of draft-eastlake-fnv.
  const OFFSET_BASIS: nat := 0xcbf29ce484222325
  const FNV_PRIME: nat := 0x100000001b3
  const WORD: nat := 0x1_0000_0000_0000_0000

  /** FNV_PRIME * PRIME_INVERSE == 1 modulo WORD. */
  const PRIME_INVERSE: nat := 0xce965057aff6957b

  predicate IsBytes(s: string) {
    forall i :: 0 <= i < |s| ==> s[i] as int < 256
  }

  /** Bitwise exclusive or. */
  function Xor(x: nat, y: nat): nat
    decreases x + y
  {
    if x == 0 && y == 0 then 0 else 2 * Xor(x / 2, y / 2) + (x % 2 + y % 2) % 2
  }

  function Round(h: nat, c: char): (r: nat)
    ensures r < WORD
  {
    (Xor(h, c as int) * FNV_PRIME) % WORD
  }

  /** Undoes Round for one known byte. */
  function Unround(h: nat, c: char): nat {
    Xor((h * PRIME_INVERSE) % WORD, c as int)
  }

  function FnvFrom(h: nat, s: string): nat
    decreases |s|
  {
    if s == "" then h else FnvFrom(Round(h, s[0]), s[1..])
  }

  function Fnv(s: string): nat { FnvFrom(OFFSET_BASIS, s) }

  function HexDigit(d: nat): char
    requires d < 16
  {
    if d < 10 then ('0' as int + d) as char else ('a' as int + d - 10) as char
  }

  /** `%0<width>x` for a number of at most `width` hexadecimal digits. */
  function Hex(h: nat, width: nat): (s: string)
    ensures |s| == width
  {
    if width == 0 then "" else Hex(h / 16, width - 1) + [HexDigit(h % 16)]
  }

  function Preimage(parent: string, edge: string, ordinal: nat): string {
    parent + "|" + edge + "|" + Itoa(ordinal)
  }

  function StepKeyFor(runId: string, parent: string, edge: string, ordinal: nat): string {
    runId + "." + Hex(Fnv(Preimage(parent, edge, ordinal)), 16)
  }

  // ----- exclusive or -----

  lemma XorBits(x: nat, y: nat)
    ensures Xor(x, y) / 2 == Xor(x / 2, y / 2)
    ensures Xor(x, y) % 2 == (x % 2 + y % 2) % 2
  {
  }

  lemma {:induction false} XorInvolution(x: nat, y: nat)
    ensures Xor(Xor(x, y), y) == x
    decreases x + y
  {
    if x != 0 || y != 0 {
      var z := Xor(x, y);
      XorBits(x, y);
      XorBits(z, y);
      XorInvolution(x / 2, y / 2);
      AddedTwice(x % 2, y % 2);
      SameHalves(Xor(z, y), x);
    }
  }

  lemma AddedTwice(a: nat, b: nat)
    requires a < 2 && b < 2
    ensures ((a + b) % 2 + b) % 2 == a
  {
  }

  lemma SameHalves(x: nat, y: nat)
    requires x / 2 == y / 2 && x % 2 == y % 2
    ensures x == y
  {
  }

  /** A byte changes only the low eight bits of the state. */
  lemma XorKeepsHighBits(h: nat, b: nat)
    requires b < 256
    ensures Xor(h, b) / 256 == h / 256
  {
    XorShift(h, b, 8);
    assert Pow2(8) == 256;
  }

  function Pow2(k: nat): (p: nat)
    ensures p > 0
  {
    if k == 0 then 1 else 2 * Pow2(k - 1)
  }

  lemma {:induction false} XorShift(h: nat, b: nat, k: nat)
    requires b < Pow2(k)
    ensures Xor(h, b) / Pow2(k) == h / Pow2(k)
    decreases k
  {
    if k == 0 {
      XorZero(h);
    } else if h != 0 || b != 0 {
      XorShift(h / 2, b / 2, k - 1);
      HalveThenDivide(Xor(h, b), Pow2(k - 1));
      HalveThenDivide(h, Pow2(k - 1));
    }
  }

  lemma {:induction false} XorZero(h: nat)
    ensures Xor(h, 0) == h
  {
    if h != 0 { XorZero(h / 2); }
  }

  lemma HalveThenDivide(x: nat, p: nat)
    requires p > 0
    ensures x / (2 * p) == (x / 2) / p
  {
    var q := (x / 2) / p;
    var r := (x / 2) % p;
    assert x == 2 * (q * p + r) + x % 2;
    assert x == q * (2 * p) + (2 * r + x % 2);
    DivUnique(x, 2 * p, q, 2 * r + x % 2);
  }

  lemma DivUnique(x: nat, d: nat, q: nat, r: nat)
    requires d > 0 && r < d && x == q * d + r
    ensures x / d == q
  {
    var p := x / d;
    assert x == p * d + x % d;
    if p < q {
      MulAtLeast(q - p, d);
    } else if p > q {
      MulAtLeast(p - q, d);
    }
  }

  lemma MulAtLeast(k: nat, d: nat)
    requires k >= 1
    ensures k * d >= d
  {
  }

  lemma XorBelowWord(h: nat, b: nat)
    requires h < WORD && b < 256
    ensures Xor(h, b) < WORD
  {
    XorKeepsHighBits(h, b);
  }

  // ----- one round is a bijection on 64-bit states -----

  lemma MultiplyBack(x: nat)
    requires x < WORD
    ensures ((x * FNV_PRIME) % WORD * PRIME_INVERSE) % WORD == x
    ensures ((x * PRIME_INVERSE) % WORD * FNV_PRIME) % WORD == x
  {
    var q := FNV_PRIME * PRIME_INVERSE / WORD;
    var k := x * FNV_PRIME / WORD;
    var j := x * PRIME_INVERSE / WORD;
    assert FNV_PRIME * PRIME_INVERSE == q * WORD + 1;
    assert (x * FNV_PRIME) % WORD == x * FNV_PRIME - k * WORD;
    ModShift(x, x * q - k * PRIME_INVERSE);
    assert (x * PRIME_INVERSE) % WORD == x * PRIME_INVERSE - j * WORD;
    ModShift(x, x * q - j * FNV_PRIME);
  }

  lemma ModShift(x: nat, k: int)
    requires x < WORD && 0 <= x + k * WORD
    ensures (x + k * WORD) % WORD == x
  {
  }

  /** Each FNV-1a round permutes the 64-bit states for a fixed byte. */
  lemma RoundBijective(h: nat, c: char)
    requires h < WORD && c as int < 256
    ensures Unround(Round(h, c), c) == h
    ensures Unround(h, c) < WORD && Round(Unround(h, c), c) == h
  {
    var b := c as int;
    XorBelowWord(h, b);
    MultiplyBack(Xor(h, b));
    XorInvolution(h, b);
    var u := (h * PRIME_INVERSE) % WORD;
    XorBelowWord(u, b);
    XorInvolution(u, b);
    MultiplyBack(h);
  }

  lemma {:induction false} FnvBelowWord(h: nat, s: string)
    requires h < WORD
    ensures FnvFrom(h, s) < WORD
    decreases |s|
  {
    if s != "" { FnvBelowWord(Round(h, s[0]), s[1..]); }
  }

  lemma {:induction false} FnvInjectiveInState(h: nat, g: nat, s: string)
    requires h < WORD && g < WORD && IsBytes(s) && FnvFrom(h, s) == FnvFrom(g, s)
    ensures h == g
    decreases |s|
  {
    if s != "" {
      FnvInjectiveInState(Round(h, s[0]), Round(g, s[0]), s[1..]);
      RoundBijective(h, s[0]);
      RoundBijective(g, s[0]);
    }
  }

  lemma {:induction false} FnvConcat(h: nat, s: string, t: string)
    ensures FnvFrom(h, s + t) == FnvFrom(FnvFrom(h, s), t)
    decreases |s|
  {
    if s == "" {
      assert s + t == t;
    } else {
      FnvConcat(Round(h, s[0]), s[1..], t);
      assert (s + t)[1..] == s[1..] + t;
    }
  }

  // ----- two preimages that differ inside a window of four bytes never collide -----

  lemma {:induction false} XorCommutes(x: nat, y: nat)
    ensures Xor(x, y) == Xor(y, x)
    decreases x + y
  {
    if x != 0 || y != 0 { XorCommutes(x / 2, y / 2); }
  }

  /** States that agree above their low byte are less than a byte apart, and a byte moves a state by less. */
  lemma ByteMoves(h: nat, b: nat)
    requires b < 256
    ensures -256 < Xor(h, b) - h < 256
  {
    XorKeepsHighBits(h, b);
  }

  /** One round multiplies a difference of states and adds what the two bytes differ by. */
  lemma RoundDifference(s: nat, t: nat, a: char, b: char) returns (f: int, k: int)
    requires a as int < 256 && b as int < 256
    ensures -511 < f < 511 && f == Xor(s, a as int) - s - (Xor(t, b as int) - t)
    ensures Round(s, a) - Round(t, b) == (s - t + f) * FNV_PRIME - k * WORD
  {
    ByteMoves(s, a as int);
    ByteMoves(t, b as int);
    var x, y := Xor(s, a as int), Xor(t, b as int);
    f := x - s - (y - t);
    var i, j := x * FNV_PRIME / WORD, y * FNV_PRIME / WORD;
    k := i - j;
    assert Round(s, a) == x * FNV_PRIME - i * WORD;
    assert Round(t, b) == y * FNV_PRIME - j * WORD;
  }

  lemma XorInjectiveInByte(h: nat, a: nat, b: nat)
    requires Xor(h, a) == Xor(h, b)
    ensures a == b
  {
    XorCommutes(h, a);
    XorCommutes(h, b);
    XorInvolution(a, h);
    XorInvolution(b, h);
  }

  /** States that meet after one more byte agreed above their low byte before it. */
  lemma MeetingStatesAgree(r: nat, s: nat, a: char, b: char)
    requires r < WORD && s < WORD && a as int < 256 && b as int < 256
    requires Round(r, a) == Round(s, b)
    ensures r / 256 == s / 256
  {
    XorBelowWord(r, a as int);
    XorBelowWord(s, b as int);
    MultiplyBack(Xor(r, a as int));
    MultiplyBack(Xor(s, b as int));
    XorKeepsHighBits(r, a as int);
    XorKeepsHighBits(s, b as int);
  }

  // 2^40, the high part of the prime.
  const HIGH: int := 0x100_0000_0000

  /** The powers of the prime, split at 2^40 and up to whole words. */
  lemma PrimePowers()
    ensures FNV_PRIME == HIGH + 435
    ensures FNV_PRIME * FNV_PRIME == 870 * HIGH + 189225 + 0x1_0000 * WORD
    ensures FNV_PRIME * FNV_PRIME * FNV_PRIME
         == 567675 * HIGH + 82312875 + (0x1_0000 * FNV_PRIME + 870 * 0x1_0000) * WORD
    ensures WORD == 0x100_0000 * HIGH
  {
  }

  /** A sum of a multiple of 2^40 and less than 2^40 is a whole number of words only if the rest is zero. */
  lemma LowPartIsZero(high: int, low: int, k: int)
    requires high * HIGH + low == k * WORD && -HIGH < low < HIGH
    ensures low == 0 && high == k * 0x100_0000
  {
    var m := k * 0x100_0000 - high;
    assert low == m * HIGH;
  }

  /** Small differences, multiplied by three, two and one powers of the prime, cancel only if the first is zero. */
  lemma SmallDifferencesCancel(d: int, f: int, g: int, e: int, k: int)
    requires -256 < d < 256 && -511 < f < 511 && -511 < g < 511 && -256 < e < 256
    requires d * (567675 * HIGH + 82312875) + f * (870 * HIGH + 189225) + g * (HIGH + 435) - e == k * WORD
    ensures d == 0
  {
    var high := d * 567675 + f * 870 + g;
    var low := d * 82312875 + f * 189225 + g * 435 - e;
    assert high * HIGH + low == k * WORD;
    LowPartIsZero(high, low, k);
    assert -2 < d < 2;
    assert k == 0;
  }

  /** Three rounds on a difference of states. */
  lemma ThreeRounds(d: int, f: int, g: int, i: int, j: int, k: int) returns (n: int)
    ensures (((d * FNV_PRIME - i * WORD) + f) * FNV_PRIME - j * WORD + g) * FNV_PRIME - k * WORD
         == d * (567675 * HIGH + 82312875) + f * (870 * HIGH + 189225) + g * (HIGH + 435) - n * WORD
  {
    PrimePowers();
    n := k + j * FNV_PRIME + i * FNV_PRIME * FNV_PRIME
      - d * (0x1_0000 * FNV_PRIME + 870 * 0x1_0000) - f * 0x1_0000;
  }

  function State(h: nat, v: string, n: nat): nat
    requires n <= |v|
  {
    if n == 0 then h else Round(State(h, v, n - 1), v[n - 1])
  }

  lemma {:induction false} FnvIsState(h: nat, v: string, n: nat)
    requires n <= |v|
    ensures FnvFrom(h, v[..n]) == State(h, v, n)
  {
    if n > 0 {
      FnvIsState(h, v, n - 1);
      FnvConcat(h, v[..n - 1], [v[n - 1]]);
      assert v[..n] == v[..n - 1] + [v[n - 1]];
      OneRound(State(h, v, n - 1), v[n - 1]);
    }
  }

  lemma OneRound(h: nat, c: char)
    ensures FnvFrom(h, [c]) == Round(h, c)
  {
    assert [c][1..] == "";
  }

  lemma StatesOfFour(h: nat, v: string)
    requires |v| == 4
    ensures State(h, v, 3) == Round(Round(Round(h, v[0]), v[1]), v[2])
    ensures FnvFrom(h, v) == Round(State(h, v, 3), v[3])
  {
    FnvIsState(h, v, 4);
    assert v[..4] == v;
    assert State(h, v, 2) == Round(State(h, v, 1), v[1]);
  }

  /** The states after three bytes differ by the first bytes' difference times the cubed prime, and less. */
  lemma AfterThree(h: nat, v: string, w: string) returns (d: int, f: int, g: int, n: int)
    requires IsBytes(v) && IsBytes(w) && |v| == |w| == 4
    ensures d == Xor(h, v[0] as int) - Xor(h, w[0] as int) && -511 < f < 511 && -511 < g < 511
    ensures State(h, v, 3) - State(h, w, 3)
         == d * (567675 * HIGH + 82312875) + f * (870 * HIGH + 189225) + g * (HIGH + 435) - n * WORD
  {
    StatesOfFour(h, v);
    StatesOfFour(h, w);
    var r1, t1 := Round(h, v[0]), Round(h, w[0]);
    var r2, t2 := Round(r1, v[1]), Round(t1, w[1]);
    var i, j, k;
    d, i := RoundDifference(h, h, v[0], w[0]);
    f, j := RoundDifference(r1, t1, v[1], w[1]);
    g, k := RoundDifference(r2, t2, v[2], w[2]);
    n := ThreeRounds(d, f, g, i, j, k);
  }

  lemma SameHighBits(x: nat, y: nat)
    requires x / 256 == y / 256
    ensures -256 < x - y < 256
  {
  }

  /** Four bytes after one state that lead to one state start with the same byte. */
  lemma FirstOfFour(h: nat, v: string, w: string)
    requires IsBytes(v) && IsBytes(w) && |v| == |w| == 4 && FnvFrom(h, v) == FnvFrom(h, w)
    ensures v[0] == w[0]
  {
    StatesOfFour(h, v);
    StatesOfFour(h, w);
    var r3: int, t3: int := State(h, v, 3), State(h, w, 3);
    MeetingStatesAgree(r3, t3, v[3], w[3]);
    SameHighBits(r3, t3);
    XorKeepsHighBits(h, v[0] as int);
    XorKeepsHighBits(h, w[0] as int);
    SameHighBits(Xor(h, v[0] as int), Xor(h, w[0] as int));
    var d, f, g, n := AfterThree(h, v, w);
    SmallDifferencesCancel(d, f, g, r3 - t3, n);
    XorInjectiveInByte(h, v[0] as int, w[0] as int);
  }

  lemma {:induction false} WindowStates(h: nat, v: string, w: string)
    requires h < WORD && IsBytes(v) && IsBytes(w) && |v| == |w| <= 4
    requires FnvFrom(h, v) == FnvFrom(h, w)
    ensures v == w
    decreases |v|
  {
    if v != "" {
      var pad := "aaaa"[|v|..];
      FnvConcat(h, v, pad);
      FnvConcat(h, w, pad);
      FirstOfFour(h, v + pad, w + pad);
      assert (v + pad)[0] == v[0] && (w + pad)[0] == w[0];
      WindowStates(Round(h, v[0]), v[1..], w[1..]);
      assert v == [v[0]] + v[1..] && w == [w[0]] + w[1..];
    }
  }

  lemma FnvOfThree(before: string, v: string, after: string)
    ensures Fnv(before + v + after) == FnvFrom(FnvFrom(FnvFrom(OFFSET_BASIS, before), v), after)
  {
    FnvConcat(OFFSET_BASIS, before + v, after);
    FnvConcat(OFFSET_BASIS, before, v);
  }

  /**
   * Equal-length texts that differ only inside one window of at most four adjacent
   * bytes never collide, whatever surrounds the window.
   */
  lemma WindowNeverCollides(before: string, v: string, w: string, after: string)
    requires IsBytes(before) && IsBytes(v) && IsBytes(w) && IsBytes(after)
    requires |v| == |w| <= 4 && v != w
    ensures Fnv(before + v + after) != Fnv(before + w + after)
  {
    var h := FnvFrom(OFFSET_BASIS, before);
    FnvBelowWord(OFFSET_BASIS, before);
    FnvOfThree(before, v, after);
    FnvOfThree(before, w, after);
    FnvBelowWord(h, v);
    FnvBelowWord(h, w);
    if FnvFrom(FnvFrom(h, v), after) == FnvFrom(FnvFrom(h, w), after) {
      FnvInjectiveInState(FnvFrom(h, v), FnvFrom(h, w), after);
      WindowStates(h, v, w);
    }
  }

  // ----- keys of one invocation -----

  lemma SixteenTimes(n: nat)
    requires n > 0
    ensures Pow2(4 * n) == 16 * Pow2(4 * (n - 1))
  {
    var k := 4 * (n - 1);
    assert 4 * n == k + 4;
    assert Pow2(k + 1) == 2 * Pow2(k);
    assert Pow2(k + 2) == 2 * Pow2(k + 1);
    assert Pow2(k + 3) == 2 * Pow2(k + 2);
    assert Pow2(k + 4) == 2 * Pow2(k + 3);
  }

  lemma {:induction false} HexInjective(g: nat, h: nat, width: nat)
    requires g < Pow2(4 * width) && h < Pow2(4 * width) && Hex(g, width) == Hex(h, width)
    ensures g == h
    decreases width
  {
    if width > 0 {
      var s, t := Hex(g, width), Hex(h, width);
      assert s[..width - 1] == Hex(g / 16, width - 1) && t[..width - 1] == Hex(h / 16, width - 1);
      assert s[width - 1] == HexDigit(g % 16) && t[width - 1] == HexDigit(h % 16);
      SixteenTimes(width);
      HexInjective(g / 16, h / 16, width - 1);
    }
  }

  /** Keys of one run coincide exactly when the hashes of their preimages do. */
  lemma KeysEqualIffHashesEqual(runId: string, p: string, e: string, n: nat, q: string, f: string, m: nat)
    ensures StepKeyFor(runId, p, e, n) == StepKeyFor(runId, q, f, m)
       <==> Fnv(Preimage(p, e, n)) == Fnv(Preimage(q, f, m))
  {
    var g, h := Fnv(Preimage(p, e, n)), Fnv(Preimage(q, f, m));
    FnvBelowWord(OFFSET_BASIS, Preimage(p, e, n));
    FnvBelowWord(OFFSET_BASIS, Preimage(q, f, m));
    if StepKeyFor(runId, p, e, n) == StepKeyFor(runId, q, f, m) {
      assert StepKeyFor(runId, p, e, n)[|runId| + 1..] == Hex(g, 16);
      assert StepKeyFor(runId, q, f, m)[|runId| + 1..] == Hex(h, 16);
      Pow2Of64();
      HexInjective(g, h, 16);
    }
  }

  lemma Pow2Of64()
    ensures Pow2(64) == WORD
  {
    assert Pow2(4) == 16;
    Pow2Adds(4, 4);
    Pow2Adds(8, 8);
    Pow2Adds(16, 16);
    Pow2Adds(32, 32);
  }

  lemma {:induction false} Pow2Adds(j: nat, k: nat)
    ensures Pow2(j + k) == Pow2(j) * Pow2(k)
    decreases j
  {
    if j > 0 { Pow2Adds(j - 1, k); }
  }

  lemma ItoaIsBytes(n: nat)
    ensures IsBytes(Itoa(n)) && '|' !in Itoa(n)
  {
    forall i | 0 <= i < |Itoa(n)|
      ensures Itoa(n)[i] as int < 256
    {
      assert Itoa(n)[i] in Itoa(n);
    }
  }

  /** Without its last four digits a longer numeral is that of the ten-thousandth part. */
  lemma LastFourDigits(n: nat)
    ensures n < 10000 ==> |Itoa(n)| <= 4
    ensures n >= 10000 ==> |Itoa(n)| > 4 && Itoa(n)[..|Itoa(n)| - 4] == Itoa(n / 10000)
  {
    if n >= 10000 {
      var a, b, c := n / 10, n / 100, n / 1000;
      assert a / 10 == b && b / 10 == c && c / 10 == n / 10000;
      assert Itoa(n) == Itoa(a) + [Digit(n % 10)];
      assert Itoa(a) == Itoa(b) + [Digit(a % 10)];
      assert Itoa(b) == Itoa(c) + [Digit(b % 10)];
      assert Itoa(c) == Itoa(n / 10000) + [Digit(c % 10)];
    } else {
      FewDigits(n);
    }
  }

  lemma FewDigits(n: nat)
    requires n < 10000
    ensures |Itoa(n)| <= 4
  {
    assert n >= 10 ==> Itoa(n) == Itoa(n / 10) + [Digit(n % 10)];
    assert n >= 100 ==> Itoa(n / 10) == Itoa(n / 10 / 10) + [Digit(n / 10 % 10)];
    assert n >= 1000 ==> Itoa(n / 10 / 10) == Itoa(n / 10 / 10 / 10) + [Digit(n / 10 / 10 % 10)];
  }

  /** Such ordinals have numerals that differ, and only in their last four digits. */
  lemma OrdinalWindow(n: nat, m: nat) returns (cut: nat)
    requires n != m && |Itoa(n)| == |Itoa(m)| && n / 10000 == m / 10000
    ensures cut <= |Itoa(n)| <= cut + 4
    ensures Itoa(n)[..cut] == Itoa(m)[..cut] && Itoa(n)[cut..] != Itoa(m)[cut..]
  {
    LastFourDigits(n);
    LastFourDigits(m);
    cut := if n < 10000 then 0 else |Itoa(n)| - 4;
    if Itoa(n)[cut..] == Itoa(m)[cut..] {
      assert Itoa(n) == Itoa(n)[..cut] + Itoa(n)[cut..];
      assert Itoa(m) == Itoa(m)[..cut] + Itoa(m)[cut..];
      ParseNatOfItoa(n);
      ParseNatOfItoa(m);
    }
  }

  lemma PreimageWindow(parent: string, edge: string, n: nat, cut: nat)
    requires cut <= |Itoa(n)|
    ensures Preimage(parent, edge, n) == parent + "|" + edge + "|" + Itoa(n)[..cut] + Itoa(n)[cut..] + ""
  {
    var s := Itoa(n);
    assert s == s[..cut] + s[cut..];
  }

  /**
   * Two emits over one edge in one invocation get different keys whenever their ordinals have
   * equally many digits and agree in all but the last four: so emits 0..9 are pairwise distinct, and
   * so are emits 10..99, 100..999, 1000..9999, and any ten thousand that start at a multiple of it.
   */
  lemma OrdinalsNeverCollide(runId: string, parent: string, edge: string, n: nat, m: nat)
    requires IsBytes(parent) && IsBytes(edge)
    requires n != m && |Itoa(n)| == |Itoa(m)| && n / 10000 == m / 10000
    ensures StepKeyFor(runId, parent, edge, n) != StepKeyFor(runId, parent, edge, m)
  {
    KeysEqualIffHashesEqual(runId, parent, edge, n, parent, edge, m);
    ItoaIsBytes(n);
    ItoaIsBytes(m);
    var cut := OrdinalWindow(n, m);
    var head := parent + "|" + edge + "|" + Itoa(n)[..cut];
    PreimageWindow(parent, edge, n, cut);
    PreimageWindow(parent, edge, m, cut);
    WindowNeverCollides(head, Itoa(n)[cut..], Itoa(m)[cut..], "");
  }

  /** Every derived key has one length, however deep the chain that led to it. */
  lemma {:induction false} KeyLengthIsFixed(runId: string, parent: string, edges: seq<(string, nat)>)
    requires |edges| > 0
    ensures |ChainKey(runId, parent, edges)| == |runId| + 17
    decreases |edges|
  {
    if |edges| > 1 { KeyLengthIsFixed(runId, StepKeyFor(runId, parent, edges[0].0, edges[0].1), edges[1..]); }
  }

  /** The key reached from `parent` along a chain of (edge, ordinal) hops. */
  function ChainKey(runId: string, parent: string, edges: seq<(string, nat)>): string
    decreases |edges|
  {
    if edges == [] then parent
    else ChainKey(runId, StepKeyFor(runId, parent, edges[0].0, edges[0].1), edges[1..])
  }

  /** No key of a run holds `|` when its run id holds none. */
  lemma {:induction false} ChainKeyClean(runId: string, parent: string, edges: seq<(string, nat)>)
    requires '|' !in runId && '|' !in parent
    ensures '|' !in ChainKey(runId, parent, edges)
    decreases |edges|
  {
    if edges != [] {
      HexClean(Fnv(Preimage(parent, edges[0].0, edges[0].1)), 16);
      ChainKeyClean(runId, StepKeyFor(runId, parent, edges[0].0, edges[0].1), edges[1..]);
    }
  }

  lemma {:induction false} HexClean(h: nat, width: nat)
    ensures '|' !in Hex(h, width)
    decreases width
  {
    if width > 0 { HexClean(h / 16, width - 1); }
  }

  // ----- the preimage determines its three parts -----

  datatype Parts = Parts(parent: string, edge: string, ordinal: Option<nat>)

  function LastIndexOf(s: string, sep: char): (i: int)
    ensures -1 <= i < |s|
    ensures i >= 0 ==> s[i] == sep
  {
    if s == "" then -1
    else if s[|s| - 1] == sep then |s| - 1
    else LastIndexOf(s[..|s| - 1], sep)
  }

  lemma {:induction false} LastIndexOfBefore(front: string, sep: char, clean: string)
    requires sep !in clean
    ensures LastIndexOf(front + [sep] + clean, sep) == |front|
    decreases |clean|
  {
    var s := front + [sep] + clean;
    if clean != "" {
      LastIndexOfBefore(front, sep, clean[..|clean| - 1]);
      assert s[..|s| - 1] == front + [sep] + clean[..|clean| - 1];
    }
  }

  /** The parent ends at the first bar, the ordinal starts after the last one. */
  function Decode(preimage: string): Parts {
    var i := IndexOf(preimage, '|');
    var j := LastIndexOf(preimage, '|');
    if i < j then Parts(preimage[..i], preimage[i + 1..j], ParseNat(preimage[j + 1..]))
    else Parts(preimage, "", None)
  }

  /** The preimage decodes uniquely even when the edge id itself contains bars. */
  lemma PreimageDecodes(parent: string, edge: string, ordinal: nat)
    requires '|' !in parent
    ensures Decode(Preimage(parent, edge, ordinal)) == Parts(parent, edge, Some(ordinal))
  {
    var s := Preimage(parent, edge, ordinal);
    var digits := Itoa(ordinal);
    var j := |parent| + 1 + |edge|;
    assert s == parent + ['|'] + (edge + "|" + digits);
    assert s == (parent + "|" + edge) + ['|'] + digits;
    assert s[..|parent|] == parent && s[|parent| + 1..j] == edge && s[j + 1..] == digits;
    assert IndexOf(s, '|') == |parent| by { IndexOfAfter(parent, '|', edge + "|" + digits); }
    assert LastIndexOf(s, '|') == j by {
      ItoaIsBytes(ordinal);
      LastIndexOfBefore(parent + "|" + edge, '|', digits);
    }
    ParseNatOfItoa(ordinal);
  }
}
