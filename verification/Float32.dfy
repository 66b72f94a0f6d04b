/** Powers of two over the reals, and the float32 and bfloat16 numbers as the reals their bits
    stand for. */
module Float32 {
  import opened Common

  function Pow2(e: int): (p: real)
    ensures p > 0.0
    decreases if e < 0 then -e else e
  {
    if e == 0 then 1.0 else if e > 0 then 2.0 * Pow2(e - 1) else Pow2(e + 1) / 2.0
  }

  lemma {:induction false} Pow2Next(e: int)
    ensures Pow2(e + 1) == 2.0 * Pow2(e)
  {
  }

  lemma {:induction false} Pow2Mono(e: int, f: int)
    requires e <= f
    ensures Pow2(e) <= Pow2(f)
    decreases f - e
  {
    if e < f {
      Pow2Mono(e, f - 1);
      Pow2Next(f - 1);
    }
  }

  lemma {:induction false} Pow2Sum(e: nat, f: nat)
    ensures Pow2(e + f) == Pow2(e) * Pow2(f)
  {
    if e > 0 { Pow2Sum(e - 1, f); }
  }

  lemma {:induction false} Pow2Negative(e: int)
    requires e >= 0
    ensures Pow2(e) * Pow2(-e) == 1.0
  {
    if e > 0 {
      Pow2Negative(e - 1);
      assert Pow2(e) == 2.0 * Pow2(e - 1) && Pow2(-e) == Pow2(-e + 1) / 2.0;
    }
  }

  lemma Pow2Twenty()
    ensures Pow2(20) == 1_048_576.0
  {
    assert Pow2(5) == 32.0 by { assert Pow2(2) == 4.0; }
    Pow2Sum(5, 5);
    Pow2Sum(10, 10);
  }

  /** floor(log2 x) for x in [2^e, 2^top), found by going up from e. */
  function FloorLog2(x: real, e: int, top: int): (r: int)
    requires e < top && Pow2(e) <= x < Pow2(top)
    ensures e <= r < top && Pow2(r) <= x < Pow2(r + 1)
    decreases top - e
  {
    if x < Pow2(e + 1) then e else FloorLog2(x, e + 1, top)
  }

  lemma Log2Unique(x: real, e: int, f: int)
    requires Pow2(e) <= x < Pow2(e + 1) && Pow2(f) <= x < Pow2(f + 1)
    ensures e == f
  {
    if e < f { Pow2Mono(e + 1, f); }
    if f < e { Pow2Mono(f + 1, e); }
  }

  /** Round to the nearest integer, halves to the even one. */
  function Rint(x: real): (n: int)
    ensures -0.5 <= x - n as real <= 0.5 && (Abs(x - n as real) == 0.5 ==> n % 2 == 0)
  {
    var f := x.Floor;
    var d := x - f as real;
    if d < 0.5 then f else if d > 0.5 then f + 1 else if f % 2 == 0 then f else f + 1
  }

  lemma Pow2Zero()
    ensures Pow2(0) == 1.0
  {
  }

  lemma {:induction false} Pow2Add(e: int, k: nat)
    ensures Pow2(e + k) == Pow2(k) * Pow2(e)
  {
    hide Pow2;
    Pow2Zero();
    if k > 0 {
      Pow2Add(e, k - 1);
      Pow2AddOne(e, k - 1);
    }
  }

  lemma Pow2AddOne(e: int, k: nat)
    requires Pow2(e + k) == Pow2(k) * Pow2(e)
    ensures Pow2(e + (k + 1)) == Pow2(k + 1) * Pow2(e)
  {
    hide Pow2;
    Pow2Next(e + k);
    Pow2Next(k);
    Doubles(Pow2(k), Pow2(e), Pow2(k + 1));
  }

  lemma Doubles(a: real, b: real, c: real)
    requires c == 2.0 * a
    ensures 2.0 * (a * b) == c * b
  {
  }

  /* ------------------------------------------------------------ bits */

  /** The steps of one binade. */
  const MANT: nat := 0x80_0000

  /** What the 31 bits below the sign stand for.  The top exponent belongs to infinities and
      NaNs; it is read as one more binade here, and results about numbers exclude it. */
  function Magnitude(bits: nat): (x: real)
    ensures x >= 0.0
  {
    var e, m := bits / MANT, bits % MANT;
    if e == 0 then Times(m, -149) else Times(MANT + m, e - 150)
  }

  function Times(n: int, e: int): (x: real)
    ensures n >= 0 ==> x >= 0.0
  {
    n as real * Pow2(e)
  }

  lemma TimesZero(e: int)
    ensures Times(0, e) == 0.0
  {
  }

  lemma TimesMono(n: nat, k: nat, e: int)
    requires n <= k
    ensures Times(n, e) <= Times(k, e)
  {
  }

  lemma TimesTwo(n: nat, e: int)
    ensures Times(2 * n, e) == Times(n, e + 1)
  {
    Pow2Next(e);
  }

  /** One binade is MANT steps. */
  lemma TimesMant(e: int)
    ensures Times(MANT, e) == Pow2(e + 23)
  {
    Pow2Twenty();
    Pow2Sum(20, 3);
    Pow2Add(e, 23);
  }

  lemma MagnitudeBelow(bits: nat)
    requires bits < 256 * MANT
    ensures Magnitude(bits) < Pow2(129)
    ensures bits < 255 * MANT ==> Magnitude(bits) < Pow2(128)
  {
    hide Pow2, Times;
    var e, m := bits / MANT, bits % MANT;
    var f := if e == 0 then 1 else e;
    TimesMant(f - 150);
    TimesTwo(MANT, f - 150);
    TimesMant(f - 149);
    TimesLess(if e == 0 then m else MANT + m, 2 * MANT, f - 150);
    Pow2Mono(f - 126, 129);
    if e < 255 { Pow2Mono(f - 126, 128); }
  }

  lemma TimesLess(n: nat, k: nat, e: int)
    requires n < k
    ensures Times(n, e) < Times(k, e)
  {
  }

  /** A pattern with n in its mantissa's place or above is at least n smallest steps. */
  lemma MagnitudeAtLeast(bits: nat, n: nat)
    requires n <= bits && n <= MANT
    ensures Magnitude(bits) >= Times(n, -149)
  {
    hide Pow2, Times;
    var e, m := bits / MANT, bits % MANT;
    if e == 0 {
      TimesMono(n, m, -149);
    } else {
      TimesMono(n, MANT, -149);
      TimesMono(MANT, MANT + m, e - 150);
      TimesMant(-149);
      TimesMant(e - 150);
      Pow2Mono(-126, e - 127);
    }
  }

  /** Far enough below the overflow that rounding cannot reach it. */
  predicate InRange(x: real) {
    0.0 <= x < Pow2(127)
  }

  function BinadeFrom(x: real, least: int, top: int): (e: int)
    requires least < top && 0.0 <= x < Pow2(top)
    ensures least <= e < top && x < Pow2(e + 1) && (e > least ==> Pow2(e) <= x)
  {
    Pow2Next(least);
    if x < Pow2(least) then least else FloorLog2(x, least, top)
  }

  /** The binade of x; the subnormals count as the lowest. */
  function Binade(x: real): (e: int)
    requires InRange(x)
    ensures -126 <= e <= 126 && x < Pow2(e + 1) && (e > -126 ==> Pow2(e) <= x)
  {
    BinadeFrom(x, -126, 127)
  }

  /** `astype(float32)`: the number of steps of its binade nearest to x.  A full binade carries
      into the exponent. */
  function Nearest(x: real): (bits: nat)
    requires InRange(x)
  {
    var e := Binade(x);
    StepsInRange(x, e);
    (e + 126) * MANT + Steps(x, e)
  }

  function Steps(x: real, e: int): int {
    Rint(x / Pow2(e - 23))
  }

  lemma StepsInRange(x: real, e: int)
    requires 0.0 <= x < Pow2(e + 1) && (e > -126 ==> Pow2(e) <= x)
    ensures 0 <= Steps(x, e) <= 2 * MANT && (e > -126 ==> MANT <= Steps(x, e))
  {
    hide Pow2;
    var u, r := Pow2(e - 23), x / Pow2(e - 23);
    TimesMant(e - 23);
    TimesMant(e - 22);
    TimesTwo(MANT, e - 23);
    assert r * u == x;
    assert Times(2 * MANT, e - 23) == (2 * MANT) as real * u;
    Between(r, u, (2 * MANT) as real);
    if e > -126 {
      assert Times(MANT, e - 23) == MANT as real * u;
      NotBelow(r, u, MANT as real);
    }
  }

  lemma TimesLower(a: real, b: real, u: real)
    requires a < b && u > 0.0
    ensures a * u < b * u
  {
    assert (b - a) * u > 0.0;
  }

  lemma Between(r: real, u: real, n: real)
    requires u > 0.0 && 0.0 <= r * u < n * u
    ensures 0.0 <= r < n
  {
    if r < 0.0 { TimesLower(r, 0.0, u); }
    if r > n { TimesLower(n, r, u); }
  }

  lemma NotBelow(r: real, u: real, n: real)
    requires u > 0.0 && n * u <= r * u
    ensures n <= r
  {
    if r < n { TimesLower(r, n, u); }
  }

  /** The bits say what was rounded to, carry or not. */
  lemma NearestIsSteps(x: real)
    requires InRange(x)
    ensures Nearest(x) < 255 * MANT
    ensures Magnitude(Nearest(x)) == Times(Steps(x, Binade(x)), Binade(x) - 23)
  {
    hide Pow2, Times, Steps;
    var e := Binade(x);
    StepsInRange(x, e);
    var n := Steps(x, e);
    if n < MANT {
      assert Nearest(x) == n;
    } else if n < 2 * MANT {
      assert Nearest(x) == (e + 127) * MANT + (n - MANT);
      Fields(e + 127, n - MANT);
    } else {
      assert Nearest(x) == (e + 128) * MANT + 0;
      Fields(e + 128, 0);
      TimesTwo(MANT, e - 23);
    }
  }

  lemma Fields(e: nat, m: nat)
    requires m < MANT
    ensures (e * MANT + m) / MANT == e && (e * MANT + m) % MANT == m
  {
  }

  /** Rounding is off by at most half a step of the binade. */
  lemma RoundingError(x: real)
    requires InRange(x)
    ensures Abs(Magnitude(Nearest(x)) - x) <= Pow2(Binade(x) - 24)
  {
    hide Pow2, Magnitude, Nearest, Times, Steps;
    var e := Binade(x);
    NearestIsSteps(x);
    Pow2Next(e - 24);
    StepError(x, e);
  }

  lemma StepError(x: real, e: int)
    ensures Abs(x - Times(Steps(x, e), e - 23)) <= Pow2(e - 23) / 2.0
  {
    hide Pow2, Rint;
    HalfStep(x, Pow2(e - 23), Steps(x, e));
  }

  lemma HalfStep(x: real, s: real, n: int)
    requires s > 0.0 && -0.5 <= x / s - n as real <= 0.5
    ensures Abs(x - n as real * s) <= s / 2.0
  {
    var r := x / s;
    assert r * s == x;
    HalfTimes(r - n as real, s);
    Distributes(r, n as real, s);
  }

  lemma Distributes(a: real, b: real, u: real)
    ensures (a - b) * u == a * u - b * u
  {
  }

  lemma HalfTimes(d: real, s: real)
    requires s > 0.0 && -0.5 <= d <= 0.5
    ensures -(s / 2.0) <= d * s <= s / 2.0
  {
  }

  /** From 2^-140 on, subnormals included, it is at most one part in 1024. */
  lemma RelativeError(x: real)
    requires InRange(x) && Pow2(-140) <= x
    ensures 1024.0 * Abs(Magnitude(Nearest(x)) - x) <= x
  {
    hide Pow2, Magnitude, Nearest;
    var e := Binade(x);
    RoundingError(x);
    Pow2Twenty();
    Pow2Add(e - 24, 10);
    Pow2Sum(10, 10);
    assert Pow2(10) == 1024.0 by { Square(Pow2(10)); }
    if e > -126 { Pow2Mono(e - 14, e); }
  }

  /** A result of float32 arithmetic.  What overflows is left as it is; no number of a row does. */
  function Round32(x: real): real {
    if !InRange(Abs(x)) then x else if x < 0.0 then -Magnitude(Nearest(-x)) else Magnitude(Nearest(x))
  }

  /** Below 128 rounding to float32 is off by at most 2^-18. */
  lemma RoundingBelow128(x: real)
    requires Abs(x) < 128.0
    ensures Abs(Round32(x) - x) <= 1.0 / 262144.0
  {
    hide Pow2, Magnitude, Nearest, Binade;
    var a := Abs(x);
    SomePowers();
    Pow2Mono(7, 127);
    RoundingError(a);
    var e := Binade(a);
    if e >= 7 { Pow2Mono(7, e); }
    Pow2Mono(e - 24, -18);
  }

  lemma SomePowers()
    ensures Pow2(7) == 128.0 && Pow2(-18) == 1.0 / 262144.0
  {
    assert Pow2(4) == 16.0;
    Pow2Twenty();
    Pow2Negative(18);
  }

  lemma SquareLower(a: real, b: real)
    requires 0.0 < a < b
    ensures a * a < b * b
  {
    TimesLower(a, b, a);
    TimesLower(a, b, b);
  }

  lemma Square(p: real)
    requires p > 0.0 && p * p == 1_048_576.0
    ensures p == 1024.0
  {
    if p < 1024.0 { SquareLower(p, 1024.0); }
    if p > 1024.0 { SquareLower(1024.0, p); }
  }

  /* ------------------------------------------------------------ bytes */

  /** Four little-endian bytes of a pattern without a sign. */
  function Put(bits: nat): (b: seq<byte>)
    requires bits < 256 * MANT
    ensures |b| == 4
  {
    assert bits / 16777216 < 256;
    [bits % 256, bits / 256 % 256, bits / 65536 % 256, bits / 16777216]
  }

  function Get(b: seq<byte>): nat
    requires |b| == 4
  {
    var b0: int, b1: int, b2: int, b3: int := b[0], b[1], b[2], b[3];
    b0 + 256 * b1 + 65536 * b2 + 16777216 * b3
  }

  lemma GetPut(bits: nat)
    requires bits < 256 * MANT
    ensures Get(Put(bits)) == bits
  {
    var x, y := bits / 256, bits / 65536;
    assert x / 256 == y && y / 256 == bits / 16777216;
    assert bits == 256 * x + bits % 256 && x == 256 * y + x % 256 && y == 256 * (y / 256) + y % 256;
  }

  /** `bf16_to_f32`: the two bytes are the upper half of a float32. */
  function Bf16(lo: byte, hi: byte): (x: real)
    ensures Abs(x) < Pow2(129)
  {
    MagnitudeBelow((lo + 256 * (hi % 128)) * 65536);
    if hi >= 128 then -Magnitude(UpperHalf(lo, hi)) else Magnitude(UpperHalf(lo, hi))
  }

  function UpperHalf(lo: byte, hi: byte): nat {
    (lo + 256 * (hi % 128)) * 65536
  }

  /** Neither an infinity nor a NaN. */
  predicate Number(lo: byte, hi: byte) {
    UpperHalf(lo, hi) < 255 * MANT
  }

  /** What the two bytes are: a sign, eight bits of exponent and seven of fraction; a number
      unless the exponent is all ones. */
  lemma Bf16Is(lo: byte, hi: byte)
    ensures var e, m := 2 * (hi % 128) + lo / 128, lo % 128;
            && (Number(lo, hi) <==> e != 255)
            && Abs(Bf16(lo, hi)) == (if e == 0 then m as real * Pow2(-133) else (128 + m) as real * Pow2(e - 134))
            && (if hi < 128 then Bf16(lo, hi) >= 0.0 else Bf16(lo, hi) <= 0.0)
  {
    hide Pow2, Times, UpperHalf, Magnitude;
    var e, m := 2 * (hi % 128) + lo / 128, lo % 128;
    UpperFields(lo, hi);
    MagnitudeOf(UpperHalf(lo, hi), e, m);
  }

  lemma UpperFields(lo: byte, hi: byte)
    ensures var e, m := 2 * (hi % 128) + lo / 128, lo % 128;
            UpperHalf(lo, hi) == e * MANT + m * 65536 && m < 128 && e < 256
  {
  }

  lemma MagnitudeOf(bits: nat, e: nat, m: nat)
    requires bits == e * MANT + m * 65536 && m < 128
    ensures Magnitude(bits) == if e == 0 then m as real * Pow2(-133) else (128 + m) as real * Pow2(e - 134)
  {
    hide Pow2, Times;
    Fields(e, m * 65536);
    if e == 0 {
      SixteenBelow(m, -149);
    } else {
      SixteenBelow(128 + m, e - 150);
    }
  }

  lemma SixteenBelow(n: nat, e: int)
    ensures Times(n * 65536, e) == n as real * Pow2(e + 16)
  {
    hide Pow2;
    Pow2Sixteen();
    Pow2Add(e, 16);
    Scaled(n, 65536.0, Pow2(e));
  }

  lemma Scaled(n: nat, a: real, p: real)
    requires a == 65536.0
    ensures (n * 65536) as real * p == n as real * (a * p)
  {
  }

  /** A bfloat16 number is zero or at least 2^-133, and below 2^128. */
  lemma Bf16Range(lo: byte, hi: byte)
    requires Number(lo, hi)
    ensures Bf16(lo, hi) == 0.0 || Pow2(-133) <= Abs(Bf16(lo, hi)) < Pow2(128)
  {
    hide Pow2, Times;
    var bits := UpperHalf(lo, hi);
    MagnitudeBelow(bits);
    if bits == 0 {
      assert Magnitude(0) == Times(0, -149);
      TimesZero(-149);
    } else {
      MagnitudeAtLeast(bits, 65536);
      SixteenSteps();
    }
  }

  lemma SixteenSteps()
    ensures Times(65536, -149) == Pow2(-133)
  {
    Pow2Sixteen();
    Pow2Add(-149, 16);
  }

  lemma Pow2Sixteen()
    ensures Pow2(16) == 65536.0
  {
    Pow2Twenty();
    Pow2Sum(16, 4);
    assert Pow2(4) == 16.0;
  }
}
