/** The MXFP4 number format of tools/make_tiny_checkpoint.py, over the reals: blocks of 32 share
    a power-of-two scale, elements are the eight E2M1 magnitudes with a sign (section 6.3 of the
    OCP Microscaling Formats specification v1.0). */
module Mxfp4 {
  import opened Common
  import opened Float32

  const GROUP: nat := 32
  const LUT: seq<real> := [0.0, 0.5, 1.0, 1.5, 2.0, 3.0, 4.0, 6.0]

  /* ------------------------------------------------------------ the block exponent */

  /** Below this a block maximum is treated as this. */
  const TINY: real := 1.0 / 1_000_000_000_000_000_000_000_000_000_000.0

  /** 2^-100 <= TINY < 2^-99. */
  lemma TinyIsBetween()
    ensures Pow2(-100) <= TINY < Pow2(-99)
  {
    hide Pow2, TINY;
    Pow2Hundred();
    Pow2Negative(100);
    Pow2Negative(99);
    Reciprocals(Pow2(100), Pow2(-100), Pow2(99), Pow2(-99));
  }

  lemma Reciprocals(a: real, ra: real, b: real, rb: real)
    requires a * ra == 1.0 && b * rb == 1.0 && a > 0.0 && b > 0.0 && ra > 0.0 && rb > 0.0
    requires a >= 1_000_000_000_000_000_000_000_000_000_000.0 > b
    ensures ra <= TINY < rb
  {
    assert ra == 1.0 / a && rb == 1.0 / b;
  }

  lemma Pow2Hundred()
    ensures Pow2(100) >= 1_000_000_000_000_000_000_000_000_000_000.0 > Pow2(99)
  {
    Pow2Twenty();
    hide Pow2;
    Pow2Sum(20, 20);
    Pow2Sum(40, 40);
    Pow2Sum(80, 20);
    Pow2Next(99);
  }

  /** A float32 is below 2^128 in magnitude. */
  ghost predicate Finite(b: seq<real>) {
    forall i :: 0 <= i < |b| ==> Abs(b[i]) < Pow2(128)
  }

  function Floored(x: real): real {
    if x > TINY then x else TINY
  }

  lemma FlooredInRange(b: seq<real>)
    requires Finite(b)
    ensures Pow2(-100) <= Floored(MaxAbs(b)) < Pow2(128)
  {
    TinyIsBetween();
    Pow2Mono(-99, 128);
  }

  /** The shared exponent of a block: its maximum lands in [4, 8) times the scale. */
  function Exponent(b: seq<real>): (e: int)
    requires Finite(b)
    ensures -102 <= e <= 125
    ensures Pow2(e + 2) <= Floored(MaxAbs(b)) < Pow2(e + 3)
  {
    FlooredInRange(b);
    FloorLog2(Floored(MaxAbs(b)), -100, 128) - 2
  }

  lemma ScaledBelowEight(b: seq<real>, i: nat)
    requires Finite(b) && i < |b|
    ensures Abs(b[i]) < 8.0 * Pow2(Exponent(b))
  {
    var e := Exponent(b);
    Pow2Next(e);
    Pow2Next(e + 1);
    Pow2Next(e + 2);
  }

  /* ------------------------------------------------------------ one element */

  /** The first of the n leading magnitudes closest to x. */
  function ArgMin(x: real, n: nat): (k: nat)
    requires 1 <= n <= 8
    ensures k < n && forall j :: 0 <= j < n ==> Abs(x - LUT[k]) <= Abs(x - LUT[j])
    ensures forall j :: 0 <= j < k ==> Abs(x - LUT[k]) < Abs(x - LUT[j])
  {
    if n == 1 then 0 else
      var k := ArgMin(x, n - 1);
      if Abs(x - LUT[n - 1]) < Abs(x - LUT[k]) then n - 1 else k
  }

  /** Magnitude index, plus eight for a negative element. */
  function Nibble(w: real, e: int): (n: nat)
    ensures n < 16
  {
    var x := w / Pow2(e);
    ArgMin(Abs(x), 8) + if x < 0.0 then 8 else 0
  }

  /** The value table of the decoder. */
  function E2M1(n: nat): real
    requires n < 16
  {
    if n < 8 then LUT[n] else -LUT[n - 8]
  }

  /** The table is the format's: a sign bit, two exponent bits with a bias of one, the exponent zero
      subnormal, and one mantissa bit. */
  lemma TableIsE2M1(n: nat)
    requires n < 16
    ensures var e, m := n % 8 / 2, n % 2;
            var size := if e == 0 then 0.5 * m as real else Pow2(e - 1) * (1.0 + 0.5 * m as real);
            E2M1(n) == if n >= 8 then -size else size
  {
    assert Pow2(0) == 1.0 && Pow2(1) == 2.0 && Pow2(2) == 4.0;
    assert n == 0 || n == 1 || n == 2 || n == 3 || n == 4 || n == 5 || n == 6 || n == 7
        || n == 8 || n == 9 || n == 10 || n == 11 || n == 12 || n == 13 || n == 14 || n == 15;
  }

  function Decoded(n: nat, e: int): real
    requires n < 16
  {
    E2M1(n) * Pow2(e)
  }

  lemma AbsScaled(x: real, s: real)
    requires s > 0.0
    ensures Abs(x * s) == Abs(x) * s
  {
    if x < 0.0 { assert x * s < 0.0; } else { assert x * s >= 0.0; }
  }

  lemma Divides(w: real, s: real, x: real)
    requires s > 0.0 && x == w / s
    ensures x * s == w && Abs(x) * s == Abs(w)
  {
    AbsScaled(x, s);
  }

  /** The distance to a value, in units of the scale. */
  lemma DecodedDistance(w: real, e: int, x: real, n: nat)
    requires n < 16 && x == w / Pow2(e)
    ensures Abs(w - Decoded(n, e)) == Abs(x - E2M1(n)) * Pow2(e)
  {
    hide Pow2, E2M1, Abs;
    var s := Pow2(e);
    Divides(w, s, x);
    Distance(w, x, s, E2M1(n));
  }

  /** Among all sixteen values of the scale, the decoded one is nearest to the element. */
  lemma NearestValue(w: real, e: int, n: nat)
    requires n < 16
    ensures Abs(w - Decoded(Nibble(w, e), e)) <= Abs(w - Decoded(n, e))
  {
    hide Pow2, ArgMin, E2M1, Abs, Decoded;
    var x, k := w / Pow2(e), Nibble(w, e);
    SignedNearest(x, k, n);
    DecodedDistance(w, e, x, k);
    DecodedDistance(w, e, x, n);
    ScaleLe(Abs(x - E2M1(k)), Abs(x - E2M1(n)), Pow2(e));
  }

  lemma Distance(w: real, x: real, s: real, v: real)
    requires s > 0.0 && x * s == w
    ensures Abs(w - v * s) == Abs(x - v) * s
  {
    AbsScaled(x - v, s);
    assert (x - v) * s == w - v * s;
  }

  lemma ScaleLe(a: real, b: real, s: real)
    requires a <= b && s > 0.0
    ensures a * s <= b * s
  {
  }

  lemma SignedNearest(x: real, k: nat, n: nat)
    requires n < 16 && k == ArgMin(Abs(x), 8) + if x < 0.0 then 8 else 0
    ensures Abs(x - E2M1(k)) <= Abs(x - E2M1(n))
  {
    hide ArgMin;
    var j := if n < 8 then n else n - 8;
    assert LUT[j] >= 0.0;
    assert Abs(Abs(x) - LUT[ArgMin(Abs(x), 8)]) <= Abs(Abs(x) - LUT[j]);
  }

  /** A magnitude below eight is less than two away from its nearest value. */
  lemma WithinTwo(x: real)
    requires 0.0 <= x < 8.0
    ensures Abs(x - LUT[ArgMin(x, 8)]) < 2.0
  {
    assert LUT[7] == 6.0 && LUT[5] == 3.0 && LUT[6] == 4.0 && LUT[2] == 1.0;
  }

  /** The error of each element is less than two units of its block's scale. */
  lemma ErrorBound(b: seq<real>, i: nat)
    requires Finite(b) && i < |b|
    ensures Abs(b[i] - Decoded(Nibble(b[i], Exponent(b)), Exponent(b))) < 2.0 * Pow2(Exponent(b))
  {
    hide Finite;
    ScaledBelowEight(b, i);
    ErrorWithin(b[i], Exponent(b));
  }

  lemma ErrorWithin(w: real, e: int)
    requires Abs(w) < 8.0 * Pow2(e)
    ensures Abs(w - Decoded(Nibble(w, e), e)) < 2.0 * Pow2(e)
  {
    hide Pow2, ArgMin, Abs, LUT, E2M1, Decoded;
    var x, k := w / Pow2(e), Nibble(w, e);
    Divides(w, Pow2(e), x);
    BelowWhenScaled(Abs(x), 8.0, Pow2(e));
    SignedWithinTwo(x, k);
    DecodedDistance(w, e, x, k);
    AboveWhenScaled(Abs(x - E2M1(k)), 2.0, Pow2(e));
  }

  lemma SignedWithinTwo(x: real, k: nat)
    requires Abs(x) < 8.0 && k == ArgMin(Abs(x), 8) + if x < 0.0 then 8 else 0
    ensures k < 16 && Abs(x - E2M1(k)) < 2.0
  {
    hide ArgMin;
    WithinTwo(Abs(x));
  }

  lemma BelowWhenScaled(a: real, c: real, s: real)
    requires s > 0.0 && a * s < c * s
    ensures a < c
  {
    if a >= c { ScaleLe(c, a, s); }
  }

  lemma AtLeastWhenScaled(a: real, c: real, s: real)
    requires s > 0.0 && a * s >= c * s
    ensures a >= c
  {
    if a < c { AboveWhenScaled(a, c, s); }
  }

  lemma AboveWhenScaled(a: real, c: real, s: real)
    requires s > 0.0 && a < c
    ensures a * s < c * s
  {
  }

  /* ------------------------------------------------------------ quantising twice */

  function Quantised(b: seq<real>): (r: seq<real>)
    requires Finite(b)
    ensures |r| == |b|
  {
    seq(|b|, i requires 0 <= i < |b| => Decoded(Nibble(b[i], Exponent(b)), Exponent(b)))
  }

  /** A value of the scale quantises to itself. */
  lemma ValueIsFixed(n: nat, e: int)
    requires n < 16
    ensures Decoded(Nibble(Decoded(n, e), e), e) == Decoded(n, e)
  {
    NearestValue(Decoded(n, e), e, n);
    var d := Decoded(n, e) - Decoded(Nibble(Decoded(n, e), e), e);
    assert Abs(Decoded(n, e) - Decoded(n, e)) == 0.0;
    assert Abs(d) <= 0.0;
  }

  /** Decoded elements stay at or below six units, and a maximum of four units or more stays
      at four or more. */
  lemma MaxAfter(b: seq<real>)
    requires Finite(b)
    ensures MaxAbs(Quantised(b)) <= 6.0 * Pow2(Exponent(b))
    ensures MaxAbs(b) >= 4.0 * Pow2(Exponent(b)) ==> MaxAbs(Quantised(b)) >= 4.0 * Pow2(Exponent(b))
  {
    var e, q := Exponent(b), Quantised(b);
    forall i | 0 <= i < |b| ensures Abs(q[i]) <= 6.0 * Pow2(e) {
      DecodedAtMostSix(Nibble(b[i], e), e);
    }
    if MaxAbs(b) >= 4.0 * Pow2(e) {
      var i :| 0 <= i < |b| && Abs(b[i]) == MaxAbs(b);
      FourStays(b[i], e);
      assert Abs(q[i]) <= MaxAbs(q);
    }
  }

  lemma DecodedAtMostSix(n: nat, e: int)
    requires n < 16
    ensures Abs(Decoded(n, e)) <= 6.0 * Pow2(e)
  {
    AbsScaled(E2M1(n), Pow2(e));
    assert Abs(E2M1(n)) <= 6.0;
    ScaleLe(Abs(E2M1(n)), 6.0, Pow2(e));
  }

  lemma FourStays(w: real, e: int)
    requires Abs(w) >= 4.0 * Pow2(e)
    ensures Abs(Decoded(Nibble(w, e), e)) >= 4.0 * Pow2(e)
  {
    hide Pow2, ArgMin, Abs, LUT, E2M1, Decoded;
    var x, k := w / Pow2(e), Nibble(w, e);
    RatioAtLeast(w, Pow2(e), x, 4.0);
    SignedFour(x, k);
    DecodedSize(k, e);
    ScaleLe(4.0, Abs(E2M1(k)), Pow2(e));
  }

  lemma DecodedSize(n: nat, e: int)
    requires n < 16
    ensures Abs(Decoded(n, e)) == Abs(E2M1(n)) * Pow2(e)
  {
    AbsScaled(E2M1(n), Pow2(e));
  }

  lemma RatioAtLeast(w: real, s: real, x: real, c: real)
    requires s > 0.0 && x == w / s && Abs(w) >= c * s
    ensures Abs(x) >= c
  {
    hide Abs;
    Divides(w, s, x);
    AtLeastWhenScaled(Abs(x), c, s);
  }

  lemma SignedFour(x: real, k: nat)
    requires Abs(x) >= 4.0 && k == ArgMin(Abs(x), 8) + if x < 0.0 then 8 else 0
    ensures k < 16 && Abs(E2M1(k)) >= 4.0
  {
    NearestToFour(Abs(x));
  }

  lemma NearestToFour(x: real)
    requires x >= 4.0
    ensures LUT[ArgMin(x, 8)] >= 4.0
  {
    assert LUT[6] == 4.0;
  }

  lemma FiniteBelow(q: seq<real>)
    ensures MaxAbs(q) < Pow2(128) ==> Finite(q)
  {
  }

  /** The exponent of a quantised block is the block's own. */
  lemma SameExponent(b: seq<real>)
    requires Finite(b)
    ensures Finite(Quantised(b)) && Exponent(Quantised(b)) == Exponent(b)
  {
    hide Pow2, MaxAbs, TINY, Exponent, Quantised;
    var e, q := Exponent(b), Quantised(b);
    MaxAfter(b);
    Pow2Next(e);
    Pow2Next(e + 1);
    Pow2Next(e + 2);
    Pow2Mono(e + 3, 128);
    FiniteBelow(q);
    Log2Unique(Floored(MaxAbs(q)), Exponent(q) + 2, e + 2);
  }

  /** Quantising a second time changes nothing. */
  lemma Idempotent(b: seq<real>)
    requires Finite(b)
    ensures Finite(Quantised(b)) && Quantised(Quantised(b)) == Quantised(b)
  {
    SameExponent(b);
    var e, q := Exponent(b), Quantised(b);
    forall i | 0 <= i < |b| ensures Quantised(q)[i] == q[i] { ValueIsFixed(Nibble(b[i], e), e); }
  }

  /* ------------------------------------------------------------ rows and bytes */

  ghost predicate RowOk(row: seq<real>) {
    |row| % GROUP == 0 && Finite(row)
  }

  /** The block element i belongs to. */
  function Block(row: seq<real>, i: nat): (b: seq<real>)
    requires RowOk(row) && i < |row|
    ensures |b| == GROUP && Finite(b) && b[i % GROUP] == row[i]
  {
    var g := i / GROUP;
    assert row[g * GROUP..g * GROUP + GROUP][i % GROUP] == row[g * GROUP + i % GROUP];
    row[g * GROUP..g * GROUP + GROUP]
  }

  function Nibbles(row: seq<real>): (r: seq<nat>)
    requires RowOk(row)
    ensures |r| == |row| && forall i :: 0 <= i < |r| ==> r[i] < 16
  {
    seq(|row|, i requires 0 <= i < |row| => Nibble(row[i], Exponent(Block(row, i))))
  }

  /** The biased exponents, one byte a block; every exponent can be encoded, and 255 is never used. */
  function Scales(row: seq<real>): (r: seq<byte>)
    requires RowOk(row)
    ensures |r| == |row| / GROUP && forall g :: 0 <= g < |r| ==> 25 <= r[g] <= 252
  {
    seq(|row| / GROUP, g requires 0 <= g < |row| / GROUP => Exponent(Block(row, g * GROUP)) + 127)
  }

  /** Two nibbles a byte, the even element in the low one. */
  function Pack(n: seq<nat>): (r: seq<byte>)
    requires |n| % 2 == 0 && forall i :: 0 <= i < |n| ==> n[i] < 16
    ensures |r| == |n| / 2
  {
    seq(|n| / 2, j requires 0 <= j < |n| / 2 => n[2 * j] + 16 * n[2 * j + 1])
  }

  function Unpack(p: seq<byte>, i: nat): (n: nat)
    requires i < 2 * |p|
    ensures n < 16
  {
    if i % 2 == 0 then p[i / 2] % 16 else p[i / 2] / 16
  }

  lemma UnpackPack(n: seq<nat>, i: nat)
    requires |n| % 2 == 0 && (forall j :: 0 <= j < |n| ==> n[j] < 16) && i < |n|
    ensures Unpack(Pack(n), i) == n[i]
  {
    var j := i / 2;
    HalvesOfByte(n[2 * j], n[2 * j + 1]);
    assert i == 2 * j || i == 2 * j + 1;
  }

  lemma HalvesOfByte(lo: nat, hi: nat)
    requires lo < 16 && hi < 16
    ensures (lo + 16 * hi) % 16 == lo && (lo + 16 * hi) / 16 == hi
  {
  }

  /** A block's power of two; 255, which is not a number, silences the block. */
  ghost function Multiplier(s: byte): real {
    if s == 255 then 0.0 else Pow2(s - 127)
  }

  /** `mxfp4_dequant` on one row: fill the output from the value table, then scale it in place. */
  method DequantRow(packed: seq<byte>, scales: seq<byte>) returns (out: array<real>)
    requires 2 * |packed| <= GROUP * |scales|
    ensures fresh(out) && out.Length == 2 * |packed|
    ensures forall i :: 0 <= i < out.Length ==> out[i] == E2M1(Unpack(packed, i)) * Multiplier(scales[i / GROUP])
  {
    hide Multiplier, E2M1, Unpack;
    out := new real[2 * |packed|];
    FillPairs(packed, out);
    ScaleBlocks(out, scales);
  }

  method FillPairs(packed: seq<byte>, out: array<real>)
    requires out.Length == 2 * |packed|
    modifies out
    ensures forall i :: 0 <= i < out.Length ==> out[i] == E2M1(Unpack(packed, i))
  {
    hide E2M1, Unpack;
    for j := 0 to |packed|
      invariant forall i :: 0 <= i < 2 * j ==> out[i] == E2M1(Unpack(packed, i))
    {
      UnpackPair(packed, j);
      out[2 * j] := E2M1(packed[j] % 16);
      out[2 * j + 1] := E2M1(packed[j] / 16);
    }
  }

  method ScaleBlocks(out: array<real>, scales: seq<byte>)
    requires out.Length <= GROUP * |scales|
    modifies out
    ensures forall i :: 0 <= i < out.Length ==> out[i] == old(out[i]) * Multiplier(scales[i / GROUP])
  {
    for i := 0 to out.Length
      invariant forall k :: 0 <= k < i ==> out[k] == old(out[k]) * Multiplier(scales[k / GROUP])
      invariant forall k :: i <= k < out.Length ==> out[k] == old(out[k])
    {
      var s: int := scales[i / GROUP];
      var mult := if s == 255 then 0.0 else Pow2(s - 127);
      out[i] := out[i] * mult;
    }
  }

  lemma UnpackPair(p: seq<byte>, j: nat)
    requires j < |p|
    ensures Unpack(p, 2 * j) == p[j] % 16 && Unpack(p, 2 * j + 1) == p[j] / 16 && p[j] / 16 < 16
  {
  }

  lemma EvenRow(row: seq<real>)
    requires RowOk(row)
    ensures |row| % 2 == 0 && |row| == GROUP * (|row| / GROUP)
  {
  }

  lemma BlockOfGroup(row: seq<real>, i: nat)
    requires RowOk(row) && i < |row|
    ensures i / GROUP < |row| / GROUP && i / GROUP * GROUP < |row| && Block(row, i / GROUP * GROUP) == Block(row, i)
  {
    assert i / GROUP * GROUP / GROUP == i / GROUP;
  }

  /** Quantise one row, decode it again: every element is its block's quantised element, the
      nearest value there is, less than two units of the scale away. */
  method RoundTripRow(row: seq<real>) returns (out: array<real>)
    requires RowOk(row)
    ensures fresh(out) && out.Length == |row|
    ensures forall i :: 0 <= i < |row| ==> out[i] == Quantised(Block(row, i))[i % GROUP]
    ensures forall i, n :: 0 <= i < |row| && 0 <= n < 16 ==>
            Abs(row[i] - out[i]) <= Abs(row[i] - Decoded(n, Exponent(Block(row, i))))
    ensures forall i :: 0 <= i < |row| ==> Abs(row[i] - out[i]) < 2.0 * Pow2(Exponent(Block(row, i)))
  {
    hide Nibbles, Scales, Exponent, Block, Decoded, Abs, Pow2, E2M1, Unpack, Quantised, Multiplier;
    EvenRow(row);
    out := DequantRow(Pack(Nibbles(row)), Scales(row));
    RowFacts(row, out[..]);
  }

  lemma RowFacts(row: seq<real>, out: seq<real>)
    requires RowOk(row) && |out| == |row| && |row| % 2 == 0 && |row| == GROUP * (|row| / GROUP)
    requires forall i :: 0 <= i < |row| ==>
             out[i] == E2M1(Unpack(Pack(Nibbles(row)), i)) * Multiplier(Scales(row)[i / GROUP])
    ensures forall i :: 0 <= i < |row| ==> out[i] == Quantised(Block(row, i))[i % GROUP]
    ensures forall i, n :: 0 <= i < |row| && 0 <= n < 16 ==>
            Abs(row[i] - out[i]) <= Abs(row[i] - Decoded(n, Exponent(Block(row, i))))
    ensures forall i :: 0 <= i < |row| ==> Abs(row[i] - out[i]) < 2.0 * Pow2(Exponent(Block(row, i)))
  {
    hide *;
    forall i | 0 <= i < |row|
      ensures out[i] == Quantised(Block(row, i))[i % GROUP]
      ensures Abs(row[i] - out[i]) < 2.0 * Pow2(Exponent(Block(row, i)))
    {
      ElementFacts(row, i, out[i]);
    }
    forall i, n | 0 <= i < |row| && 0 <= n < 16
      ensures Abs(row[i] - out[i]) <= Abs(row[i] - Decoded(n, Exponent(Block(row, i))))
    {
      ElementFacts(row, i, out[i]);
      NearestValue(row[i], Exponent(Block(row, i)), n);
    }
  }

  lemma ElementFacts(row: seq<real>, i: nat, y: real)
    requires RowOk(row) && |row| % 2 == 0 && |row| == GROUP * (|row| / GROUP) && i < |row|
    requires y == E2M1(Unpack(Pack(Nibbles(row)), i)) * Multiplier(Scales(row)[i / GROUP])
    ensures i % GROUP < |Block(row, i)| && y == Quantised(Block(row, i))[i % GROUP]
    ensures y == Decoded(Nibble(row[i], Exponent(Block(row, i))), Exponent(Block(row, i)))
    ensures Abs(row[i] - y) < 2.0 * Pow2(Exponent(Block(row, i)))
  {
    hide Nibbles, Scales, Exponent, Block, Decoded, Abs, Pow2, E2M1, Unpack, Quantised, Multiplier, RowOk;
    ElementDecodes(row, i);
    ErrorBound(Block(row, i), i % GROUP);
  }

  lemma ElementDecodes(row: seq<real>, i: nat)
    requires RowOk(row) && i < |row| && |row| % 2 == 0 && i / GROUP < |Scales(row)|
    ensures E2M1(Unpack(Pack(Nibbles(row)), i)) * Multiplier(Scales(row)[i / GROUP])
         == Decoded(Nibble(row[i], Exponent(Block(row, i))), Exponent(Block(row, i)))
           == Quantised(Block(row, i))[i % GROUP]
  {
    hide Exponent, Pow2, E2M1, Block, Nibble, RowOk, Unpack, Pack;
    UnpackPack(Nibbles(row), i);
    BlockOfGroup(row, i);
  }

  /** `mxfp4_quant`: a matrix of which nothing is left is refused. */
  method Quant(w: seq<seq<real>>) returns (q: Option<(seq<seq<byte>>, seq<seq<byte>>)>)
    requires forall r :: 0 <= r < |w| ==> RowOk(w[r]) && |w[r]| % 2 == 0
    ensures q.Some? <==> exists r, i :: 0 <= r < |w| && 0 <= i < |w[r]| && Nibbles(w[r])[i] % 8 != 0
    ensures q.Some? ==>
              && |q.value.0| == |q.value.1| == |w|
              && forall r :: 0 <= r < |w| ==> q.value.0[r] == Pack(Nibbles(w[r])) && q.value.1[r] == Scales(w[r])
  {
    hide Nibbles, Scales, RowOk;
    var packed: seq<seq<byte>>, scales: seq<seq<byte>>, any := [], [], false;
    for r := 0 to |w|
      invariant |packed| == |scales| == r
      invariant forall s :: 0 <= s < r ==> packed[s] == Pack(Nibbles(w[s])) && scales[s] == Scales(w[s])
      invariant any <==> exists s, i :: 0 <= s < r && 0 <= i < |w[s]| && Nibbles(w[s])[i] % 8 != 0
    {
      packed, scales := packed + [Pack(Nibbles(w[r]))], scales + [Scales(w[r])];
      var some := AnyMagnitude(Nibbles(w[r]));
      any := any || some;
    }
    q := if any then Some((packed, scales)) else None;
  }

  method AnyMagnitude(n: seq<nat>) returns (any: bool)
    ensures any <==> exists i :: 0 <= i < |n| && n[i] % 8 != 0
  {
    for i := 0 to |n|
      invariant forall j :: 0 <= j < i ==> n[j] % 8 == 0
    {
      if n[i] % 8 != 0 { return true; }
    }
    any := false;
  }
}
