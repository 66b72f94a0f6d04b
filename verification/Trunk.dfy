/** The packed trunk file: one aligned run per layer, copied out of the checkpoint shards
    (tools/pack_trunk.py), and its int8 re-layout (tools/int8_trunk.py). */
module Trunk {
  import opened Common
  import opened Float32
  import opened ReadPlan

  const CHUNK: nat := 64 * 1024 * 1024

  function Zeros(n: nat): (z: seq<byte>)
    ensures |z| == n
  {
    seq(n, _ => 0)
  }

  /** Zero bytes up to the next boundary. */
  function Padded(s: seq<byte>): (r: seq<byte>)
    ensures |r| == Up(|s|) && s <= r && forall i :: |s| <= i < |r| ==> r[i] == 0
  {
    AlignFacts(|s|);
    s + Zeros(Up(|s|) - |s|)
  }

  lemma UpOfAligned(n: nat)
    requires n % ALIGN == 0
    ensures Up(n) == n
  {
  }

  lemma UpOfSum(a: nat, n: nat)
    requires a % ALIGN == 0
    ensures Up(a + n) == a + Up(n) && Up(n) % ALIGN == 0 && n <= Up(n) < n + ALIGN
  {
    AlignFacts(n);
    AlignFacts(a + n);
  }

  lemma PrefixSlice(s: seq<byte>, t: seq<byte>, a: nat, b: nat)
    requires s <= t && a <= b <= |s|
    ensures t[a..b] == s[a..b]
  {
    assert t[..|s|] == s;
    SubSlice(t, 0, |s|, a, b);
  }

  /* ------------------------------------------------------------ packing */

  /** A tensor in its shard. */
  datatype Source = Source(shard: nat, off: nat, nbytes: nat)

  /** A run of a file, and what is in it. */
  datatype Run<T> = Run(fileOff: nat, nbytes: nat, items: seq<T>)

  /** A tensor in its run. */
  datatype Placed = Placed(off: nat, nbytes: nat)

  function Total(mine: seq<Source>): nat {
    if mine == [] then 0 else Total(mine[..|mine| - 1]) + mine[|mine| - 1].nbytes
  }

  /** lo and hi are where the tensors begin and end. */
  ghost predicate Reaches(mine: seq<Source>, lo: nat, hi: nat) {
    && (forall i :: 0 <= i < |mine| ==> lo <= mine[i].off && mine[i].off + mine[i].nbytes <= hi)
    && (exists i :: 0 <= i < |mine| && mine[i].off == lo)
    && (exists i :: 0 <= i < |mine| && mine[i].off + mine[i].nbytes == hi)
  }

  /** The layer can be packed as one run: some tensors, one shard, no gap, all of it readable. */
  ghost predicate Packable(shards: seq<seq<byte>>, mine: seq<Source>) {
    && mine != [] && (forall i :: 0 <= i < |mine| ==> mine[i].shard == mine[0].shard)
    && mine[0].shard < |shards|
    && exists lo: nat, hi: nat :: Reaches(mine, lo, hi) && hi - lo == Total(mine) && (hi > lo ==>
      hi <= |shards[mine[0].shard]|)
  }

  /** This run of the packed file is aligned, in the file, and holds every tensor's own bytes. */
  ghost predicate Holds(shards: seq<seq<byte>>, mine: seq<Source>, l: Run<Placed>, bin: seq<byte>) {
    && l.fileOff % ALIGN == 0 && l.nbytes % ALIGN == 0 && l.fileOff + l.nbytes <= |bin|
    && Total(mine) <= l.nbytes < Total(mine) + ALIGN && |l.items| == |mine|
    && forall i :: 0 <= i < |mine| ==>
         && l.items[i].nbytes == mine[i].nbytes && l.items[i].off + mine[i].nbytes <= Total(mine)
         && mine[i].shard < |shards|
         && (mine[i].nbytes > 0 ==>
            mine[i].off + mine[i].nbytes <= |shards[mine[i].shard]| &&
            bin[l.fileOff + l.items[i].off..l.fileOff + l.items[i].off + mine[i].nbytes]
            == shards[mine[i].shard][mine[i].off..mine[i].off + mine[i].nbytes])
  }

  /** Runs follow one another without overlap, from the start of the file to its end. */
  ghost predicate Consecutive<T>(runs: seq<Run<T>>, end: nat) {
    if runs == [] then end == 0
    else runs[|runs| - 1].fileOff + runs[|runs| - 1].nbytes == end
         && Consecutive(runs[..|runs| - 1], runs[|runs| - 1].fileOff)
  }

  /** Appending to the file keeps the runs already in it. */
  lemma HoldsLonger(shards: seq<seq<byte>>, mine: seq<Source>, l: Run<Placed>, bin: seq<byte>, longer: seq<byte>)
    requires Holds(shards, mine, l, bin) && bin <= longer
    ensures Holds(shards, mine, l, longer)
  {
    hide Total;
    forall i | 0 <= i < |mine|
      ensures longer[l.fileOff + l.items[i].off..l.fileOff + l.items[i].off + mine[i].nbytes]
           == bin[l.fileOff + l.items[i].off..l.fileOff + l.items[i].off + mine[i].nbytes]
    {
      PrefixSlice(bin, longer, l.fileOff + l.items[i].off, l.fileOff + l.items[i].off + mine[i].nbytes);
    }
  }

  /** The extent and the total of a layer's tensors. */
  method Measure(mine: seq<Source>) returns (lo: nat, hi: nat, own: nat)
    requires mine != []
    ensures Reaches(mine, lo, hi) && own == Total(mine)
  {
    lo, hi, own := mine[0].off, 0, 0;
    for i := 0 to |mine|
      invariant own == Total(mine[..i])
      invariant i == 0 ==> lo == mine[0].off && hi == 0
      invariant i > 0 ==> exists j :: 0 <= j < i && mine[j].off == lo
      invariant i > 0 ==> exists j :: 0 <= j < i && mine[j].off + mine[j].nbytes == hi
      invariant forall j :: 0 <= j < i ==> lo <= mine[j].off && mine[j].off + mine[j].nbytes <= hi
    {
      assert mine[..i + 1][..i] == mine[..i];
      if mine[i].off < lo { lo := mine[i].off; }
      if mine[i].off + mine[i].nbytes > hi { hi := mine[i].off + mine[i].nbytes; }
      own := own + mine[i].nbytes;
    }
    assert mine[..|mine|] == mine;
    assert exists j :: 0 <= j < |mine| && mine[j].off == lo;
    assert exists j :: 0 <= j < |mine| && mine[j].off + mine[j].nbytes == hi;
  }

  lemma ExtentUnique(mine: seq<Source>, lo: nat, hi: nat, lo': nat, hi': nat)
    requires Reaches(mine, lo, hi) && Reaches(mine, lo', hi')
    ensures lo == lo' && hi == hi'
  {
    var i :| 0 <= i < |mine| && mine[i].off == lo;
    var j :| 0 <= j < |mine| && mine[j].off == lo';
    var k :| 0 <= k < |mine| && mine[k].off + mine[k].nbytes == hi;
    var n :| 0 <= n < |mine| && mine[n].off + mine[n].nbytes == hi';
  }

  /** n bytes of the shard from lo on. */
  function RunOf(shard: seq<byte>, lo: nat, n: nat): (r: seq<byte>)
    requires n > 0 ==> lo + n <= |shard|
    ensures |r| == n
  {
    if n == 0 then [] else shard[lo..lo + n]
  }

  lemma RunMore(shard: seq<byte>, lo: nat, n: nat, more: nat)
    requires more > 0 && lo + n + more <= |shard|
    ensures RunOf(shard, lo, n) + shard[lo + n..lo + n + more] == RunOf(shard, lo, n + more)
  {
  }

  /** Copy a run a chunk at a time; false when the shard ends first. */
  method CopyRun(shard: seq<byte>, lo: nat, own: nat, bin0: seq<byte>) returns (ok: bool, bin: seq<byte>)
    ensures ok <==> own == 0 || lo + own <= |shard|
    ensures ok ==> bin == bin0 + RunOf(shard, lo, own)
  {
    hide RunOf;
    bin := bin0;
    ghost var part: seq<byte> := [];
    var left: nat := own;
    NoRun(shard, lo);
    while left > 0
      invariant left <= own && (own - left > 0 ==> lo + (own - left) <= |shard|)
      invariant part == RunOf(shard, lo, own - left) && bin == bin0 + part
    {
      var want := if left < CHUNK then left else CHUNK;
      var at := lo + (own - left);
      var got := if at + want <= |shard| then want else if at < |shard| then |shard| - at else 0;
      if got == 0 { return false, bin; }
      RunMore(shard, lo, own - left, got);
      bin := bin + shard[at..at + got];
      part := part + shard[at..at + got];
      left := left - got;
    }
    assert left == 0 && part == RunOf(shard, lo, own);
    ok := true;
  }

  lemma NoRun(shard: seq<byte>, lo: nat)
    ensures RunOf(shard, lo, 0) == []
  {
  }

  /** The layer's tensors are all in one shard. */
  method OneShard(mine: seq<Source>) returns (one: bool)
    requires mine != []
    ensures one <==> forall i :: 0 <= i < |mine| ==> mine[i].shard == mine[0].shard
  {
    for i := 0 to |mine|
      invariant forall j :: 0 <= j < i ==> mine[j].shard == mine[0].shard
    {
      if mine[i].shard != mine[0].shard { return false; }
    }
    one := true;
  }

  /** Pack one layer at the end of the file. */
  method PackLayer(shards: seq<seq<byte>>, mine: seq<Source>, bin0: seq<byte>)
      returns (ok: bool, bin: seq<byte>, l: Run<Placed>)
    requires (forall i :: 0 <= i < |mine| ==> mine[i].shard < |shards|) && |bin0| % ALIGN == 0
    ensures ok <==> Packable(shards, mine)
    ensures ok ==>
              && bin0 <= bin && |bin| % ALIGN == 0 && Holds(shards, mine, l, bin)
              && l.fileOff == |bin0| && l.fileOff + l.nbytes == |bin|
  {
    hide Total, Padded, Up, Holds, Reaches;
    bin, l := bin0, Run(0, 0, []);
    if mine == [] { return false, bin, l; }
    var one := OneShard(mine);
    if !one { return false, bin, l; }
    var lo, hi, own := Measure(mine);
    ExtentOrder(mine, lo, hi);
    PackableWhen(shards, mine, lo, hi);
    if hi - lo != own { return false, bin, l; }
    UpOfAligned(|bin0|);
    bin := Padded(bin0);
    var fileOff := |bin|;
    assert bin[..|bin0|] == bin0 && bin == bin0;
    ok, bin := CopyRun(shards[mine[0].shard], lo, own, bin);
    if !ok { return; }
    ghost var copied := bin;
    bin := Padded(bin);
    UpOfSum(fileOff, own);
    l := Run(fileOff, Up(own), seq(|mine|, i requires 0 <= i < |mine| => Placed(mine[i].off - lo, mine[i].nbytes)));
    PackedHolds(shards, mine, l, bin0, copied, bin, lo, hi);
  }

  lemma ExtentOrder(mine: seq<Source>, lo: nat, hi: nat)
    requires Reaches(mine, lo, hi)
    ensures lo <= hi && forall i :: 0 <= i < |mine| ==> lo <= mine[i].off
  {
  }

  lemma PackableWhen(shards: seq<seq<byte>>, mine: seq<Source>, lo: nat, hi: nat)
    requires mine != [] && Reaches(mine, lo, hi) && forall i :: 0 <= i < |mine| ==> mine[i].shard == mine[0].shard
    requires mine[0].shard < |shards|
    ensures Packable(shards, mine) <==> hi - lo == Total(mine) && (hi > lo ==> hi <= |shards[mine[0].shard]|)
  {
    if Packable(shards, mine) {
      var a: nat, b: nat :| Reaches(mine, a, b) && b - a == Total(mine) && (b > a ==> b <= |shards[mine[0].shard]|);
      ExtentUnique(mine, lo, hi, a, b);
    }
  }

  lemma PackedHolds(shards: seq<seq<byte>>, mine: seq<Source>, l: Run<Placed>, bin0: seq<byte>, copied: seq<byte>,
      bin: seq<byte>, lo: nat, hi: nat)
    requires mine != [] && Reaches(mine, lo, hi) && hi - lo == Total(mine) && forall i :: 0 <= i < |mine| ==>
             mine[i].shard == mine[0].shard
    requires mine[0].shard < |shards| && (hi > lo ==> hi <= |shards[mine[0].shard]|) && |bin0| % ALIGN == 0
    requires lo <= hi && copied == bin0 + RunOf(shards[mine[0].shard], lo, hi - lo) && bin == Padded(copied)
    requires l == Run(|bin0|, Up(Total(mine)),
             seq(|mine|, i requires 0 <= i < |mine| => Placed(mine[i].off - lo, mine[i].nbytes)))
    ensures Holds(shards, mine, l, bin)
  {
    hide Total, Padded, Up;
    UpOfSum(|bin0|, Total(mine));
    var shard := shards[mine[0].shard];
    forall i | 0 <= i < |mine| && mine[i].nbytes > 0
      ensures mine[i].off + mine[i].nbytes <= |shard|
      ensures bin[|bin0| + (mine[i].off - lo)..|bin0| + (mine[i].off - lo) + mine[i].nbytes]
              == shard[mine[i].off..mine[i].off + mine[i].nbytes]
    {
      PartPacked(shard, bin0, bin, lo, hi, mine[i].off - lo, mine[i].nbytes);
    }
  }

  lemma PartPacked(shard: seq<byte>, bin0: seq<byte>, bin: seq<byte>, lo: nat, hi: nat, c: nat, n: nat)
    requires lo < hi <= |shard| && bin0 + shard[lo..hi] <= bin && c + n <= hi - lo
    ensures bin[|bin0| + c..|bin0| + c + n] == shard[lo + c..lo + c + n]
  {
    var copied := bin0 + shard[lo..hi];
    PrefixSlice(copied, bin, |bin0| + c, |bin0| + c + n);
    assert copied[|bin0|..|copied|] == shard[lo..hi];
    SubSlice(copied, |bin0|, |copied|, c, c + n);
    SubSlice(shard, lo, hi, c, c + n);
  }

  /** The packing loop: refused exactly when some layer cannot be packed as one run. */
  method Pack(shards: seq<seq<byte>>, layers: seq<seq<Source>>) returns (r: Option<(seq<byte>, seq<Run<Placed>>)>)
    requires forall k, i :: 0 <= k < |layers| && 0 <= i < |layers[k]| ==> layers[k][i].shard < |shards|
    ensures r.Some? <==> forall k :: 0 <= k < |layers| ==> Packable(shards, layers[k])
    ensures r.Some? ==>
              && |r.value.1| == |layers| && Consecutive(r.value.1, |r.value.0|)
              && forall k :: 0 <= k < |layers| ==> Holds(shards, layers[k], r.value.1[k], r.value.0)
  {
    hide Packable, Holds;
    var bin: seq<byte>, man := [], [];
    for k := 0 to |layers|
      invariant |man| == k && |bin| % ALIGN == 0 && Consecutive(man, |bin|)
      invariant forall j :: 0 <= j < k ==> Packable(shards, layers[j]) && Holds(shards, layers[j], man[j], bin)
    {
      var ok, next, l := PackLayer(shards, layers[k], bin);
      if !ok { return None; }
      forall j | 0 <= j < k
        ensures Holds(shards, layers[j], man[j], next) { HoldsLonger(shards, layers[j], man[j], bin, next); }
      assert (man + [l])[..k] == man;
      bin, man := next, man + [l];
    }
    r := Some((bin, man));
  }

  /** Different runs never share a byte of the file. */
  lemma {:induction false} RunsDisjoint<T>(runs: seq<Run<T>>, end: nat, j: nat, k: nat)
    requires Consecutive(runs, end) && j < k < |runs|
    ensures runs[j].fileOff + runs[j].nbytes <= runs[k].fileOff && runs[k].fileOff + runs[k].nbytes <= end
  {
    var n := |runs| - 1;
    if k < n {
      RunsDisjoint(runs[..n], runs[n].fileOff, j, k);
    } else {
      RunEnds(runs[..n], runs[n].fileOff, j);
    }
  }

  lemma {:induction false} RunEnds<T>(runs: seq<Run<T>>, end: nat, j: nat)
    requires Consecutive(runs, end) && j < |runs|
    ensures runs[j].fileOff + runs[j].nbytes <= end
  {
    if j < |runs| - 1 { RunEnds(runs[..|runs| - 1], runs[|runs| - 1].fileOff, j); }
  }

  /* ------------------------------------------------------------ int8 rows */

  /** Smaller than any number with a float32 exponent field. */
  ghost predicate Storable(v: seq<real>) {
    forall i :: 0 <= i < |v| ==> Abs(v[i]) < Pow2(129)
  }

  /** `bf16_to_f32` of one row of raw bytes. */
  function Weights(raw: seq<byte>): (v: seq<real>)
    ensures |v| == |raw| / 2 && Storable(v)
  {
    seq(|raw| / 2, i requires 0 <= i < |raw| / 2 => Bf16(raw[2 * i], raw[2 * i + 1]))
  }

  /** No infinity and no NaN among them. */
  ghost predicate Numbers(raw: seq<byte>) {
    forall i :: 0 <= i < |raw| / 2 ==> Number(raw[2 * i], raw[2 * i + 1])
  }

  /** float32 1.0. */
  const ONE: nat := 0x3f80_0000

  lemma OneIsOne()
    ensures ONE < 256 * MANT && Magnitude(ONE) == 1.0
  {
    Fields(127, 0);
    assert ONE == 127 * MANT + 0;
    TimesMant(-23);
    Pow2Zero();
  }

  lemma RatioInRange(v: seq<real>)
    requires Storable(v)
    ensures InRange(MaxAbs(v) / 127.0)
  {
    hide Pow2;
    Pow2Next(127);
    Pow2Next(128);
  }

  /** The scale as it is stored: the maximum over 127 rounded to float32, one where that is zero. */
  function ScaleBits(v: seq<real>): (b: nat)
    requires Storable(v)
    ensures b < 256 * MANT
  {
    RatioInRange(v);
    NearestIsSteps(MaxAbs(v) / 127.0);
    var b := Nearest(MaxAbs(v) / 127.0);
    if Magnitude(b) == 0.0 then ONE else b
  }

  /** The stored scale is what the row is divided by. */
  function RowScale(v: seq<real>): (s: real)
    requires Storable(v)
    ensures s > 0.0
  {
    OneIsOne();
    Magnitude(ScaleBits(v))
  }

  function Clip(n: int): (c: int)
    ensures -128 <= c <= 127
  {
    if n < -128 then -128 else if n > 127 then 127 else n
  }

  /** What is stored for one element: the float32 quotient to the nearest integer. */
  function Stored(v: seq<real>, i: nat): (q: int)
    requires Storable(v) && i < |v|
    ensures -128 <= q <= 127
  {
    Clip(Rint(Round32(v[i] / RowScale(v))))
  }

  /** Zero, or far enough above the subnormals that rounding to float32 is accurate. */
  ghost predicate Scalable(v: seq<real>) {
    MaxAbs(v) == 0.0 || (Pow2(-133) <= MaxAbs(v) < Pow2(128))
  }

  lemma NumbersAreScalable(raw: seq<byte>)
    requires Numbers(raw)
    ensures Scalable(Weights(raw))
  {
    hide Pow2, Bf16;
    var v := Weights(raw);
    if MaxAbs(v) != 0.0 {
      var i :| 0 <= i < |v| && Abs(v[i]) == MaxAbs(v);
      Bf16Range(raw[2 * i], raw[2 * i + 1]);
    }
  }

  /** Rounding moves the scale by at most one part in 1024, so no quotient exceeds 127.2 and the
      clip never has to act. */
  lemma ScaleIsRounded(v: seq<real>)
    requires Storable(v) && Scalable(v)
    ensures MaxAbs(v) != 0.0 ==> 1024.0 * Abs(RowScale(v) - MaxAbs(v) / 127.0) <= MaxAbs(v) / 127.0
    ensures MaxAbs(v) == 0.0 ==> RowScale(v) == 1.0
    ensures MaxAbs(v) <= 127.2 * RowScale(v)
  {
    hide Pow2, Magnitude, Nearest, MaxAbs;
    var x := MaxAbs(v) / 127.0;
    RatioInRange(v);
    OneIsOne();
    if MaxAbs(v) == 0.0 {
      NearestOfZero();
    } else {
      SmallestRatio(MaxAbs(v));
      RelativeError(x);
    }
  }

  lemma SmallestRatio(a: real)
    requires Pow2(-133) <= a
    ensures Pow2(-140) <= a / 127.0
  {
    hide Pow2;
    Pow2Add(-140, 7);
    assert Pow2(7) == 128.0 by { Pow2Seven(); }
  }

  lemma Pow2Seven()
    ensures Pow2(7) == 128.0
  {
    assert Pow2(4) == 16.0;
  }

  lemma NearestOfZero()
    ensures InRange(0.0) && Magnitude(Nearest(0.0)) == 0.0
  {
    hide Pow2;
    var e := Binade(0.0);
    NearestIsSteps(0.0);
    assert Steps(0.0, e) == Rint(0.0);
  }

  lemma RatioBounded(x: real, s: real)
    requires s > 0.0 && Abs(x) <= 127.2 * s
    ensures -127.2 <= x / s <= 127.2 && (x / s) * s == x
  {
    var r := x / s;
    assert r * s == x;
    if r > 127.2 { TimesLower(127.2, r, s); }
    if r < -127.2 { TimesLower(r, -127.2, s); }
  }

  lemma RintBounded(x: real)
    requires -127.5 < x < 127.5
    ensures -127 <= Rint(x) <= 127
  {
  }

  /** What a stored value stands for. */
  function Value(q: int, s: real): real {
    q as real * s
  }

  /** Half a scale, and what rounding the quotient may add to it. */
  function HalfScale(s: real): real {
    s / 2.0 + s / 262144.0
  }

  lemma QuotientIsClose(x: real, m: real, s: real)
    requires s > 0.0 && Abs(x) <= m <= 127.2 * s
    ensures -127 <= Rint(Round32(x / s)) <= 127 && Abs(x - Value(Rint(Round32(x / s)), s)) <= HalfScale(s)
  {
    hide Rint, Round32, Abs;
    RatioBounded(x, s);
    RoundedIsClose(x / s);
    CloseTimes(x, x / s, Rint(Round32(x / s)) as real, 0.5 + 1.0 / 262144.0, s);
  }

  lemma RoundedIsClose(r: real)
    requires -127.2 <= r <= 127.2
    ensures -127 <= Rint(Round32(r)) <= 127
    ensures -(0.5 + 1.0 / 262144.0) <= r - Rint(Round32(r)) as real <= 0.5 + 1.0 / 262144.0
  {
    hide Round32;
    RoundingBelow128(r);
    RintBounded(Round32(r));
  }

  lemma CloseTimes(x: real, r: real, q: real, c: real, s: real)
    requires s > 0.0 && r * s == x && -c <= r - q <= c
    ensures Abs(x - q * s) <= c * s
  {
    TimesWithin(r - q, c, s);
    Distributes(r, q, s);
  }

  lemma TimesWithin(d: real, c: real, s: real)
    requires s > 0.0 && -c <= d <= c
    ensures -(c * s) <= d * s <= c * s
  {
    if d < c { TimesLower(d, c, s); }
    if -c < d { TimesLower(-c, d, s); }
  }

  /** The clip never fires, and the stored value is within half a stored scale of the element,
      up to one part in 262144 of it. */
  lemma StoredIsClose(v: seq<real>, i: nat)
    requires Storable(v) && Scalable(v) && i < |v|
    ensures Stored(v, i) == Rint(Round32(v[i] / RowScale(v))) && -127 <= Stored(v, i) <= 127
    ensures Abs(v[i] - Value(Stored(v, i), RowScale(v))) <= HalfScale(RowScale(v))
  {
    hide RowScale, Rint, Round32, Storable, Scalable, MaxAbs, Abs, HalfScale;
    ScaleIsRounded(v);
    QuotientIsClose(v[i], MaxAbs(v), RowScale(v));
  }

  function ToByte(q: int): byte
    requires -128 <= q <= 127
  {
    if q < 0 then q + 256 else q
  }

  function FromByte(b: byte): int {
    if b >= 128 then b - 256 else b
  }

  function RowBytes(v: seq<real>): (r: seq<byte>)
    requires Storable(v)
    ensures |r| == 4 + |v|
  {
    Put(ScaleBits(v)) + seq(|v|, i requires 0 <= i < |v| => ToByte(Stored(v, i)))
  }

  /** The bytes of `rows` rows of `width` bytes each. */
  function Area(rows: nat, width: nat): nat {
    rows * width
  }

  lemma RowFits(rows: nat, width: nat, r: nat)
    requires r < rows
    ensures Area(r, width) + width == Area(r + 1, width) <= Area(rows, width)
  {
    assert (r + 1) * width <= rows * width;
  }

  predicate HasRow(raw: seq<byte>, width: nat, r: nat) {
    Area(r + 1, width) <= |raw|
  }

  /** The bytes of row r of a matrix whose rows take `width` bytes. */
  function RowAt(raw: seq<byte>, width: nat, r: nat): (row: seq<byte>)
    requires HasRow(raw, width, r)
    ensures |row| == width
  {
    RowFits(r + 1, width, r);
    raw[Area(r, width)..Area(r, width) + width]
  }

  /** `quant_row_int8` of the first `rows` rows: per row a scale and an int8 an element. */
  function MatrixBytes(raw: seq<byte>, rows: nat, cols: nat): (b: seq<byte>)
    requires Area(rows, 2 * cols) <= |raw|
    ensures |b| == Area(rows, 4 + cols)
  {
    if rows == 0 then [] else
      RowFits(rows, 2 * cols, rows - 1);
      RowFits(rows, 4 + cols, rows - 1);
      MatrixBytes(raw, rows - 1, cols) + RowBytes(Weights(RowAt(raw, 2 * cols, rows - 1)))
  }

  lemma {:induction false} RowOfMatrix(raw: seq<byte>, rows: nat, cols: nat, r: nat)
    requires Area(rows, 2 * cols) <= |raw| && r < rows
    ensures HasRow(MatrixBytes(raw, rows, cols), 4 + cols, r) && HasRow(raw, 2 * cols, r)
    ensures RowAt(MatrixBytes(raw, rows, cols), 4 + cols, r) == RowBytes(Weights(RowAt(raw, 2 * cols, r)))
  {
    hide RowBytes, Weights, Area;
    var n, w := rows - 1, 4 + cols;
    RowFits(rows, 2 * cols, r);
    RowFits(rows, 2 * cols, n);
    RowFits(rows, w, r);
    RowFits(rows, w, n);
    if r < n {
      RowOfMatrix(raw, n, cols, r);
      RowFits(n, w, r);
      PrefixSlice(MatrixBytes(raw, n, cols), MatrixBytes(raw, rows, cols), Area(r, w), Area(r, w) + w);
    } else {
      TailSlice(MatrixBytes(raw, n, cols), RowBytes(Weights(RowAt(raw, 2 * cols, n))));
    }
  }

  lemma TailSlice(a: seq<byte>, b: seq<byte>)
    ensures (a + b)[|a|..|a| + |b|] == b
  {
  }

  /** What a reader makes of element i of a re-encoded row. */
  function ReadBack(row: seq<byte>, i: nat): real
    requires 4 + i < |row|
  {
    Value(FromByte(row[4 + i]), Magnitude(Get(row[..4])))
  }

  lemma RowReads(v: seq<real>, i: nat)
    requires Storable(v) && i < |v|
    ensures ReadBack(RowBytes(v), i) == Value(Stored(v, i), RowScale(v))
  {
    hide Stored, Magnitude, Put, Get, Storable, Value;
    var row := RowBytes(v);
    assert row[..4] == Put(ScaleBits(v));
    GetPut(ScaleBits(v));
    assert FromByte(row[4 + i]) == Stored(v, i);
  }

  /** Every element of the new row reads back within HalfScale of the old element. */
  ghost predicate CloseRow(raw: seq<byte>, row: seq<byte>) {
    && |row| == 4 + |raw| / 2
    && forall i :: 0 <= i < |raw| / 2 ==> Abs(Weights(raw)[i] - ReadBack(row, i)) <= HalfScale(RowScale(Weights(raw)))
  }

  lemma RowIsClose(raw: seq<byte>)
    requires Numbers(raw)
    ensures CloseRow(raw, RowBytes(Weights(raw)))
  {
    hide Abs, RowScale, Stored, ReadBack, RowBytes, Numbers, Scalable, Storable, Value, HalfScale;
    var v := Weights(raw);
    NumbersAreScalable(raw);
    forall i | 0 <= i < |v| ensures Abs(v[i] - ReadBack(RowBytes(v), i)) <= HalfScale(RowScale(v)) {
      RowReads(v, i);
      StoredIsClose(v, i);
    }
  }

  /** The rows of a re-encoded matrix of numbers are close to those of the matrix. */
  lemma MatrixIsClose(raw: seq<byte>, rows: nat, cols: nat, r: nat)
    requires Area(rows, 2 * cols) <= |raw| && r < rows
    ensures HasRow(raw, 2 * cols, r) && HasRow(MatrixBytes(raw, rows, cols), 4 + cols, r)
    ensures Numbers(RowAt(raw, 2 * cols, r)) ==>
            CloseRow(RowAt(raw, 2 * cols, r), RowAt(MatrixBytes(raw, rows, cols), 4 + cols, r))
  {
    hide MatrixBytes, RowBytes, RowAt, Numbers, CloseRow, HasRow;
    RowOfMatrix(raw, rows, cols, r);
    if Numbers(RowAt(raw, 2 * cols, r)) { RowIsClose(RowAt(raw, 2 * cols, r)); }
  }

  /* ------------------------------------------------------------ the re-layout */

  /** A tensor of a packed run: its place, and its shape when it is a bfloat16 matrix. */
  datatype Item = Item(off: nat, nbytes: nat, matrix: Option<(nat, nat)>)

  ghost predicate RunOk(run: Run<Item>, bin: seq<byte>) {
    && run.fileOff + run.nbytes <= |bin|
    && forall i :: 0 <= i < |run.items| ==> run.items[i].off + run.items[i].nbytes <= run.nbytes
  }

  /** The bytes can be shaped into the matrix, and its rows have a maximum. */
  ghost predicate Encodable(x: Item) {
    x.matrix.Some? ==> x.nbytes == Area(x.matrix.value.0, 2 * x.matrix.value.1) && x.matrix.value.1 > 0
  }

  ghost predicate AllEncodable(items: seq<Item>) {
    forall i :: 0 <= i < |items| ==> Encodable(items[i])
  }

  /** In ascending source offset. */
  function InsertItem(s: seq<Item>, x: Item): (r: seq<Item>)
    ensures |r| == |s| + 1 && multiset(r) == multiset(s) + multiset{x}
  {
    if s == [] then [x]
    else
      assert s == s[..|s| - 1] + [s[|s| - 1]];
      if s[|s| - 1].off <= x.off then s + [x]
      else InsertItem(s[..|s| - 1], x) + [s[|s| - 1]]
  }

  function SortItems(s: seq<Item>): (r: seq<Item>)
    ensures |r| == |s| && multiset(r) == multiset(s)
  {
    if s == [] then []
    else
      assert s == s[..|s| - 1] + [s[|s| - 1]];
      InsertItem(SortItems(s[..|s| - 1]), s[|s| - 1])
  }

  ghost predicate Ascending(s: seq<Item>) {
    forall i, j :: 0 <= i < j < |s| ==> s[i].off <= s[j].off
  }

  lemma {:induction false} InsertAscending(s: seq<Item>, x: Item)
    requires Ascending(s)
    ensures Ascending(InsertItem(s, x)) && forall y :: y in InsertItem(s, x) <==> y in s || y == x
  {
    hide Ascending;
    if s == [] {
      NothingAscends();
      AscendingSnoc([], x);
      assert [] + [x] == [x];
    } else {
      var t, l := s[..|s| - 1], s[|s| - 1];
      assert s == t + [l];
      LastIsGreatest(t, l);
      if l.off > x.off {
        InsertAscending(t, x);
        AscendingSnoc(InsertItem(t, x), l);
      } else {
        AscendingSnoc(s, x);
      }
    }
  }

  lemma NothingAscends()
    ensures Ascending([])
  {
  }

  lemma AscendingSnoc(s: seq<Item>, x: Item)
    requires Ascending(s) && forall y :: y in s ==> y.off <= x.off
    ensures Ascending(s + [x]) && forall y :: y in s + [x] <==> y in s || y == x
  {
  }

  lemma LastIsGreatest(t: seq<Item>, l: Item)
    requires Ascending(t + [l])
    ensures Ascending(t) && forall y :: y in t + [l] ==> y.off <= l.off
  {
    var s := t + [l];
    forall i, j | 0 <= i < j < |t| ensures t[i].off <= t[j].off { assert s[i].off <= s[j].off; }
    forall y | y in s ensures y.off <= l.off {
      var i :| 0 <= i < |s| && s[i] == y;
      assert i < |t| ==> s[i].off <= s[|t|].off;
    }
  }

  /** The order the new offsets are given out in is that of the old ones. */
  lemma {:induction false} SortAscending(s: seq<Item>)
    ensures Ascending(SortItems(s)) && forall y :: y in SortItems(s) <==> y in s
  {
    if s != [] {
      SortAscending(s[..|s| - 1]);
      InsertAscending(SortItems(s[..|s| - 1]), s[|s| - 1]);
      assert s == s[..|s| - 1] + [s[|s| - 1]];
    }
  }

  /** The source bytes of an item. */
  function Raw(run: Run<Item>, x: Item, bin: seq<byte>): (r: seq<byte>)
    requires run.fileOff + x.off + x.nbytes <= |bin|
    ensures |r| == x.nbytes
  {
    bin[run.fileOff + x.off..run.fileOff + x.off + x.nbytes]
  }

  /** What is written for an item: a bfloat16 matrix as int8 rows, everything else verbatim. */
  function Written(run: Run<Item>, x: Item, bin: seq<byte>): (w: seq<byte>)
    requires run.fileOff + x.off + x.nbytes <= |bin| && Encodable(x)
    ensures x.matrix.None? ==> w == Raw(run, x, bin)
    ensures x.matrix.Some? ==> |w| == Area(x.matrix.value.0, 4 + x.matrix.value.1)
  {
    match x.matrix
    case None => Raw(run, x, bin)
    case Some(shape) => MatrixBytes(Raw(run, x, bin), shape.0, shape.1)
  }

  /** The new run holds every item's new bytes, one item after the other. */
  ghost predicate Relaid(run: Run<Item>, bin: seq<byte>, items: seq<Item>, new_: seq<Item>, at: nat, out: seq<byte>,
      n: nat, end: nat)
    requires n <= |items| && n <= |new_|
  {
    if n == 0 then end == 0
    else
      var x, y := items[n - 1], new_[n - 1];
      && run.fileOff + x.off + x.nbytes <= |bin| && Encodable(x)
      && y.matrix == x.matrix && y.off + y.nbytes == end && at + end <= |out|
      && out[at + y.off..at + end] == Written(run, x, bin)
      && Relaid(run, bin, items, new_, at, out, n - 1, y.off)
  }

  lemma {:induction false} RelaidLonger(run: Run<Item>, bin: seq<byte>, items: seq<Item>, new_: seq<Item>, at: nat,
      out: seq<byte>, n: nat, end: nat,
                                        longer: seq<byte>, more: seq<Item>)
    requires n <= |items| && n <= |new_| && Relaid(run, bin, items, new_, at, out, n, end) && out <= longer
             && new_ <= more
    ensures Relaid(run, bin, items, more, at, longer, n, end)
  {
    hide Written;
    if n > 0 {
      assert more[n - 1] == new_[n - 1];
      PrefixSlice(out, longer, at + new_[n - 1].off, at + end);
      RelaidLonger(run, bin, items, new_, at, out, n - 1, new_[n - 1].off, longer, more);
    }
  }

  /** Re-lay one run at the end of the file; a matrix whose bytes do not have its shape is an
      error. */
  method RelayRun(run: Run<Item>, bin: seq<byte>, out0: seq<byte>)
      returns (ok: bool, out: seq<byte>, r: Run<Item>, ghost end: nat)
    requires RunOk(run, bin) && |out0| % ALIGN == 0
    ensures ok <==> AllEncodable(run.items)
    ensures ok ==> out0 <= out && |out| % ALIGN == 0 && r.fileOff == |out0| && r.fileOff + r.nbytes == |out|
    ensures ok ==> |r.items| == |run.items| && end <= r.nbytes < end + ALIGN
    ensures ok ==> Relaid(run, bin, SortItems(run.items), r.items, r.fileOff, out, |run.items|, end)
  {
    hide Relaid, Written, Padded, Up, SortItems, Encodable;
    var items := SortItems(run.items);
    UpOfAligned(|out0|);
    out := Padded(out0);
    assert out[..|out0|] == out0 && out == out0;
    var at, pos: nat, placed: seq<Item> := |out|, 0, [];
    ok, r, end := true, Run(0, 0, []), 0;
    NothingRelaid(run, bin, items, at, out);
    for i := 0 to |items|
      invariant |placed| == i && out0 <= out && |out| == at + pos
      invariant ok && AllEncodable(items[..i])
      invariant Relaid(run, bin, items, placed, at, out, i, pos)
    {
      ItemInRun(run, bin, items[i]);
      if items[i].matrix.Some? {
        var (rows, cols) := items[i].matrix.value;
        if items[i].nbytes != Area(rows, 2 * cols) || cols == 0 {
          Unencodable(items[i]);
          return false, out, r, end;
        }
      }
      NowEncodable(items[i]);
      var w := Written(run, items[i], bin);
      var y := Item(pos, |w|, items[i].matrix);
      RelaidMore(run, bin, items, placed, at, out, i, pos, w, y);
      out, placed, pos := out + w, placed + [y], pos + |w|;
    }
    ghost var unpadded := out;
    out := Padded(out);
    UpOfSum(at, pos);
    RelaidLonger(run, bin, items, placed, at, unpadded, |items|, pos, out, placed);
    AllInRun(run.items);
    r, end := Run(at, Up(pos), placed), pos;
  }

  lemma Unencodable(x: Item)
    requires x.matrix.Some? && (x.nbytes != Area(x.matrix.value.0, 2 * x.matrix.value.1) || x.matrix.value.1 == 0)
    ensures !Encodable(x)
  {
  }

  lemma NowEncodable(x: Item)
    requires x.matrix.Some? ==> x.nbytes == Area(x.matrix.value.0, 2 * x.matrix.value.1) && x.matrix.value.1 > 0
    ensures Encodable(x)
  {
  }

  lemma AllInRun(items: seq<Item>)
    requires AllEncodable(SortItems(items))
    ensures AllEncodable(items)
  {
    forall i | 0 <= i < |items| ensures Encodable(items[i]) {
      assert items[i] in multiset(items);
      assert items[i] in multiset(SortItems(items));
      var j :| 0 <= j < |items| && SortItems(items)[j] == items[i];
    }
  }

  lemma NothingRelaid(run: Run<Item>, bin: seq<byte>, items: seq<Item>, at: nat, out: seq<byte>)
    ensures Relaid(run, bin, items, [], at, out, 0, 0)
  {
  }

  lemma ItemInRun(run: Run<Item>, bin: seq<byte>, x: Item)
    requires RunOk(run, bin) && x in SortItems(run.items)
    ensures run.fileOff + x.off + x.nbytes <= |bin| && x in run.items
  {
    assert x in multiset(SortItems(run.items));
    var i :| 0 <= i < |run.items| && run.items[i] == x;
  }

  lemma RelaidMore(run: Run<Item>, bin: seq<byte>, items: seq<Item>, placed: seq<Item>, at: nat, out: seq<byte>, n: nat,
      pos: nat, w: seq<byte>, y: Item)
    requires n < |items| && |placed| == n && |out| == at + pos && Relaid(run, bin, items, placed, at, out, n, pos)
    requires run.fileOff + items[n].off + items[n].nbytes <= |bin| && Encodable(items[n])
             && w == Written(run, items[n], bin) && y == Item(pos, |w|, items[n].matrix)
    ensures Relaid(run, bin, items, placed + [y], at, out + w, n + 1, pos + |w|)
  {
    hide Written;
    RelaidLonger(run, bin, items, placed, at, out, n, pos, out + w, placed + [y]);
    assert (out + w)[at + pos..at + pos + |w|] == w;
  }

  /** What a reader of the new manifest finds: the same bytes for a tensor left alone, the int8
      rows of its matrix for a tensor quantised. */
  lemma {:induction false} RelaidReads(run: Run<Item>, bin: seq<byte>, items: seq<Item>, placed: seq<Item>, at: nat,
      out: seq<byte>,
                                       n: nat, end: nat, k: nat)
    requires n <= |items| && n <= |placed| && Relaid(run, bin, items, placed, at, out, n, end) && k < n
    ensures var x, y := items[k], placed[k];
            && run.fileOff + x.off + x.nbytes <= |bin| && Encodable(x) && y.matrix == x.matrix
            && y.off + y.nbytes <= end && at + y.off + y.nbytes <= |out|
            && out[at + y.off..at + y.off + y.nbytes] == Written(run, x, bin)
            && (x.matrix.None? ==> out[at + y.off..at + y.off + y.nbytes] == Raw(run, x, bin))
  {
    hide Written, Raw, Encodable;
    if k < n - 1 { RelaidReads(run, bin, items, placed, at, out, n - 1, placed[n - 1].off, k); }
  }

  /** Row r of a quantised tensor, read from the new file at its new offset, is close to the row
      the old file holds. */
  lemma RelaidIsClose(run: Run<Item>, bin: seq<byte>, items: seq<Item>, placed: seq<Item>, at: nat, out: seq<byte>,
                      n: nat, end: nat, k: nat, rows: nat, cols: nat, r: nat)
    requires n <= |items| && n <= |placed| && Relaid(run, bin, items, placed, at, out, n, end) && k < n
    requires items[k].matrix == Some((rows, cols)) && r < rows
    ensures run.fileOff + items[k].off + items[k].nbytes <= |bin| && at + placed[k].off + placed[k].nbytes <= |out|
    ensures var before, after := Raw(run, items[k], bin),
            out[at + placed[k].off..at + placed[k].off + placed[k].nbytes];
            && HasRow(before, 2 * cols, r) && HasRow(after, 4 + cols, r)
            && (Numbers(RowAt(before, 2 * cols, r)) ==> CloseRow(RowAt(before, 2 * cols, r), RowAt(after, 4 + cols, r)))
  {
    hide Relaid, MatrixBytes, Raw, RowAt, Numbers, CloseRow, HasRow;
    RelaidReads(run, bin, items, placed, at, out, n, end, k);
    MatrixIsClose(Raw(run, items[k], bin), rows, cols, r);
  }

  /** No two tensors of the new run share a byte. */
  lemma {:induction false} RelaidApart(run: Run<Item>, bin: seq<byte>, items: seq<Item>, placed: seq<Item>, at: nat,
      out: seq<byte>, n: nat, end: nat, j: nat, k: nat)
    requires n <= |items| && n <= |placed| && Relaid(run, bin, items, placed, at, out, n, end) && j < k < n
    ensures placed[j].off + placed[j].nbytes <= placed[k].off
  {
    hide Written;
    if k < n - 1 {
      RelaidApart(run, bin, items, placed, at, out, n - 1, placed[n - 1].off, j, k);
    } else {
      RelaidReads(run, bin, items, placed, at, out, n - 1, placed[n - 1].off, j);
    }
  }

  /** One run of the new file against its source. */
  ghost predicate Matches(run: Run<Item>, bin: seq<byte>, r: Run<Item>, out: seq<byte>)
  {
    && r.fileOff % ALIGN == 0 && r.nbytes % ALIGN == 0 && r.fileOff + r.nbytes <= |out| && |r.items| == |run.items|
    && exists end: nat :: end <= r.nbytes < end + ALIGN && Relaid(run, bin, SortItems(run.items), r.items, r.fileOff,
      out, |run.items|, end)
  }

  lemma MatchesLonger(run: Run<Item>, bin: seq<byte>, r: Run<Item>, out: seq<byte>, longer: seq<byte>)
    requires Matches(run, bin, r, out) && out <= longer
    ensures Matches(run, bin, r, longer)
  {
    hide Relaid, SortItems;
    var end: nat :| end <= r.nbytes < end + ALIGN
        && Relaid(run, bin, SortItems(run.items), r.items, r.fileOff, out, |run.items|, end);
    RelaidLonger(run, bin, SortItems(run.items), r.items, r.fileOff, out, |run.items|, end, longer, r.items);
  }

  /** The runs written so far against their sources. */
  ghost predicate AllMatch(runs: seq<Run<Item>>, bin: seq<byte>, rs: seq<Run<Item>>, out: seq<byte>) {
    && |rs| <= |runs| && Consecutive(rs, |out|)
    && forall j :: 0 <= j < |rs| ==> AllEncodable(runs[j].items) && Matches(runs[j], bin, rs[j], out)
  }

  lemma NoneMatch(runs: seq<Run<Item>>, bin: seq<byte>)
    ensures AllMatch(runs, bin, [], [])
  {
  }

  lemma OneMoreMatches(runs: seq<Run<Item>>, bin: seq<byte>, rs: seq<Run<Item>>, out: seq<byte>, r: Run<Item>,
      next: seq<byte>)
    requires AllMatch(runs, bin, rs, out) && |rs| < |runs| && out <= next
    requires AllEncodable(runs[|rs|].items) && Matches(runs[|rs|], bin, r, next) && r.fileOff == |out|
             && r.fileOff + r.nbytes == |next|
    ensures AllMatch(runs, bin, rs + [r], next)
  {
    hide Matches, AllEncodable;
    assert (rs + [r])[..|rs|] == rs;
    forall j | 0 <= j < |rs| + 1 ensures Matches(runs[j], bin, (rs + [r])[j], next) {
      if j < |rs| { MatchesLonger(runs[j], bin, rs[j], out, next); }
    }
  }

  /** The whole re-layout, layer after layer. */
  method Relayout(runs: seq<Run<Item>>, bin: seq<byte>) returns (ok: bool, out: seq<byte>, rs: seq<Run<Item>>)
    requires forall k :: 0 <= k < |runs| ==> RunOk(runs[k], bin)
    ensures ok <==> forall k :: 0 <= k < |runs| ==> AllEncodable(runs[k].items)
    ensures ok ==> |rs| == |runs| && AllMatch(runs, bin, rs, out)
  {
    hide AllMatch, Matches, RunOk, AllEncodable, Relaid;
    ok, out, rs := true, [], [];
    NoneMatch(runs, bin);
    for k := 0 to |runs|
      invariant ok && |rs| == k && |out| % ALIGN == 0 && AllMatch(runs, bin, rs, out)
    {
      var next, r; ghost var end;
      ok, next, r, end := RelayRun(runs[k], bin, out);
      if !ok { return; }
      IsMatch(runs[k], bin, r, next, end);
      OneMoreMatches(runs, bin, rs, out, r, next);
      out, rs := next, rs + [r];
    }
    AllMatchEncodable(runs, bin, rs, out);
  }

  lemma AllMatchEncodable(runs: seq<Run<Item>>, bin: seq<byte>, rs: seq<Run<Item>>, out: seq<byte>)
    requires AllMatch(runs, bin, rs, out)
    ensures forall j :: 0 <= j < |rs| ==> AllEncodable(runs[j].items)
  {
  }

  lemma IsMatch(run: Run<Item>, bin: seq<byte>, r: Run<Item>, out: seq<byte>, end: nat)
    requires r.fileOff % ALIGN == 0 && r.fileOff + r.nbytes == |out| && |out| % ALIGN == 0 && |r.items| == |run.items|
    requires end <= r.nbytes < end + ALIGN
             && Relaid(run, bin, SortItems(run.items), r.items, r.fileOff, out, |run.items|, end)
    ensures Matches(run, bin, r, out)
  {
    hide Relaid, SortItems;
    AlignedDifference(|out|, r.fileOff);
  }
}
