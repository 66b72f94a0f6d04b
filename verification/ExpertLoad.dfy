/** Resolving one expert's six tensors and fetching their bytes (src/io/k3_load.c), and the
    reads underneath (src/io/k3_st.c). */
module ExpertLoad {
  import opened CarriedState
  import opened Common
  import opened Interleave
  import opened ReadPlan
  import SpanSweep

  const GROUP: nat := 32
  const PREAD_MAX: nat := 0x7fff_f000

  datatype Tensor = Tensor(shard: nat, off: nat, nbytes: nat, u8: bool, shape: seq<nat>)

  /** Where one weight matrix lies inside the fetched bytes. */
  datatype Mat = Mat(pOff: nat, pBytes: nat, sOff: nat, sBytes: nat, rows: nat, pcols: nat, scols: nat)

  datatype Ref = Ref(shard: nat, off: nat, nbytes: nat, contiguous: bool, m: seq<Mat>)

  /* ------------------------------------------------------------------ geometry */

  /** w_i packed and scale agree with each other and live in the same shard as w1. */
  predicate PairFits(all: seq<Tensor>, i: nat)
    requires |all| == 6 && i < 3
  {
    var p, s := all[2 * i], all[2 * i + 1];
    && p.u8 && s.u8 && |p.shape| == 2 && |s.shape| == 2
    && p.shape[0] == s.shape[0] && s.shape[1] * GROUP == p.shape[1] * 2
    && p.shard == s.shard && p.shard == all[0].shard
  }

  function Total(all: seq<Tensor>): nat {
    if all == [] then 0 else Total(all[..|all| - 1]) + all[|all| - 1].nbytes
  }

  /** Where tensor i of the six goes in the fetched bytes. */
  function Place(r: Ref, i: nat): nat
    requires |r.m| == 3 && i < 6
  {
    if i % 2 == 0 then r.m[i / 2].pOff else r.m[i / 2].sOff
  }

  /** lo and hi are the extent of the tensors. */
  ghost predicate Extent(all: seq<Tensor>, lo: nat, hi: nat) {
    && (forall i :: 0 <= i < |all| ==> lo <= all[i].off && all[i].off + all[i].nbytes <= hi)
    && (exists i :: 0 <= i < |all| && all[i].off == lo)
    && (exists i :: 0 <= i < |all| && all[i].off + all[i].nbytes == hi)
  }

  ghost predicate Shapes(r: Ref, all: seq<Tensor>)
    requires |all| == 6
  {
    |r.m| == 3 && r.shard == all[0].shard && r.nbytes == Total(all) &&
    forall i :: 0 <= i < 3 ==>
      && PairFits(all, i)
      && r.m[i].pBytes == all[2 * i].nbytes && r.m[i].sBytes == all[2 * i + 1].nbytes
      && r.m[i].rows == all[2 * i].shape[0] && r.m[i].pcols == all[2 * i].shape[1]
        && r.m[i].scols == all[2 * i + 1].shape[1]
  }

  /** The reference describes these six tensors: as they lie in the file when they fill their
      extent, one after another otherwise. */
  ghost predicate Describes(r: Ref, all: seq<Tensor>, hi: nat)
    requires |all| == 6
  {
    && Shapes(r, all) && Extent(all, r.off, hi)
    && (r.contiguous <==> hi - r.off == Total(all))
    && forall i :: 0 <= i < 6 ==> Place(r, i) == if r.contiguous then all[i].off - r.off else Total(all[..i])
  }

  /** `k3_expert_ref`: refused exactly when a tensor is missing or the geometry disagrees. */
  method ExpertRef(found: seq<Option<Tensor>>) returns (r: Option<Ref>, ghost hi: nat)
    requires |found| == 6
    ensures r.Some? <==> (forall i :: 0 <= i < 6 ==> found[i].Some?) && forall i :: 0 <= i < 3 ==>
            PairFits(Values(found), i)
    ensures r.Some? ==> Describes(r.value, Values(found), hi)
  {
    hi := 0;
    var all := Values(found);
    for i := 0 to 3
      invariant forall j :: 0 <= j < 2 * i ==> found[j].Some?
      invariant forall j :: 0 <= j < i ==> PairFits(all, j)
    {
      if found[2 * i].None? || found[2 * i + 1].None? { return None, 0; }
      var fits := CheckPair(all, i);
      if !fits { return None, 0; }
    }
    var lo, h, own := Measure(all);
    hi := h;
    r := Some(Arrange(all, lo, h - lo == own, own));
    Arranged(all, lo, h, own);
  }

  /** The checks on one weight and its scale, one after the other. */
  method CheckPair(all: seq<Tensor>, i: nat) returns (ok: bool)
    requires |all| == 6 && i < 3
    ensures ok <==> PairFits(all, i)
  {
    var p, s := all[2 * i], all[2 * i + 1];
    ok := false;
    if !p.u8 || !s.u8 { return; }
    if |p.shape| != 2 || |s.shape| != 2 { return; }
    if p.shape[0] != s.shape[0] { return; }
    if s.shape[1] * GROUP != p.shape[1] * 2 { return; }
    if p.shard != s.shard { return; }
    if i > 0 && p.shard != all[0].shard { return; }
    ok := true;
  }

  /** The extent of the six and their total length. */
  method Measure(all: seq<Tensor>) returns (lo: nat, hi: nat, own: nat)
    requires |all| == 6
    ensures Extent(all, lo, hi) && own == Total(all)
  {
    hide Extent;
    lo, hi, own := all[0].off, 0, 0;
    for i := 0 to 6
      invariant i > 0 ==> Extent(all[..i], lo, hi)
      invariant i == 0 ==> lo == all[0].off && hi == 0
      invariant own == Total(all[..i])
    {
      ExtentSnoc(all, i, lo, hi);
      assert all[..i + 1][..i] == all[..i];
      if all[i].off < lo { lo := all[i].off; }
      if all[i].off + all[i].nbytes > hi { hi := all[i].off + all[i].nbytes; }
      own := own + all[i].nbytes;
    }
    assert all[..6] == all;
  }

  lemma Arranged(all: seq<Tensor>, lo: nat, hi: nat, own: nat)
    requires |all| == 6 && Extent(all, lo, hi) && own == Total(all)
    requires forall i :: 0 <= i < 3 ==> PairFits(all, i)
    ensures Describes(Arrange(all, lo, hi - lo == own, own), all, hi)
  {
    var r := Arrange(all, lo, hi - lo == own, own);
    ArrangedMats(r, all, lo);
    hide Total, PairFits, Extent, MatOf;
  }

  lemma ArrangedMats(r: Ref, all: seq<Tensor>, lo: nat)
    requires |all| == 6 && (forall i :: 0 <= i < 6 ==> lo <= all[i].off) && forall i :: 0 <= i < 3 ==> PairFits(all, i)
    requires r == Arrange(all, lo, r.contiguous, Total(all))
    ensures Shapes(r, all)
    ensures forall i :: 0 <= i < 6 ==> Place(r, i) == if r.contiguous then all[i].off - lo else Total(all[..i])
  {
    hide Total, PairFits;
    forall i | 0 <= i < 3
      ensures r.m[i] == MatOf(all, lo, r.contiguous, i)
      ensures Place(r, 2 * i) == r.m[i].pOff && Place(r, 2 * i + 1) == r.m[i].sOff
    {
      assert i == 0 || i == 1 || i == 2;
    }
    forall i | 0 <= i < 6
      ensures Place(r, i) == if r.contiguous then all[i].off - lo else Total(all[..i])
    {
      assert i == 2 * (i / 2) || i == 2 * (i / 2) + 1;
    }
  }

  function Values(found: seq<Option<Tensor>>): (all: seq<Tensor>)
    ensures |all| == |found|
    ensures forall i :: 0 <= i < |found| && found[i].Some? ==> all[i] == found[i].value
  {
    seq(|found|, i requires 0 <= i < |found| => match found[i] case Some(t) => t
      case None => Tensor(0, 0, 0, false, []))
  }

  lemma ExtentSnoc(all: seq<Tensor>, i: nat, lo: nat, hi: nat)
    requires i < |all| && (if i > 0 then Extent(all[..i], lo, hi) else lo == all[0].off && hi == 0)
    ensures Extent(all[..i + 1], if all[i].off < lo then all[i].off else lo,
                   if all[i].off + all[i].nbytes > hi then all[i].off + all[i].nbytes else hi)
  {
    var s, t := all[..i], all[..i + 1];
    assert t == s + [all[i]] && t[i] == all[i];
    if i > 0 {
      var j :| 0 <= j < |s| && s[j].off == lo;
      var k :| 0 <= k < |s| && s[k].off + s[k].nbytes == hi;
      assert t[j].off == lo && t[k].off + t[k].nbytes == hi;
    }
  }

  function MatOf(all: seq<Tensor>, lo: nat, contiguous: bool, i: nat): Mat
    requires |all| == 6 && i < 3 && PairFits(all, i) && lo <= all[2 * i].off && lo <= all[2 * i + 1].off
  {
    var p, s := all[2 * i], all[2 * i + 1];
    Mat(if contiguous then p.off - lo else Total(all[..2 * i]), p.nbytes,
        if contiguous then s.off - lo else Total(all[..2 * i + 1]), s.nbytes,
        p.shape[0], p.shape[1], s.shape[1])
  }

  function Arrange(all: seq<Tensor>, lo: nat, contiguous: bool, own: nat): Ref
    requires |all| == 6 && (forall i :: 0 <= i < 6 ==> lo <= all[i].off)
    requires forall i :: 0 <= i < 3 ==> PairFits(all, i)
  {
    Ref(all[0].shard, lo, own, contiguous,
        [MatOf(all, lo, contiguous, 0), MatOf(all, lo, contiguous, 1), MatOf(all, lo, contiguous, 2)])
  }

  /* ---------------------------------------------------------- what is in the file */

  ghost predicate InFiles(disk: seq<seq<byte>>, all: seq<Tensor>) {
    forall i :: 0 <= i < |all| ==> all[i].shard < |disk| && all[i].off + all[i].nbytes <= |disk[all[i].shard]|
  }

  function Bytes(disk: seq<seq<byte>>, t: Tensor): (r: seq<byte>)
    requires t.shard < |disk| && t.off + t.nbytes <= |disk[t.shard]|
    ensures |r| == t.nbytes
  {
    disk[t.shard][t.off..t.off + t.nbytes]
  }

  function Joined(disk: seq<seq<byte>>, all: seq<Tensor>): (r: seq<byte>)
    requires InFiles(disk, all)
    ensures |r| == Total(all)
  {
    if all == [] then [] else Joined(disk, all[..|all| - 1]) + Bytes(disk, all[|all| - 1])
  }

  /** The run an expert occupies is inside its file. */
  lemma RunInFile(disk: seq<seq<byte>>, r: Ref, all: seq<Tensor>, hi: nat)
    requires |all| == 6 && InFiles(disk, all) && Describes(r, all, hi)
    ensures r.shard < |disk| && r.off <= hi <= |disk[r.shard]|
  {
    var i :| 0 <= i < |all| && all[i].off + all[i].nbytes == hi;
    SameShard(all, i);
  }

  lemma SameShard(all: seq<Tensor>, i: nat)
    requires |all| == 6 && i < 6 && forall j :: 0 <= j < 3 ==> PairFits(all, j)
    ensures all[i].shard == all[0].shard
  {
    assert PairFits(all, i / 2);
    assert i == 2 * (i / 2) || i == 2 * (i / 2) + 1;
  }

  /** The bytes of one expert as they are to lie in memory. */
  function Image(disk: seq<seq<byte>>, r: Ref, all: seq<Tensor>, hi: nat): (img: seq<byte>)
    requires |all| == 6 && InFiles(disk, all) && Describes(r, all, hi)
    ensures |img| == r.nbytes
  {
    RunInFile(disk, r, all, hi);
    if r.contiguous then disk[r.shard][r.off..r.off + r.nbytes] else Joined(disk, all)
  }

  lemma {:induction false} JoinedAt(disk: seq<seq<byte>>, all: seq<Tensor>, i: nat)
    requires InFiles(disk, all) && i < |all|
    ensures Total(all[..i]) + all[i].nbytes <= Total(all)
    ensures Joined(disk, all)[Total(all[..i])..Total(all[..i]) + all[i].nbytes] == Bytes(disk, all[i])
  {
    hide Bytes, Joined, Total, InFiles;
    var n := |all| - 1;
    JoinedStep(disk, all);
    if i < n {
      JoinedAt(disk, all[..n], i);
      assert all[..n][..i] == all[..i];
      InTheFirst(Joined(disk, all[..n]), Bytes(disk, all[n]), Total(all[..i]), Total(all[..i]) + all[i].nbytes);
    }
  }

  lemma JoinedStep(disk: seq<seq<byte>>, all: seq<Tensor>)
    requires InFiles(disk, all) && all != []
    ensures var n := |all| - 1;
            && InFiles(disk, all[..n]) && all[n].shard < |disk| && all[n].off + all[n].nbytes <= |disk[all[n].shard]|
            && Joined(disk, all) == Joined(disk, all[..n]) + Bytes(disk, all[n])
            && Total(all) == Total(all[..n]) + all[n].nbytes
  {
    hide Bytes;
  }

  lemma InTheFirst(a: seq<byte>, b: seq<byte>, from: nat, to: nat)
    requires from <= to <= |a|
    ensures (a + b)[from..to] == a[from..to]
  {
  }

  /** One read or six, every matrix lies where the reference says, byte for byte as on disk. */
  lemma ImagePlaces(disk: seq<seq<byte>>, r: Ref, all: seq<Tensor>, hi: nat, i: nat)
    requires |all| == 6 && InFiles(disk, all) && Describes(r, all, hi) && i < 6
    ensures Place(r, i) + all[i].nbytes <= r.nbytes
    ensures Image(disk, r, all, hi)[Place(r, i)..Place(r, i) + all[i].nbytes] == Bytes(disk, all[i])
  {
    hide *;
    RunFacts(disk, r, all, hi);
    SameShard(all, i);
    PlaceOf(r, all, hi, i);
    if r.contiguous {
      SliceOfSlice(disk, r, all[i], Place(r, i));
    } else {
      JoinedAt(disk, all, i);
    }
  }

  lemma PlaceOf(r: Ref, all: seq<Tensor>, hi: nat, i: nat)
    requires |all| == 6 && Describes(r, all, hi) && i < 6
    ensures all[0].shard == r.shard && |r.m| == 3
    ensures r.contiguous ==> Place(r, i) + r.off == all[i].off && all[i].off + all[i].nbytes <= r.off + r.nbytes
    ensures !r.contiguous ==> Place(r, i) == Total(all[..i])
  {
  }

  lemma SliceOfSlice(disk: seq<seq<byte>>, r: Ref, t: Tensor, place: nat)
    requires t.shard == r.shard < |disk| && r.off + r.nbytes <= |disk[r.shard]|
    requires place + r.off == t.off && t.off + t.nbytes <= r.off + r.nbytes
    ensures disk[r.shard][r.off..r.off + r.nbytes][place..place + t.nbytes] == Bytes(disk, t)
  {
    SubSlice(disk[r.shard], r.off, r.off + r.nbytes, place, place + t.nbytes);
  }

  lemma RunFacts(disk: seq<seq<byte>>, r: Ref, all: seq<Tensor>, hi: nat)
    requires |all| == 6 && InFiles(disk, all) && Describes(r, all, hi)
    ensures r.shard < |disk| && r.nbytes == Total(all)
    ensures r.contiguous ==>
            r.off + r.nbytes <= |disk[r.shard]| && Image(disk, r, all, hi) == disk[r.shard][r.off..r.off + r.nbytes]
    ensures !r.contiguous ==> Image(disk, r, all, hi) == Joined(disk, all)
    ensures forall j :: 0 <= j < 3 ==> PairFits(all, j)
    ensures forall j :: 0 <= j < 6 ==> all[j].shard < |disk| && all[j].off + all[j].nbytes <= |disk[all[j].shard]|
  {
    hide Total;
    RunInFile(disk, r, all, hi);
  }

  function Spans(all: seq<Tensor>, base: nat): (t: seq<SpanSweep.Span>)
    requires forall i :: 0 <= i < |all| ==> base <= all[i].off
    ensures |t| == |all|
  {
    seq(|all|, i requires 0 <= i < |all| => SpanSweep.Span(all[i].off - base, all[i].off - base + all[i].nbytes))
  }

  lemma {:induction false} TotalIsLengths(all: seq<Tensor>, base: nat)
    requires forall i :: 0 <= i < |all| ==> base <= all[i].off
    ensures SpanSweep.Lengths(Spans(all, base)) == Total(all)
  {
    if all != [] {
      TotalIsLengths(all[..|all| - 1], base);
      assert Spans(all, base)[..|all| - 1] == Spans(all[..|all| - 1], base);
    }
  }

  /** In a shard the sweep accepted, `contiguous` says exactly that every byte of the run
      belongs to one of the six tensors, and to one only. */
  lemma ContiguousHasNoGap(s: seq<SpanSweep.Span>, pick: seq<nat>, base: nat, r: Ref, all: seq<Tensor>, hi: nat)
    requires |all| == 6 && Describes(r, all, hi) && base <= r.off
    requires SpanSweep.Tiles(s) && SpanSweep.Picked(s, pick, Spans(all, base))
    ensures r.contiguous <==> forall x: nat :: r.off - base <= x < hi - base ==>
            SpanSweep.Cover(Spans(all, base), x) == 1
  {
    hide Total, SpanSweep.Tiles, SpanSweep.Picked, SpanSweep.Cover, SpanSweep.Lengths, Shapes;
    TotalIsLengths(all, base);
    SpanSweep.ExtentIsTiling(s, pick, Spans(all, base), r.off - base, hi - base);
  }

  /* ------------------------------------------------------------------ reading */

  /** How much of a request of n bytes at off there is. */
  function Available(size: nat, off: nat, n: nat): (r: nat)
    ensures r <= n && (r > 0 ==> off + r <= size)
  {
    if off + n <= size then n else if off < size then size - off else 0
  }

  /** A buffer after `got` bytes of the file, from off on, came in at `at`. */
  ghost predicate Received(was: seq<byte>, now: seq<byte>, at: nat, file: seq<byte>, off: nat, got: nat)
    requires at + got <= |was|
  {
    && (got == 0 ==> now == was)
    && (got > 0 ==> off + got <= |file| && now == Splice(was, at, file[off..off + got]))
  }

  lemma ReceivedNone(was: seq<byte>, at: nat, file: seq<byte>, off: nat)
    requires at <= |was|
    ensures Received(was, was, at, file, off, 0)
  {
  }

  lemma ReceivedMore(was: seq<byte>, mid: seq<byte>, now: seq<byte>, at: nat, file: seq<byte>, off: nat, got: nat,
      r: nat)
    requires at + got + r <= |was| && Received(was, mid, at, file, off, got) && |mid| == |was|
    requires Received(mid, now, at + got, file, off + got, r)
    ensures Received(was, now, at, file, off, got + r)
  {
    if got > 0 && r > 0 {
      SpliceTwice(was, at, file[off..off + got], file[off + got..off + got + r]);
      assert file[off..off + got] + file[off + got..off + got + r] == file[off..off + got + r];
    }
  }

  lemma ReceivedWithin(was: seq<byte>, now: seq<byte>, at: nat, file: seq<byte>, off: nat, got: nat, cap: nat)
    requires got <= cap && at + cap <= |was| && Received(was, now, at, file, off, got)
    ensures OnlyWithin(was, now, at, cap)
    ensures got > 0 ==> off + got <= |file| && now[at..at + got] == file[off..off + got]
  {
    if got > 0 { SpliceWithin(was, at, file[off..off + got], cap); }
  }

  /** One system call: some of what was asked for, never past the end of the file; all there is
      if the device is `complete`; with `blocks`, short only by whole blocks. */
  method Pread(file: seq<byte>, blocks: bool, complete: bool, off: nat, req: nat, buf: array<byte>, at: nat)
      returns (r: nat, ghost calls: seq<Call>)
    requires at + req <= buf.Length
    modifies buf
    ensures r <= req && Received(old(buf[..]), buf[..], at, file, off, r)
    ensures blocks ==> r == req || Aligned(r) || off + r == |file|
    ensures complete ==> r == Available(|file|, off, req)
    ensures ByCalls(old(buf[..]), buf[..], calls, Fence(at, req))
  {
    hide ByCalls, Received, Splice;
    var some: nat := *;
    r := Reach(|file|, blocks, complete, off, req, some);
    ghost var was := buf[..];
    calls := [];
    NoCalls(was, Fence(at, req));
    if r > 0 { WriteRun(buf, at, file[off..off + r]); }
    ReceivedNow(was, buf[..], at, file, off, r);
    if r > 0 {
      calls := [Call(at, file[off..off + r])];
      OneCall(was, at, file[off..off + r]);
      WiderFence(was, buf[..], calls, Fence(at, r), Fence(at, req));
    }
  }

  /** How much a call brings when the device would like to bring `some`. */
  function Reach(size: nat, blocks: bool, complete: bool, off: nat, req: nat, some: nat): (r: nat)
    ensures r <= req && (r > 0 ==> off + r <= size)
    ensures blocks ==> r == req || Aligned(r) || off + r == size
    ensures complete ==> r == Available(size, off, req)
  {
    var r := Available(size, off, if complete || some > req then req else some);
    if blocks && r < req && off + r < size then AlignFacts(r); Down(r) else r
  }

  lemma ReceivedNow(was: seq<byte>, now: seq<byte>, at: nat, file: seq<byte>, off: nat, r: nat)
    requires at + r <= |was| && (r > 0 ==> off + r <= |file|)
    requires now == if r == 0 then was else was[..at] + file[off..off + r] + was[at + r..]
    ensures Received(was, now, at, file, off, r)
    ensures r > 0 ==> now == Splice(was, at, file[off..off + r])
  {
  }

  /** The loop around it: until everything has come, or nothing more does. */
  method Read(file: seq<byte>, blocks: bool, complete: bool, off: nat, n: nat, buf: array<byte>, at: nat)
      returns (got: nat, ghost calls: seq<Call>)
    requires at + n <= buf.Length
    modifies buf
    ensures got <= n && Received(old(buf[..]), buf[..], at, file, off, got)
    ensures blocks ==> got == n || Aligned(got) || off + got == |file|
    ensures complete ==> got == Available(|file|, off, n)
    ensures ByCalls(old(buf[..]), buf[..], calls, Fence(at, n))
  {
    hide Received, Splice, ByCalls;
    assert Aligned(0);
    got, calls := 0, [];
    ghost var was := buf[..];
    ReceivedNone(was, at, file, off);
    NoCalls(was, Fence(at, n));
    while got < n
      invariant got <= n && Received(was, buf[..], at, file, off, got) && (got > 0 ==> off + got <= |file|)
      invariant blocks ==> got == n || Aligned(got) || off + got == |file|
      invariant ByCalls(was, buf[..], calls, Fence(at, n))
      decreases n - got
    {
      var req := if n - got < PREAD_MAX then n - got else PREAD_MAX;
      ghost var mid := buf[..];
      ghost var more;
      var r;
      r, more := Pread(file, blocks, complete, off + got, req, buf, at + got);
      ReceivedMore(was, mid, buf[..], at, file, off, got, r);
      WiderFence(mid, buf[..], more, Fence(at + got, req), Fence(at, n));
      MoreCalls(was, mid, buf[..], calls, more, Fence(at, n));
      if blocks { BlocksMore(|file|, off, n, got, req, r); }
      ReceivedEnds(was, buf[..], at, file, off, got + r);
      got, calls := got + r, calls + more;
      if r == 0 { return; }
    }
  }

  lemma ReceivedEnds(was: seq<byte>, now: seq<byte>, at: nat, file: seq<byte>, off: nat, got: nat)
    requires at + got <= |was| && Received(was, now, at, file, off, got)
    ensures got > 0 ==> off + got <= |file|
  {
  }

  lemma BlocksMore(size: nat, off: nat, n: nat, got: nat, req: nat, r: nat)
    requires got < n && req == (if n - got < PREAD_MAX then n - got else PREAD_MAX) && r <= req
    requires Aligned(got) || off + got == size
    requires r == req || Aligned(r) || off + got + r == size
    requires r > 0 ==> off + got + r <= size
    ensures got + r == n || Aligned(got + r) || off + (got + r) == size
  {
  }

  /** Only the `cap` bytes from `at` on have changed. */
  ghost predicate OnlyWithin(was: seq<byte>, now: seq<byte>, at: nat, cap: nat)
    requires at + cap <= |was|
  {
    |now| == |was| && now[..at] == was[..at] && now[at + cap..] == was[at + cap..]
  }

  lemma SpliceWithin(was: seq<byte>, at: nat, bytes: seq<byte>, cap: nat)
    requires |bytes| <= cap && at + cap <= |was|
    ensures OnlyWithin(was, Splice(was, at, bytes), at, cap)
    ensures Splice(was, at, bytes)[at..at + |bytes|] == bytes
  {
  }

  lemma WithinTwice(a: seq<byte>, b: seq<byte>, c: seq<byte>, at: nat, cap: nat)
    requires at + cap <= |a| && OnlyWithin(a, b, at, cap) && OnlyWithin(b, c, at, cap)
    ensures OnlyWithin(a, c, at, cap)
  {
  }

  lemma WithinWider(a: seq<byte>, b: seq<byte>, at: nat, n: nat, cap: nat)
    requires n <= cap && at + cap <= |a| && OnlyWithin(a, b, at, n)
    ensures OnlyWithin(a, b, at, cap)
  {
    assert b[at + cap..] == b[at + n..][cap - n..];
  }

  /** How many bytes a read of n at off touches: all of its window with O_DIRECT. */
  function Touched(direct: bool, off: nat, n: nat): (t: nat)
    ensures t >= n
  {
    WindowAround(off, n);
    if direct then Up(off + n) - Down(off) else n
  }

  lemma TouchedAligned(direct: bool, off: nat, n: nat)
    requires Aligned(off) && Aligned(n)
    ensures Touched(direct, off, n) == n && Down(off) == off
  {
  }

  /** `k3_st_read_aligned`: the enclosing aligned window with O_DIRECT, the plain bytes without;
      `pad` is where the payload begins.  Nothing is read when that would not fit. */
  method ReadAligned(file: seq<byte>, direct: bool, blocks: bool, complete: bool, off: nat, n: nat, buf: array<byte>,
      at: nat, cap: nat)
    returns (got: nat, pad: nat, ghost calls: seq<Call>)
    requires at + cap <= buf.Length
    modifies buf
    ensures if Touched(direct, off, n) <= cap then OnlyWithin(old(buf[..]), buf[..], at, Touched(direct, off, n))
            else buf[..] == old(buf[..])
    ensures got <= n && pad == (if direct && Touched(direct, off, n) <= cap then off - Down(off) else 0)
    ensures got > 0 ==> pad + got <= cap && off + got <= |file| && buf[at + pad..at + pad + got] == file[off..off + got]
    ensures blocks && Aligned(off) && Aligned(n) ==> Delivers(|file|, off, n, got)
    ensures complete && Touched(direct, off, n) <= cap ==> got == Available(|file|, off, n)
    ensures ByCalls(old(buf[..]), buf[..], calls, if Touched(direct, off, n) <= cap
            then Fence(at, Touched(direct, off, n)) else Fence(at, 0))
  {
    hide OnlyWithin, Received, Down, Up, Delivers, Aligned, ByCalls, Available;
    WindowAround(off, n);
    got, pad, calls := 0, 0, [];
    NoCalls(buf[..], Fence(at, 0));
    if blocks && Aligned(off) && Aligned(n) { ShortByBlocks(|file|, off, n, 0); }
    if !direct {
      if cap < n { return; }
      got, calls := ReadWindow(file, blocks, complete, off, n, off, n, buf, at);
      return;
    }
    var lo, hi := Down(off), Up(off + n);
    if blocks && Aligned(off) && Aligned(n) { TouchedAligned(direct, off, n); }
    if hi - lo > cap { return; }
    pad := off - lo;
    got, calls := ReadWindow(file, blocks, complete, off, n, lo, hi - lo, buf, at);
  }

  /** Read the `len` bytes from lo on, which include the payload; how much of that came? */
  method ReadWindow(file: seq<byte>, blocks: bool, complete: bool, off: nat, n: nat, lo: nat, len: nat,
      buf: array<byte>,
      at: nat)
      returns (got: nat, ghost calls: seq<Call>)
    requires at + len <= buf.Length && lo <= off && off + n <= lo + len
    modifies buf
    ensures OnlyWithin(old(buf[..]), buf[..], at, len) && got <= n
    ensures got > 0 ==>
              && off + got <= |file|
              && buf[at + (off - lo)..at + (off - lo) + got] == file[off..off + got]
    ensures blocks && Aligned(n) && lo == off && len == n ==> Delivers(|file|, off, n, got)
    ensures complete ==> got == Available(|file|, off, n)
    ensures ByCalls(old(buf[..]), buf[..], calls, Fence(at, len))
  {
    hide OnlyWithin, Received, Delivers, Aligned, ByCalls;
    ghost var was := buf[..];
    var all;
    all, calls := Read(file, blocks, complete, lo, len, buf, at);
    ReceivedWithin(was, buf[..], at, file, lo, all, len);
    var pad := off - lo;
    got := if all >= pad + n then n else if all > pad then all - pad else 0;
    if got > 0 { PayloadOf(file, buf[..], at, lo, all, pad, got); }
    if blocks && Aligned(n) && lo == off && len == n { ShortByBlocks(|file|, off, n, got); }
  }

  lemma ShortByBlocks(size: nat, off: nat, n: nat, got: nat)
    requires Aligned(n) && got <= n && (got == n || got == 0 || Aligned(got) || off + got == size)
    ensures Delivers(size, off, n, got)
  {
  }

  lemma WithinItself(was: seq<byte>, at: nat, cap: nat)
    requires at + cap <= |was|
    ensures OnlyWithin(was, was, at, cap)
  {
  }

  lemma PayloadOf(file: seq<byte>, now: seq<byte>, at: nat, lo: nat, all: nat, pad: nat, n: nat)
    requires pad + n <= all && at + all <= |now| && lo + all <= |file| && now[at..at + all] == file[lo..lo + all]
    ensures now[at + pad..at + pad + n] == file[lo + pad..lo + pad + n]
  {
    SubSlice(now, at, at + all, pad, pad + n);
    SubSlice(file, lo, lo + all, pad, pad + n);
  }

  /** Where the bytes of tensor i end in a packed image. */
  lemma {:induction false} TotalUpTo(all: seq<Tensor>, i: nat)
    requires i < |all|
    ensures Total(all[..i + 1]) == Total(all[..i]) + all[i].nbytes <= Total(all)
  {
    assert all[..i + 1][..i] == all[..i];
    if i < |all| - 1 {
      TotalUpTo(all[..|all| - 1], i);
      assert all[..|all| - 1][..i] == all[..i] && all[..|all| - 1][..i + 1] == all[..i + 1];
    } else {
      assert all[..i + 1] == all;
    }
  }

  /** `k3_expert_load`: one read, or six into their packed places; all of it from a device that
      is complete. */
  method Load(disk: seq<seq<byte>>, complete: bool, r: Ref, all: seq<Tensor>, ghost hi: nat, buf: array<byte>, at: nat,
      ghost cap: nat)
    returns (got: nat, ghost calls: seq<Call>)
    requires |all| == 6 && InFiles(disk, all) && Describes(r, all, hi)
    requires r.nbytes <= cap && at + cap <= buf.Length
    modifies buf
    ensures OnlyWithin(old(buf[..]), buf[..], at, cap) && got <= r.nbytes
    ensures got == r.nbytes ==> buf[at..at + r.nbytes] == Image(disk, r, all, hi)
    ensures complete ==> got == r.nbytes
    ensures ByCalls(old(buf[..]), buf[..], calls, Fence(at, cap))
  {
    hide Describes, Image, InFiles, Total, OnlyWithin, Received, ByCalls;
    RunFacts(disk, r, all, hi);
    ghost var was := buf[..];
    if r.contiguous {
      got, calls := Read(disk[r.shard], false, complete, r.off, r.nbytes, buf, at);
      ReceivedWithin(was, buf[..], at, disk[r.shard], r.off, got, cap);
      WiderFence(was, buf[..], calls, Fence(at, r.nbytes), Fence(at, cap));
    } else {
      got, calls := LoadParts(disk, complete, all, buf, at, cap);
    }
  }

  method LoadParts(disk: seq<seq<byte>>, complete: bool, all: seq<Tensor>, buf: array<byte>, at: nat, ghost cap: nat)
      returns (got: nat, ghost calls: seq<Call>)
    requires InFiles(disk, all) && Total(all) <= cap && at + cap <= buf.Length
    modifies buf
    ensures OnlyWithin(old(buf[..]), buf[..], at, cap) && got <= Total(all)
    ensures got == Total(all) ==> buf[at..at + Total(all)] == Joined(disk, all)
    ensures complete ==> got == Total(all)
    ensures ByCalls(old(buf[..]), buf[..], calls, Fence(at, cap))
  {
    hide Total, Joined, OnlyWithin, Received, ByCalls;
    got, calls := 0, [];
    var place := 0;
    ghost var was := buf[..];
    JoinedNone(disk);
    WithinItself(was, at, cap);
    NoCalls(was, Fence(at, cap));
    assert all[..0] == [] && buf[at..at] == [];
    for i := 0 to |all|
      invariant buf.Length == |was| && OnlyWithin(was, buf[..], at, cap)
      invariant place == Total(all[..i]) <= Total(all) && got <= place && (complete ==> got == place)
      invariant InFiles(disk, all[..i])
      invariant got == place ==> buf[at..at + place] == Joined(disk, all[..i])
      invariant ByCalls(was, buf[..], calls, Fence(at, cap))
    {
      TotalUpTo(all, i);
      ghost var before := buf[..];
      ghost var more;
      var n;
      n, more := Read(disk[all[i].shard], false, complete, all[i].off, all[i].nbytes, buf, at + place);
      PartWritten(disk, all, i, was, before, buf[..], at, cap, place, n);
      WiderFence(before, buf[..], more, Fence(at + place, all[i].nbytes), Fence(at, cap));
      MoreCalls(was, before, buf[..], calls, more, Fence(at, cap));
      got, place, calls := got + n, place + all[i].nbytes, calls + more;
    }
    assert all[..|all|] == all;
  }

  lemma JoinedNone(disk: seq<seq<byte>>)
    ensures Joined(disk, []) == [] && Total([]) == 0
  {
  }

  lemma PartWritten(disk: seq<seq<byte>>, all: seq<Tensor>, i: nat, was: seq<byte>, before: seq<byte>, now: seq<byte>,
                    at: nat, cap: nat, place: nat, n: nat)
    requires i < |all| && InFiles(disk, all) && at + cap <= |was| && OnlyWithin(was, before, at, cap)
    requires place == Total(all[..i]) && place + all[i].nbytes <= cap && n <= all[i].nbytes
    requires Received(before, now, at + place, disk[all[i].shard], all[i].off, n)
    ensures InFiles(disk, all[..i]) && InFiles(disk, all[..i + 1]) && OnlyWithin(was, now, at, cap)
    ensures n == all[i].nbytes && before[at..at + place] == Joined(disk, all[..i]) ==>
              now[at..at + place + all[i].nbytes] == Joined(disk, all[..i + 1])
  {
    hide Total;
    ReceivedWithin(before, now, at + place, disk[all[i].shard], all[i].off, n, n);
    assert OnlyWithin(before, now, at, cap);
    WithinTwice(was, before, now, at, cap);
    assert all[..i + 1][..i] == all[..i];
    if n == all[i].nbytes { PartJoins(before, now, at, place, n); }
  }

  lemma PartJoins(before: seq<byte>, now: seq<byte>, at: nat, place: nat, n: nat)
    requires at + place + n <= |before| && OnlyWithin(before, now, at + place, n)
    ensures now[at..at + place + n] == before[at..at + place] + now[at + place..at + place + n]
  {
    assert now[at..at + place] == before[..at + place][at..];
  }

  /** `k3_expert_load_direct`: after a full read the expert's bytes start at `pad`.  A complete
      device yields a full read if the bytes touched fit. */
  method LoadDirect(disk: seq<seq<byte>>, direct: bool, complete: bool, r: Ref, all: seq<Tensor>, ghost hi: nat,
      buf: array<byte>, at: nat, cap: nat)
    returns (got: nat, pad: nat, ghost calls: seq<Call>)
    requires |all| == 6 && InFiles(disk, all) && Describes(r, all, hi)
    requires r.nbytes <= cap && at + cap <= buf.Length
    modifies buf
    ensures OnlyWithin(old(buf[..]), buf[..], at, cap) && got <= r.nbytes
    ensures got == r.nbytes > 0 ==>
            pad + r.nbytes <= cap && buf[at + pad..at + pad + r.nbytes] == Image(disk, r, all, hi)
    ensures complete && (r.contiguous ==> Touched(direct, r.off, r.nbytes) <= cap) ==> got == r.nbytes
    ensures ByCalls(old(buf[..]), buf[..], calls, Fence(at, cap))
  {
    hide Describes, Image, InFiles, OnlyWithin, ByCalls, Touched;
    RunFacts(disk, r, all, hi);
    ghost var was := buf[..];
    if !r.contiguous {
      pad := 0;
      got, calls := Load(disk, complete, r, all, hi, buf, at, cap);
    } else {
      got, pad, calls := ReadAligned(disk[r.shard], direct, false, complete, r.off, r.nbytes, buf, at, cap);
      var touched := Touched(direct, r.off, r.nbytes);
      LoadedWithin(was, buf[..], at, touched, cap);
      WiderFence(was, buf[..], calls, Fence(at, if touched <= cap then touched else 0), Fence(at, cap));
    }
  }

  lemma LoadedWithin(was: seq<byte>, now: seq<byte>, at: nat, touched: nat, cap: nat)
    requires at + cap <= |was| && if touched <= cap then OnlyWithin(was, now, at, touched) else now == was
    ensures OnlyWithin(was, now, at, cap)
  {
    if touched <= cap { WithinWider(was, now, at, touched, cap); } else { WithinItself(was, at, cap); }
  }
}
