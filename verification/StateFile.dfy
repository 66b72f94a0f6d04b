/** Saved sessions (src/cli/k3_state.c): what `k3_state_save` writes, what `k3_state_load`
    accepts and restores, and why a resumed run emits what an uninterrupted one would. */
module StateFile {
  import opened CarriedState
  import opened Common
  import opened StateHash
  import opened Decode

  /** The memory image of one value: fwrite and fread move exactly these bytes. */
  datatype Codec<!T(!new)> = Codec(size: nat, enc: T -> seq<byte>, dec: seq<byte> -> T)
  {
    ghost predicate Lawful() {
      forall x :: |enc(x)| == size && dec(enc(x)) == x
    }
  }

  /** A C int: the ids of a sequence. */
  type int32 = x: int | -0x8000_0000 <= x < 0x8000_0000

  datatype Codecs<!R(!new), !K(!new), !P(!new)> = Codecs(tok: Codec<int32>, rec: Codec<R>, kv: Codec<K>, rope: Codec<P>)
  {
    ghost predicate Lawful() {
      tok.Lawful() && rec.Lawful() && kv.Lawful() && rope.Lawful()
    }
  }

  /** An id on disk: two's complement, low byte first. */
  function Int32Codec(): Codec<int32> {
    Codec(4, Int32Bytes, Int32Value)
  }

  function Int32Bytes(x: int32): seq<byte> {
    var u: nat := x % 0x1_0000_0000;
    [LowByte(u), LowByte(u / 256), LowByte(u / 65536), LowByte(u / 16777216)]
  }

  function LowByte(u: nat): byte {
    u % 256
  }

  function Int32Value(b: seq<byte>): int32 {
    if |b| != 4 then 0
    else
      var u := b[0] as int + 256 * (b[1] as int) + 65536 * (b[2] as int) + 16777216 * (b[3] as int);
      if u >= 0x8000_0000 then u - 0x1_0000_0000 else u
  }

  lemma Int32CodecIsLawful()
    ensures Int32Codec().Lawful()
  {
    forall x: int32 ensures Int32Value(Int32Bytes(x)) == x {
      var u := x % 0x1_0000_0000;
      FourBytes(u);
    }
  }

  lemma FourBytes(u: nat)
    requires u < 0x1_0000_0000
    ensures u == u % 256 + 256 * (u / 256 % 256) + 65536 * (u / 65536 % 256) + 16777216 * (u / 16777216 % 256)
  {
    var v := u / 256;
    assert u == 256 * v + u % 256;
    var w := v / 256;
    assert w == u / 65536 && v == 256 * w + v % 256;
    assert w / 256 == u / 16777216 && w == 256 * (w / 256) + w % 256;
  }

  datatype Header = Header(fp: seq<int>, nBound: nat, nMla: nat, cached: nat, nseq: nat, hash: nat)

  datatype File = File(hd: Header, payload: seq<byte>)

  /* --------------------------------------------------------------- byte images */

  function EncAll<T(!new)>(c: Codec<T>, xs: seq<T>): seq<byte> {
    if xs == [] then [] else c.enc(xs[0]) + EncAll(c, xs[1..])
  }

  function DecAll<T(!new)>(c: Codec<T>, b: seq<byte>, n: nat): (r: seq<T>)
    requires |b| == n * c.size
    ensures |r| == n
    decreases n
  {
    if n == 0 then []
    else
      MulStep(n, c.size);
      [c.dec(b[..c.size])] + DecAll(c, b[c.size..], n - 1)
  }

  lemma MulStep(n: nat, k: nat)
    requires n > 0
    ensures n * k == k + (n - 1) * k && n * k >= k
  {
  }

  lemma {:induction false} EncAllSize<T(!new)>(c: Codec<T>, xs: seq<T>)
    requires c.Lawful()
    ensures |EncAll(c, xs)| == |xs| * c.size
  {
    if xs != [] {
      EncAllSize(c, xs[1..]);
      MulStep(|xs|, c.size);
      assert |c.enc(xs[0])| == c.size;
    }
  }

  /** Reading back what was written. */
  lemma {:induction false} DecEncAll<T(!new)>(c: Codec<T>, xs: seq<T>)
    requires c.Lawful()
    ensures |EncAll(c, xs)| == |xs| * c.size
    ensures DecAll(c, EncAll(c, xs), |xs|) == xs
  {
    EncAllSize(c, xs);
    if xs != [] {
      var e, rest := c.enc(xs[0]), EncAll(c, xs[1..]);
      DecEncAll(c, xs[1..]);
      assert |e| == c.size && c.dec(e) == xs[0];
      assert (e + rest)[..c.size] == e && (e + rest)[c.size..] == rest;
      assert xs == [xs[0]] + xs[1..];
    }
  }

  function Slices<T(!new)>(c: Codec<T>, buf: seq<T>, n: nat, cap: nat, count: nat, from: nat): (r: seq<seq<byte>>)
    requires |buf| == n * cap && count <= cap && from <= n
    ensures |r| == n - from
    decreases n - from
  {
    if from == n then [] else [EncAll(c, Slice(buf, n, cap, from, count))] + Slices(c, buf, n, cap, count, from + 1)
  }

  lemma {:induction false} SlicesAt<T(!new)>(c: Codec<T>, buf: seq<T>, n: nat, cap: nat, count: nat, from: nat, mi: nat)
    requires |buf| == n * cap && count <= cap && from <= mi < n
    ensures Slices(c, buf, n, cap, count, from)[mi - from] == EncAll(c, Slice(buf, n, cap, mi, count))
    decreases n - from
  {
    if from < mi { SlicesAt(c, buf, n, cap, count, from + 1, mi); }
  }

  function Concat(segs: seq<seq<byte>>): seq<byte> {
    if segs == [] then [] else segs[0] + Concat(segs[1..])
  }

  lemma ConcatOne(seg: seq<byte>)
    ensures Concat([seg]) == seg
    ensures forall h: nat {:trigger Chain(h, [seg])} :: Chain(h, [seg]) == Hash(h, seg)
  {
    var tail: seq<seq<byte>> := [seg][1..];
    assert tail == [];
    assert seg + [] == seg;
  }

  lemma {:induction false} ConcatAppend(a: seq<seq<byte>>, b: seq<seq<byte>>)
    ensures Concat(a + b) == Concat(a) + Concat(b)
  {
    if a == [] {
      assert a + b == b;
    } else {
      assert (a + b)[1..] == a[1..] + b;
      ConcatAppend(a[1..], b);
    }
  }

  /** The payload cut into pieces of the given sizes. */
  function Cut(payload: seq<byte>, sizes: seq<nat>): (r: seq<seq<byte>>)
    requires Total(sizes) <= |payload|
    ensures |r| == |sizes|
    ensures forall i :: 0 <= i < |sizes| ==> |r[i]| == sizes[i]
  {
    if sizes == [] then [] else [payload[..sizes[0]]] + Cut(payload[sizes[0]..], sizes[1..])
  }

  function Total(sizes: seq<nat>): nat {
    if sizes == [] then 0 else sizes[0] + Total(sizes[1..])
  }

  function Sizes(segs: seq<seq<byte>>): (r: seq<nat>)
    ensures |r| == |segs|
  {
    if segs == [] then [] else [|segs[0]|] + Sizes(segs[1..])
  }

  lemma CutFront(s0: seq<byte>, more: seq<byte>, left: seq<nat>)
    requires Total(left) <= |more|
    ensures Total([|s0|] + left) <= |s0 + more|
    ensures Cut(s0 + more, [|s0|] + left) == [s0] + Cut(more, left)
  {
    assert ([|s0|] + left)[1..] == left;
    assert (s0 + more)[..|s0|] == s0 && (s0 + more)[|s0|..] == more;
  }

  lemma {:induction false} CutConcat(segs: seq<seq<byte>>, rest: seq<byte>)
    ensures Total(Sizes(segs)) == |Concat(segs)|
    ensures Cut(Concat(segs) + rest, Sizes(segs)) == segs
  {
    if segs != [] {
      hide Cut;
      CutConcat(segs[1..], rest);
      var more := Concat(segs[1..]) + rest;
      CutFront(segs[0], more, Sizes(segs[1..]));
      assert Concat(segs) + rest == segs[0] + more;
      assert Sizes(segs)[1..] == Sizes(segs[1..]);
    }
  }

  lemma {:induction false} ChainAppend(h: nat, a: seq<seq<byte>>, b: seq<seq<byte>>)
    ensures Chain(h, a + b) == Chain(Chain(h, a), b)
    decreases |a|
  {
    if a == [] {
      assert a + b == b;
    } else {
      assert (a + b)[1..] == a[1..] + b;
      ChainAppend(Hash(h, a[0]), a[1..], b);
    }
  }

  /* ------------------------------------------------------------------------- save */

  /** What goes into a file, in order: the ids, the recurrent state, then every layer's KV
      rows and every layer's rope rows, occupied positions only. */
  function Segments<R(!new), K(!new), P(!new)>(cd: Codecs<R, K, P>, s: seq<int32>, ks: R, kv: seq<K>, rope: seq<P>,
      n: nat, cap: nat, cached: nat): (r: seq<seq<byte>>)
    requires |kv| == |rope| == n * cap && cached <= cap
    ensures |r| == 2 + n + n
  {
    [EncAll(cd.tok, s), cd.rec.enc(ks)] + Slices(cd.kv, kv, n, cap, cached, 0)
      + Slices(cd.rope, rope, n, cap, cached, 0)
  }

  /** Append a segment to the payload and to the hash, unless the disk refuses it. */
  method HWrite(payload: seq<byte>, h: nat, seg: seq<byte>, granted: bool)
      returns (ok: bool, payload': seq<byte>, h': nat)
    ensures ok <==> granted
    ensures ok ==> payload' == payload + seg && h' == Hash(h, seg)
  {
    ok := granted;
    payload' := payload + seg;
    h' := HashBytes(h, seg);
  }

  /** The disk takes all segments of a state with n latent layers, and the publishing behind them. */
  ghost predicate AllWritten(writes: nat -> bool, n: nat) {
    forall i: nat :: i <= 2 + n + n ==> writes(i)
  }

  /** `writes` says which of the writes the disk grants.  When it refuses one, nothing is
      published and the file there before stays. */
  method Save<R(!new), K(0, !new), P(0, !new), L(!new)>(w: Engine<R, K, P, L>, cd: Codecs<R, K, P>, fp: seq<int>,
      nBound: nat,
      s: seq<int32>, writes: nat -> bool)
    returns (ok: bool, f: File)
    requires w.Valid()
    ensures ok <==> AllWritten(writes, w.nMla)
    ensures ok ==> f.hd == Header(fp, nBound, w.nMla, w.cached, |s|, f.hd.hash)
    ensures ok ==> var segs := Segments(cd, s, w.ks, w.kvc[..], w.ropec[..], w.nMla, w.kvCap, w.cached);
                   f.payload == Concat(segs) && f.hd.hash == Chain(INIT, segs)
  {
    ghost var all := Segments(cd, s, w.ks, w.kvc[..], w.ropec[..], w.nMla, w.kvCap, w.cached);
    var segs := [EncAll(cd.tok, s), cd.rec.enc(w.ks)]
             + Slices(cd.kv, w.kvc[..], w.nMla, w.kvCap, w.cached, 0)
             + Slices(cd.rope, w.ropec[..], w.nMla, w.kvCap, w.cached, 0);
    var payload: seq<byte>, h := [], INIT;
    f := File(Header(fp, nBound, w.nMla, w.cached, |s|, 0), []);
    for i := 0 to |segs|
      invariant payload == Concat(segs[..i]) && h == Chain(INIT, segs[..i])
      invariant forall j: nat :: j < i ==> writes(j)
    {
      assert segs[..i + 1] == segs[..i] + [segs[i]];
      ConcatAppend(segs[..i], [segs[i]]);
      ChainAppend(INIT, segs[..i], [segs[i]]);
      ConcatOne(segs[i]);
      ok, payload, h := HWrite(payload, h, segs[i], writes(i));
      if !ok { return; }
    }
    assert segs[..|segs|] == segs;
    ok := writes(|segs|);
    if !ok { return; }
    f := File(Header(fp, nBound, w.nMla, w.cached, |s|, h), payload);
  }

  /* ------------------------------------------------------------------------- load */

  function Rep(n: nat, x: nat): (r: seq<nat>)
    ensures |r| == n && forall i :: 0 <= i < n ==> r[i] == x
  {
    seq(n, _ => x)
  }

  function LoadSizes<R(!new), K(!new), P(!new)>(cd: Codecs<R, K, P>, hd: Header): (r: seq<nat>)
    ensures |r| == 2 + hd.nMla + hd.nMla
  {
    [hd.nseq * cd.tok.size, cd.rec.size] + Rep(hd.nMla, hd.cached * cd.kv.size) + Rep(hd.nMla, hd.cached * cd.rope.size)
  }

  /** The file belongs to this architecture, fits this KV cache, is not truncated, and hashes to
      what its header says. */
  predicate Accepts<R(!new), K(!new), P(!new)>(cd: Codecs<R, K, P>, f: File, fp: seq<int>, nBound: nat, nMla: nat,
      kvCap: nat) {
    && f.hd.fp == fp && f.hd.nBound == nBound && f.hd.nMla == nMla && f.hd.cached <= kvCap
    && Total(LoadSizes(cd, f.hd)) <= |f.payload|
    && Chain(INIT, Cut(f.payload, LoadSizes(cd, f.hd))) == f.hd.hash
  }

  lemma CutMore(segs: seq<seq<byte>>, rest: seq<byte>, left: seq<nat>)
    requires left != [] && Total(left) <= |rest|
    ensures segs + Cut(rest, left) == segs + [rest[..left[0]]] + Cut(rest[left[0]..], left[1..])
  {
  }

  /** fread, segment by segment, folding what was read into the running hash.  The stream is
      what is left of the payload. */
  method ReadAll(payload: seq<byte>, sizes: seq<nat>) returns (ok: bool, segs: seq<seq<byte>>, h: nat)
    ensures ok <==> Total(sizes) <= |payload|
    ensures ok ==> segs == Cut(payload, sizes) && h == Chain(INIT, segs)
  {
    ok, segs, h := true, [], INIT;
    var rest: seq<byte>, left: seq<nat> := payload, sizes;
    while left != []
      invariant Total(sizes) <= |payload| <==> Total(left) <= |rest|
      invariant h == Chain(INIT, segs)
      invariant Total(left) <= |rest| && Total(sizes) <= |payload| ==> segs + Cut(rest, left) == Cut(payload, sizes)
      decreases |left|
    {
      if left[0] > |rest| { ok := false; return; }
      var seg := rest[..left[0]];
      if Total(left) <= |rest| { CutMore(segs, rest, left); }
      ChainAppend(INIT, segs, [seg]);
      ConcatOne(seg);
      h := HashBytes(h, seg);
      segs := segs + [seg];
      rest, left := rest[left[0]..], left[1..];
    }
  }

  /** Put each decoded segment at the start of its layer's slice, whatever the stride. */
  method Distribute<T(!new)>(buf: array<T>, c: Codec<T>, n: nat, cap: nat, count: nat, segs: seq<seq<byte>>)
    requires buf.Length == n * cap && count <= cap && |segs| == n
    requires forall mi :: 0 <= mi < n ==> |segs[mi]| == count * c.size
    modifies buf
    ensures forall mi :: 0 <= mi < n ==> Slice(buf[..], n, cap, mi, count) == DecAll(c, segs[mi], count)
  {
    for mi := 0 to n
      invariant forall mj :: 0 <= mj < mi ==> Slice(buf[..], n, cap, mj, count) == DecAll(c, segs[mj], count)
    {
      SliceFits(n, cap, mi);
      ghost var was := buf[..];
      WriteRun(buf, At(mi, cap, 0), DecAll(c, segs[mi], count));
      SliceWritten(was, buf[..], n, cap, mi, count, DecAll(c, segs[mi], count));
    }
  }

  method Load<R(!new), K(0, !new), P(0, !new), L(!new)>(w: Engine<R, K, P, L>, cd: Codecs<R, K, P>, fp: seq<int>,
      nBound: nat,
      f: File)
    returns (ok: bool, s: seq<int32>)
    requires w.Valid()
    modifies w`ks, w`cached, w.kvc, w.ropec
    ensures w.Valid()
    ensures ok <==> Accepts(cd, f, fp, nBound, w.nMla, w.kvCap)
    ensures ok ==> w.cached == f.hd.cached && |s| == f.hd.nseq
    ensures ok ==> Restored(cd, Cut(f.payload, LoadSizes(cd, f.hd)), s, w.ks, w.kvc[..], w.ropec[..], w.nMla,
            w.kvCap, w.cached)
  {
    s := [];
    ok := f.hd.fp == fp && f.hd.nBound == nBound && f.hd.nMla == w.nMla && f.hd.cached <= w.kvCap;
    if !ok { return; }
    var segs, h;
    ok, segs, h := ReadAll(f.payload, LoadSizes(cd, f.hd));
    if !ok { return; }
    s := DecAll(cd.tok, segs[0], f.hd.nseq);
    w.ks := cd.rec.dec(segs[1]);
    Distribute(w.kvc, cd.kv, w.nMla, w.kvCap, f.hd.cached, segs[2..2 + w.nMla]);
    Distribute(w.ropec, cd.rope, w.nMla, w.kvCap, f.hd.cached, segs[2 + w.nMla..]);
    ok := h == f.hd.hash;
    w.cached := f.hd.cached;
  }

  /** Memory holds what the segments say. */
  ghost predicate Restored<R(!new), K(!new), P(!new)>(cd: Codecs<R, K, P>, segs: seq<seq<byte>>, s: seq<int32>, ks: R,
      kv: seq<K>, rope: seq<P>, n: nat, cap: nat, cached: nat)
  {
    && |segs| == 2 + n + n && |kv| == |rope| == n * cap && cached <= cap
    && |segs[0]| == |s| * cd.tok.size && s == DecAll(cd.tok, segs[0], |s|)
    && ks == cd.rec.dec(segs[1])
    && (forall mi :: 0 <= mi < n ==>
          |segs[2 + mi]| == cached * cd.kv.size && Slice(kv, n, cap, mi, cached) == DecAll(cd.kv, segs[2 + mi], cached))
    && (forall mi :: 0 <= mi < n ==>
          |segs[2 + n + mi]| == cached * cd.rope.size && Slice(rope, n, cap, mi, cached)
            == DecAll(cd.rope, segs[2 + n + mi], cached))
  }

  /* ------------------------------------------------------------------ round trip */

  lemma {:induction false} SlicesSizes<T(!new)>(c: Codec<T>, buf: seq<T>, n: nat, cap: nat, count: nat, from: nat)
    requires c.Lawful() && |buf| == n * cap && count <= cap && from <= n
    ensures Sizes(Slices(c, buf, n, cap, count, from)) == Rep(n - from, count * c.size)
    decreases n - from
  {
    var sl := Slices(c, buf, n, cap, count, from);
    if from < n {
      SlicesSizes(c, buf, n, cap, count, from + 1);
      EncAllSize(c, Slice(buf, n, cap, from, count));
      assert sl[1..] == Slices(c, buf, n, cap, count, from + 1);
      assert Rep(n - from, count * c.size) == [count * c.size] + Rep(n - (from + 1), count * c.size);
    }
  }

  lemma {:induction false} SizesAppend(a: seq<seq<byte>>, b: seq<seq<byte>>)
    ensures Sizes(a + b) == Sizes(a) + Sizes(b)
  {
    if a == [] {
      assert a + b == b;
    } else {
      assert (a + b)[1..] == a[1..] + b;
      SizesAppend(a[1..], b);
    }
  }

  lemma TwoSizes(a: seq<byte>, b: seq<byte>)
    ensures Sizes([a, b]) == [|a|, |b|]
  {
    var t: seq<seq<byte>> := [a, b][1..];
    assert t == [b];
    var e: seq<seq<byte>> := t[1..];
    assert e == [];
  }

  /** The sizes a load derives from the header are those a save wrote. */
  lemma SavedSizes<R(!new), K(!new), P(!new)>(cd: Codecs<R, K, P>, s: seq<int32>, ks: R, kv: seq<K>, rope: seq<P>,
      n: nat, cap: nat, cached: nat, hd: Header)
    requires cd.Lawful() && |kv| == |rope| == n * cap && cached <= cap
    requires hd.nMla == n && hd.cached == cached && hd.nseq == |s|
    ensures Sizes(Segments(cd, s, ks, kv, rope, n, cap, cached)) == LoadSizes(cd, hd)
  {
    var a, b := Slices(cd.kv, kv, n, cap, cached, 0), Slices(cd.rope, rope, n, cap, cached, 0);
    var front := [EncAll(cd.tok, s), cd.rec.enc(ks)];
    EncAllSize(cd.tok, s);
    SlicesSizes(cd.kv, kv, n, cap, cached, 0);
    SlicesSizes(cd.rope, rope, n, cap, cached, 0);
    SizesAppend(front + a, b);
    SizesAppend(front, a);
    TwoSizes(EncAll(cd.tok, s), cd.rec.enc(ks));
    assert Sizes(front) == [|s| * cd.tok.size, cd.rec.size];
  }

  /** What a save wrote is accepted by any cache it fits, and whatever memory a load then
      leaves holds the same ids, recurrent state and rows, across different strides. */
  lemma LoadAfterSave<R(!new), K(!new), P(!new)>(cd: Codecs<R, K, P>, f: File, s: seq<int32>, ks: R, kv: seq<K>,
      rope: seq<P>,
      n: nat, cap: nat, cached: nat, cap': nat)
    requires cd.Lawful() && |kv| == |rope| == n * cap && cached <= cap && cached <= cap'
    requires f.hd.nMla == n && f.hd.cached == cached && f.hd.nseq == |s|
    requires var segs := Segments(cd, s, ks, kv, rope, n, cap, cached);
             f.payload == Concat(segs) && f.hd.hash == Chain(INIT, segs)
    ensures Accepts(cd, f, f.hd.fp, f.hd.nBound, n, cap')
    ensures Cut(f.payload, LoadSizes(cd, f.hd)) == Segments(cd, s, ks, kv, rope, n, cap, cached)
  {
    var segs := Segments(cd, s, ks, kv, rope, n, cap, cached);
    SavedSizes(cd, s, ks, kv, rope, n, cap, cached, f.hd);
    CutConcat(segs, []);
    assert Concat(segs) + [] == Concat(segs);
  }

  /** Damage to one unit of one segment of an accepted file is refused. */
  lemma DamagedFileIsRefused<R(!new), K(!new), P(!new)>(cd: Codecs<R, K, P>, f: File, g: File, fp: seq<int>,
      nBound: nat,
      nMla: nat, kvCap: nat, j: nat)
    requires Accepts(cd, f, fp, nBound, nMla, kvCap) && g.hd == f.hd && |g.payload| == |f.payload|
    requires var segs, damaged := Cut(f.payload, LoadSizes(cd, f.hd)), Cut(g.payload, LoadSizes(cd, f.hd));
             && j < |segs| && damaged == segs[j := damaged[j]] && OneUnitDiffers(segs[j], damaged[j])
    ensures !Accepts(cd, g, fp, nBound, nMla, kvCap)
  {
    var segs, damaged := Cut(f.payload, LoadSizes(cd, f.hd)), Cut(g.payload, LoadSizes(cd, f.hd));
    ChainSeesDamage(INIT, segs, j, damaged[j]);
  }

  lemma RestoredRows<R(!new), K(!new), P(!new)>(cd: Codecs<R, K, P>, s: seq<int32>, ks: R, kv: seq<K>, rope: seq<P>,
      n: nat, cap: nat, cached: nat, s': seq<int32>, ks': R, kv': seq<K>, rope': seq<P>, cap': nat)
    requires cd.Lawful() && |kv| == |rope| == n * cap && cached <= cap && |s'| == |s|
    requires Restored(cd, Segments(cd, s, ks, kv, rope, n, cap, cached), s', ks', kv', rope', n, cap', cached)
    ensures s' == s && ks' == ks
    ensures RowsOf(kv', rope', n, cap', cached) == RowsOf(kv, rope, n, cap, cached)
  {
    var segs := Segments(cd, s, ks, kv, rope, n, cap, cached);
    DecEncAll(cd.tok, s);
    assert segs[0] == EncAll(cd.tok, s) && segs[1] == cd.rec.enc(ks);
    assert cd.rec.dec(cd.rec.enc(ks)) == ks;
    forall mi | 0 <= mi < n
      ensures Slice(kv', n, cap', mi, cached) == Slice(kv, n, cap, mi, cached)
      ensures Slice(rope', n, cap', mi, cached) == Slice(rope, n, cap, mi, cached)
    {
      RestoredSlice(cd, s, ks, kv, rope, n, cap, cached, s', ks', kv', rope', cap', mi);
    }
    SlicesAgree(kv, rope, n, cap, cached, kv', rope', cap');
  }

  lemma RestoredSlice<R(!new), K(!new), P(!new)>(cd: Codecs<R, K, P>, s: seq<int32>, ks: R, kv: seq<K>, rope: seq<P>,
      n: nat, cap: nat, cached: nat, s': seq<int32>, ks': R, kv': seq<K>, rope': seq<P>, cap': nat, mi: nat)
    requires cd.Lawful() && |kv| == |rope| == n * cap && cached <= cap && mi < n
    requires Restored(cd, Segments(cd, s, ks, kv, rope, n, cap, cached), s', ks', kv', rope', n, cap', cached)
    ensures Slice(kv', n, cap', mi, cached) == Slice(kv, n, cap, mi, cached)
    ensures Slice(rope', n, cap', mi, cached) == Slice(rope, n, cap, mi, cached)
  {
    SlicesAt(cd.kv, kv, n, cap, cached, 0, mi);
    SlicesAt(cd.rope, rope, n, cap, cached, 0, mi);
    DecEncAll(cd.kv, Slice(kv, n, cap, mi, cached));
    DecEncAll(cd.rope, Slice(rope, n, cap, mi, cached));
  }

  /* --------------------------------------------------------------------- resume */

  /** Save one engine, load into another of any capacity that fits: the same state. */
  method Transfer<R(!new), K(0, !new), P(0, !new), L(!new)>(w: Engine<R, K, P, L>, w': Engine<R, K, P, L>,
      cd: Codecs<R, K, P>,
      fp: seq<int>, nBound: nat, s: seq<int32>, ghost fed: seq<int>, writes: nat -> bool)
    returns (ok: bool, s': seq<int32>)
    requires w.Valid() && w'.Valid() && w'.m == w.m && w'.nMla == w.nMla && cd.Lawful()
    requires w != w' && {w.kvc as object, w.ropec} !! {w'.kvc as object, w'.ropec}
    requires w.Holds(fed) && w.cached <= w'.kvCap
    modifies w'`ks, w'`cached, w'.kvc, w'.ropec
    ensures w'.Valid() && (ok <==> AllWritten(writes, w.nMla))
    ensures ok ==> s' == s && w'.Holds(fed)
  {
    s' := [];
    var f;
    ok, f := Save(w, cd, fp, nBound, s, writes);
    if !ok { return; }
    LoadAfterSave(cd, f, s, w.ks, w.kvc[..], w.ropec[..], w.nMla, w.kvCap, w.cached, w'.kvCap);
    ok, s' := Load(w', cd, fp, nBound, f);
    assert ok;
    RestoredRows(cd, s, w.ks, w.kvc[..], w.ropec[..], w.nMla, w.kvCap, w.cached,
                 s', w'.ks, w'.kvc[..], w'.ropec[..], w'.kvCap);
  }

  /** A session saved with `fed` in its state and `s` as its sequence, resumed with a further
      prompt, emits what one run on the joined sequence emits, provided the state describes a
      proper prefix of that sequence.  ResumableExactly says when it does. */
  method Resume<R(!new), K(0, !new), P(0, !new), L(!new)>(w: Engine<R, K, P, L>, w': Engine<R, K, P, L>, draft: Draft?,
      cd: Codecs<R, K, P>, fp: seq<int>, nBound: nat, s: seq<int32>, ghost fed: seq<int>, prompt: seq<int>,
      spec: nat, gen: nat, stops: set<int>, writes: nat -> bool, cancel: nat -> bool)
    returns (ending: Ending, out: seq<int>)
    requires w.Valid() && w'.Valid() && w'.m == w.m && w'.nMla == w.nMla && cd.Lawful()
    requires w != w' && {w.kvc as object, w.ropec} !! {w'.kvc as object, w'.ropec}
    requires w.Holds(fed) && |fed| < |s + prompt| && fed <= s + prompt
    requires |s + prompt| + gen + 1 <= w'.kvCap
    requires draft != null ==> draft.Behind([]) && draft.kvCap == w'.kvCap
    modifies w'`ks, w'`cached, w'`faults, w'.kvc, w'.ropec, draft
    ensures ending.Complete? ==> out == Serial(w.m, s + prompt, gen, stops)
    ensures !ending.Failed? ==> out <= Serial(w.m, s + prompt, gen, stops)
    ensures ending.Failed? && AllWritten(writes, w.nMla) ==>
              w'.faults > old(w'.faults) || DraftFaults(draft) > old(DraftFaults(draft))
    ensures w'.reliable && (draft != null ==> draft.reliable) ==> (ending.Failed? <==> !AllWritten(writes, w.nMla))
    ensures ending.Interrupted? ==> exists i :: cancel(i)
  {
    var ok, s' := Transfer(w, w', cd, fp, nBound, s, fed, writes);
    if !ok { return Failed, []; }
    assert fed == (s' + prompt)[..|fed|];
    ghost var fed', passes;
    ending, out, fed', passes := Generate(w', draft, spec, s' + prompt, gen, stops, true, cancel);
  }

  /** After a run that ended as Generate says, the state describes a prefix of the sequence
      under every further prompt exactly when no more positions are cached than the sequence
      has, which the header says. */
  lemma ResumableExactly(start: seq<int>, out: seq<int>, fed: seq<int>, gen: nat, stops: set<int>)
    requires Carries(start, out, fed, gen, stops)
    ensures (forall prompt :: prompt != [] && |fed| <= |start + out + prompt| ==> fed <= start + out + prompt)
       <==> |fed| <= |start + out|
  {
    var s := start + out;
    if |fed| <= |s| {
      forall prompt: seq<int> ensures fed <= s + prompt { FedWithin(start, out, fed, gen, stops, prompt); }
    } else {
      var prompt := OtherPrompt(s, fed);
      assert !(fed <= s + prompt);
    }
  }

  lemma FedWithin(start: seq<int>, out: seq<int>, fed: seq<int>, gen: nat, stops: set<int>, prompt: seq<int>)
    requires Carries(start, out, fed, gen, stops) && |fed| <= |start + out|
    ensures fed <= start + out + prompt
  {
    if gen > 0 && |fed| == |start + out| { assert start + out <= fed; }
  }

  /** A prompt that does not begin with the id the state has behind s. */
  function OtherPrompt(s: seq<int>, fed: seq<int>): (prompt: seq<int>)
    requires |s| < |fed|
    ensures prompt != [] && |fed| <= |s + prompt| && !(fed <= s + prompt)
  {
    var prompt := [fed[|s|] + 1] + fed[|s| + 1..];
    assert (s + prompt)[|s|] == fed[|s|] + 1;
    prompt
  }

  /** A serial run, and a prefill with nothing generated, are always resumable. */
  lemma SerialRunIsResumable(start: seq<int>, out: seq<int>, fed: seq<int>, gen: nat, stops: set<int>, prompt: seq<int>)
    requires Carries(start, out, fed, gen, stops)
    requires gen > 0 ==> |fed| == |start + out| - 1
    ensures fed <= start + out + prompt
  {
    FedWithin(start, out, fed, gen, stops, prompt);
  }

  /** A model whose next id is a table of the ids fed so far; its recurrent state is their list. */
  function Reciter(table: seq<int> -> int): Model<seq<int>, seq<((), ())>, int> {
    Model([], (r: seq<int>, rows: seq<seq<((), ())>>, id: int) => Out(r + [id], [], table(r + [id])), (l: int) => l)
  }

  lemma {:induction false} ReciterRecites(table: seq<int> -> int, ids: seq<int>)
    ensures Fold(Reciter(table), ids).rec == ids
    ensures ids != [] ==> Next(Reciter(table), ids) == table(ids)
  {
    if ids != [] {
      var t, id := ids[..|ids| - 1], ids[|ids| - 1];
      ReciterRecites(table, t);
      assert ids == t + [id];
      FoldSnoc(Reciter(table), t, id);
    }
  }

  /** The same greedy ids after every sequence of at most n ids, which is all a run sees that
      feeds no more than n. */
  ghost predicate SameUpTo<R, W, L, R'(!new), W'(!new), L'(!new)>(m: Model<R, W, L>, m0: Model<R', W', L'>, n: nat) {
    forall ids :: 0 < |ids| <= n ==> Next(m, ids) == Next(m0, ids)
  }

  lemma {:induction false} SerialAgrees<R, W, L, R'(!new), W'(!new), L'(!new)>(m: Model<R, W, L>,
      m0: Model<R', W', L'>, s: seq<int>, out: seq<int>, gen: nat, stops: set<int>, n: nat)
    requires s != [] && |out| <= gen && SameUpTo(m, m0, n) && |s + SerialFrom(m0, s, out, gen, stops)| <= n + 1
    ensures SerialFrom(m, s, out, gen, stops) == SerialFrom(m0, s, out, gen, stops)
    decreases gen - |out|
  {
    hide Next;
    if !Ended(out, gen, stops) {
      assert |s + out| <= n;
      SerialAgrees(m, m0, s, out + [Next(m0, s + out)], gen, stops, n);
    }
  }

  /** A model that runs from `start` as m0 does, to the same ids and the same state, after which
      the run resumed with the prompt emits another id than the run on the joined sequence. */
  ghost predicate GoesWrong<R(!new), W(!new), L(!new)>(m0: Model<R, W, L>, table: seq<int> -> int, start: seq<int>,
      out: seq<int>, fed: seq<int>, gen: nat, stops: set<int>, prompt: seq<int>)
    requires start != []
  {
    var m, s := Reciter(table), start + out;
    && SameUpTo(m, m0, |fed|) && Serial(m, start, gen, stops) == out
    && |s| < |fed| < |s + prompt| && Next(m, fed + (s + prompt)[|fed|..]) != Next(m, s + prompt)
  }

  /** Whenever a run of a model left the state past the sequence, there are such a model and such
      a prompt. */
  lemma PastTheSequence<R(!new), W(!new), L(!new)>(m0: Model<R, W, L>, start: seq<int>, out: seq<int>, fed: seq<int>,
      gen: nat, stops: set<int>)
    requires start != [] && out == Serial(m0, start, gen, stops) && |start + out| < |fed|
    ensures exists table, prompt :: GoesWrong(m0, table, start, out, fed, gen, stops, prompt)
  {
    hide Next, Reciter, SerialFrom;
    var s := start + out;
    var prompt := OtherPrompt(s, fed) + [0];
    var whole, resumed := s + prompt, fed + (s + prompt)[|fed|..];
    assert |whole| > |fed| && |resumed| > |fed|;
    assert whole[|s|] == OtherPrompt(s, fed)[0] == fed[|s|] + 1 && resumed[|s|] == fed[|s|];
    var table := (ids: seq<int>) =>
      if ids == [] then 0 else if |ids| <= |fed| then Next(m0, ids) else if ids == whole then 1 else 0;
    forall ids: seq<int> | ids != [] ensures Next(Reciter(table), ids) == table(ids) { ReciterRecites(table, ids); }
    SerialAgrees(Reciter(table), m0, start, [], gen, stops, |fed|);
    assert GoesWrong(m0, table, start, out, fed, gen, stops, prompt);
  }

  /** Greedy ids 2, 7, 5 after [1]; later the fourth id again and again. */
  function Table(ids: seq<int>): int {
    if |ids| == 1 then 2 else if |ids| == 2 then 7 else if |ids| == 3 then 5 else if |ids| > 3 then ids[3] else 0
  }

  /** A stop id inside a verified batch, in a run of at most 4 ids from [1] that stops at 7.
      Behind [1, 2] the proposals [7, 5] fit and are both accepted, so the step emits [7, 5, 5]
      and feeds [2, 7, 5]; the stop leaves the sequence at [1, 2, 7].  Resumed with [2, 3] the
      run goes on from [1, 2, 7, 5, 3] with 5, where the joined sequence has 2. */
  lemma StopInsideBatchIsNotResumable()
    ensures var m := Reciter(Table);
            && Serial(m, [1], 4, {7}) == [2, 7]
            && |[1, 2]| + 2 + 1 < |[1]| + 4 + 1
            && Judges(m, [1, 2], [7, 5], [7, 5, 5]) && Follows(m, [1, 2], [7, 5, 5])
            && FeedAll(m, Fold(m, [1]), [2, 7, 5]) == Fold(m, [1, 2, 7, 5])
            && Carries([1], [2, 7], [1, 2, 7, 5], 4, {7})
            && Next(m, [1, 2, 7, 5] + [3]) == 5 && Next(m, [1, 2, 7] + [2, 3]) == 2
  {
    hide Reciter, FeedAll, Next, Fold, Serial;
    var m := Reciter(Table);
    BatchIsAccepted(m);
    Recited([1], 2);
    Recited([1, 2], 7);
    Recited([1, 2, 7, 5, 3], 5);
    Recited([1, 2, 7, 2, 3], 2);
    FoldAppend(m, [1], [2, 7, 5]);
    assert [1] + [2, 7, 5] == [1, 2, 7, 5];
    SerialOfTable(m);
    assert [1] + [2, 7] == [1, 2, 7] && [1, 2, 7] <= [1, 2, 7, 5];
    assert [1, 2, 7, 5] + [3] == [1, 2, 7, 5, 3] && [1, 2, 7] + [2, 3] == [1, 2, 7, 2, 3];
  }

  lemma BatchIsAccepted(m: Model<seq<int>, seq<((), ())>, int>)
    requires m == Reciter(Table)
    ensures Judges(m, [1, 2], [7, 5], [7, 5, 5]) && Follows(m, [1, 2], [7, 5, 5])
  {
    hide Reciter, Follows, Next;
    Recited([1, 2], 7);
    Recited([1, 2, 7], 5);
    Recited([1, 2, 7, 5], 5);
    assert [1, 2] + [7, 5][..0] == [1, 2] && [1, 2] + [7, 5][..1] == [1, 2, 7] && [1, 2] + [7, 5][..2] == [1, 2, 7, 5];
    AcceptedFollows(m, [1, 2], [7, 5], [7, 5, 5], 2);
    assert [7, 5][..2] + [5] == [7, 5, 5];
  }

  lemma Recited(ids: seq<int>, id: int)
    requires ids != [] && Table(ids) == id
    ensures Next(Reciter(Table), ids) == id
  {
    ReciterRecites(Table, ids);
  }

  lemma SerialOfTable(m: Model<seq<int>, seq<((), ())>, int>)
    requires Next(m, [1]) == 2 && Next(m, [1, 2]) == 7
    ensures Serial(m, [1], 4, {7}) == [2, 7]
  {
    hide Next;
    assert [1] + [] == [1] && [1] + [2] == [1, 2];
    SerialStep(m, [1], [], 4, {7});
    assert [] + [2] == [2] && [2] + [7] == [2, 7];
    SerialStep(m, [1], [2], 4, {7});
  }
}
