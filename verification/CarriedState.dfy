/** The carried state of one model: what `forward` reads, writes and leaves behind
    (src/cli/k3_run.c).  Kernels stay uninterpreted: a model is any per-token step. */
module CarriedState {

  /** One token's effect: the new recurrent state, the row it writes, and its logits. */
  datatype Out<R, W, L> = Out(rec: R, row: W, logits: L)

  /** `step` reads the recurrent state and the rows of all earlier positions; `pick` is argmax. */
  datatype Model<!R, !W, !L> = Model(init: R, step: (R, seq<W>, int) -> Out<R, W, L>, pick: L -> int)

  /** Everything a position depends on: the recurrent part, which cannot be cut back, and
      one row per position, which can. */
  datatype Carry<R, W> = Carry(rec: R, rows: seq<W>)

  function Step<R, W, L>(m: Model<R, W, L>, c: Carry<R, W>, id: int): Out<R, W, L> {
    m.step(c.rec, c.rows, id)
  }

  function Feed<R, W, L>(m: Model<R, W, L>, c: Carry<R, W>, id: int): Carry<R, W> {
    Carry(Step(m, c, id).rec, c.rows + [Step(m, c, id).row])
  }

  function FeedAll<R, W, L>(m: Model<R, W, L>, c: Carry<R, W>, ids: seq<int>): (r: Carry<R, W>)
    ensures |r.rows| == |c.rows| + |ids| && r.rows[..|c.rows|] == c.rows
  {
    if ids == [] then c else Feed(m, FeedAll(m, c, ids[..|ids| - 1]), ids[|ids| - 1])
  }

  /** The state after feeding exactly these ids from nothing. */
  function Fold<R, W, L>(m: Model<R, W, L>, ids: seq<int>): (r: Carry<R, W>)
    ensures |r.rows| == |ids|
  {
    FeedAll(m, Carry(m.init, []), ids)
  }

  function Logits<R, W, L>(m: Model<R, W, L>, ids: seq<int>): L
    requires ids != []
  {
    Step(m, Fold(m, ids[..|ids| - 1]), ids[|ids| - 1]).logits
  }

  /** The id greedy decoding puts after ids. */
  function Next<R, W, L>(m: Model<R, W, L>, ids: seq<int>): int
    requires ids != []
  {
    m.pick(Logits(m, ids))
  }

  lemma {:induction false} FeedAllAppend<R, W, L>(m: Model<R, W, L>, c: Carry<R, W>, a: seq<int>, b: seq<int>)
    ensures FeedAll(m, c, a + b) == FeedAll(m, FeedAll(m, c, a), b)
  {
    if b == [] {
      assert a + b == a;
    } else {
      var b' := b[..|b| - 1];
      FeedAllAppend(m, c, a, b');
      assert (a + b)[..|a + b| - 1] == a + b';
    }
  }

  lemma FoldAppend<R, W, L>(m: Model<R, W, L>, done: seq<int>, ids: seq<int>)
    ensures FeedAll(m, Fold(m, done), ids) == Fold(m, done + ids)
  {
    FeedAllAppend(m, Carry(m.init, []), done, ids);
  }

  lemma FeedAllSnoc<R, W, L>(m: Model<R, W, L>, c: Carry<R, W>, ids: seq<int>, id: int)
    ensures FeedAll(m, c, ids + [id]) == Feed(m, FeedAll(m, c, ids), id)
  {
    assert (ids + [id])[..|ids|] == ids;
  }

  lemma TakeSnoc<T>(s: seq<T>, n: nat)
    requires n < |s|
    ensures s[..n + 1] == s[..n] + [s[n]]
  {
  }

  lemma FoldSnoc<R, W, L>(m: Model<R, W, L>, ids: seq<int>, id: int)
    ensures Fold(m, ids + [id]) == Feed(m, Fold(m, ids), id)
    ensures Logits(m, ids + [id]) == Step(m, Fold(m, ids), id).logits
  {
    assert (ids + [id])[..|ids|] == ids;
  }

  /** Feeding ids from c yields these logits, and these argmaxes, position by position. */
  ghost predicate Predicts<R, W, L>(m: Model<R, W, L>, c: Carry<R, W>, ids: seq<int>, logits: seq<L>, args: seq<int>) {
    var n := |ids|;
    && |logits| == |args| == n
    && (n > 0 ==>
          && logits[n - 1] == Step(m, FeedAll(m, c, ids[..n - 1]), ids[n - 1]).logits
          && args[n - 1] == m.pick(logits[n - 1])
          && Predicts(m, c, ids[..n - 1], logits[..n - 1], args[..n - 1]))
  }

  lemma NothingPredicted<R, W, L>(m: Model<R, W, L>, c: Carry<R, W>, ids: seq<int>)
    ensures FeedAll(m, c, ids[..0]) == c && Predicts(m, c, ids[..0], [], [])
  {
  }

  lemma FeedAllKeeps<R, W, L>(m: Model<R, W, L>, c: Carry<R, W>, ids: seq<int>)
    ensures |FeedAll(m, c, ids).rows| == |c.rows| + |ids| && FeedAll(m, c, ids).rows[..|c.rows|] == c.rows
  {
    hide FeedAll;
  }

  /** One more id, with its logits. */
  lemma PredictsMore<R, W, L>(m: Model<R, W, L>, c: Carry<R, W>, ids: seq<int>, t: nat, logits: seq<L>, args: seq<int>,
      l: L)
    requires t < |ids| && Predicts(m, c, ids[..t], logits, args)
    requires l == Step(m, FeedAll(m, c, ids[..t]), ids[t]).logits
    ensures FeedAll(m, c, ids[..t + 1]) == Feed(m, FeedAll(m, c, ids[..t]), ids[t])
    ensures Predicts(m, c, ids[..t + 1], logits + [l], args + [m.pick(l)])
  {
    hide Step;
    TakeSnoc(ids, t);
    FeedAllSnoc(m, c, ids[..t], ids[t]);
    assert (logits + [l])[..t] == logits && (args + [m.pick(l)])[..t] == args && ids[..t + 1][..t] == ids[..t];
  }

  lemma {:induction false} PredictsAt<R, W, L>(m: Model<R, W, L>, c: Carry<R, W>, ids: seq<int>, logits: seq<L>,
      args: seq<int>, t: nat)
    requires Predicts(m, c, ids, logits, args) && t < |ids|
    ensures logits[t] == Step(m, FeedAll(m, c, ids[..t]), ids[t]).logits && args[t] == m.pick(logits[t])
  {
    var n := |ids|;
    if t < n - 1 {
      PredictsAt(m, c, ids[..n - 1], logits[..n - 1], args[..n - 1], t);
      assert ids[..n - 1][..t] == ids[..t];
    }
  }

  /** Rows already written are never rewritten: a longer fold extends a shorter one. */
  lemma {:induction false} FoldRowsPrefix<R, W, L>(m: Model<R, W, L>, ids: seq<int>, n: nat)
    requires n <= |ids|
    ensures Fold(m, ids).rows[..n] == Fold(m, ids[..n]).rows
  {
    if n < |ids| {
      FoldRowsPrefix(m, ids[..|ids| - 1], n);
      assert ids == ids[..|ids| - 1] + [ids[|ids| - 1]];
      FoldSnoc(m, ids[..|ids| - 1], ids[|ids| - 1]);
      assert ids[..|ids| - 1][..n] == ids[..n];
    } else {
      assert ids[..n] == ids;
    }
  }

  /* ----------------------------------------------------- strided row addressing */

  /** Slice mi of a [layer][position] buffer with room for cap positions, position p. */
  function At(mi: nat, cap: nat, p: nat): nat {
    mi * cap + p
  }

  lemma AtInRange(mi: nat, n: nat, cap: nat, p: nat)
    requires mi < n && p < cap
    ensures At(mi, cap, p) < n * cap
  {
    assert mi * cap + cap == (mi + 1) * cap <= n * cap;
  }

  lemma AtInjective(mi: nat, mj: nat, cap: nat, p: nat, q: nat)
    requires p < cap && q < cap && At(mi, cap, p) == At(mj, cap, q)
    ensures mi == mj && p == q
  {
    if mi < mj { SliceBefore(mi, mj, cap); }
    if mj < mi { SliceBefore(mj, mi, cap); }
  }

  lemma SliceBefore(mi: nat, mj: nat, cap: nat)
    requires mi < mj
    ensures mi * cap + cap <= mj * cap
  {
    assert mi * cap + cap == (mi + 1) * cap <= mj * cap;
  }

  /** Every row has one entry per MLA layer. */
  ghost predicate Shaped<R(!new), K(!new), P(!new), L(!new)>(m: Model<R, seq<(K, P)>, L>, nMla: nat) {
    forall c: Carry<R, seq<(K, P)>>, id :: |Step(m, c, id).row| == nMla
  }

  /** Position p of an n-layer buffer pair, one entry per layer. */
  function RowOf<K, P>(kv: seq<K>, rope: seq<P>, n: nat, cap: nat, p: nat): (r: seq<(K, P)>)
    requires |kv| == |rope| == n * cap && p < cap
    ensures |r| == n
  {
    seq(n, mi requires 0 <= mi < n => (AtInRange(mi, n, cap, p); (kv[At(mi, cap, p)], rope[At(mi, cap, p)])))
  }

  function RowsOf<K, P>(kv: seq<K>, rope: seq<P>, n: nat, cap: nat, count: nat): (r: seq<seq<(K, P)>>)
    requires |kv| == |rope| == n * cap && count <= cap
    ensures |r| == count
  {
    seq(count, p requires 0 <= p < count => RowOf(kv, rope, n, cap, p))
  }

  /** Buffers that agree on one position hold the same row there. */
  lemma RowOfAgree<K, P>(kv: seq<K>, rope: seq<P>, cap: nat, kv': seq<K>, rope': seq<P>, cap': nat, n: nat, p: nat)
    requires |kv| == |rope| == n * cap && |kv'| == |rope'| == n * cap' && p < cap && p < cap'
    requires forall mi :: 0 <= mi < n ==>
               At(mi, cap, p) < |kv| && At(mi, cap', p) < |kv'| &&
               kv'[At(mi, cap', p)] == kv[At(mi, cap, p)] && rope'[At(mi, cap', p)] == rope[At(mi, cap, p)]
    ensures RowOf(kv', rope', n, cap', p) == RowOf(kv, rope, n, cap, p)
  {
  }

  /** One layer's entry of position p does not move any other position. */
  lemma RowOfOther<K, P>(kv: seq<K>, rope: seq<P>, n: nat, cap: nat, mi: nat, p: nat, q: nat, x: K, y: P)
    requires |kv| == |rope| == n * cap && mi < n && p < cap && q < cap && p != q
    requires At(mi, cap, p) < n * cap
    ensures RowOf(kv[At(mi, cap, p) := x], rope[At(mi, cap, p) := y], n, cap, q) == RowOf(kv, rope, n, cap, q)
  {
    forall mj | 0 <= mj < n ensures At(mj, cap, q) < n * cap && At(mj, cap, q) != At(mi, cap, p) {
      AtInRange(mj, n, cap, q);
      if At(mj, cap, q) == At(mi, cap, p) { AtInjective(mj, mi, cap, q, p); }
    }
    RowOfAgree(kv, rope, cap, kv[At(mi, cap, p) := x], rope[At(mi, cap, p) := y], cap, n, q);
  }

  lemma RowOfSame<K, P>(kv: seq<K>, rope: seq<P>, n: nat, cap: nat, mi: nat, p: nat, x: K, y: P)
    requires |kv| == |rope| == n * cap && mi < n && p < cap && At(mi, cap, p) < n * cap
    ensures RowOf(kv[At(mi, cap, p) := x], rope[At(mi, cap, p) := y], n, cap, p)
         == RowOf(kv, rope, n, cap, p)[mi := (x, y)]
  {
    forall mj | 0 <= mj < n && mj != mi ensures At(mj, cap, p) < n * cap && At(mj, cap, p) != At(mi, cap, p) {
      AtInRange(mj, n, cap, p);
      if At(mj, cap, p) == At(mi, cap, p) { AtInjective(mj, mi, cap, p, p); }
    }
    var old_, new_ := RowOf(kv, rope, n, cap, p),
                      RowOf(kv[At(mi, cap, p) := x], rope[At(mi, cap, p) := y], n, cap, p);
    forall mj | 0 <= mj < n ensures new_[mj] == old_[mi := (x, y)][mj] { }
  }

  /* ----------------------------------------------------------- layer slices */

  /** Layer mi of a [layer][position] buffer, its first `count` positions. */
  function Slice<T(!new)>(buf: seq<T>, n: nat, cap: nat, mi: nat, count: nat): (r: seq<T>)
    requires |buf| == n * cap && mi < n && count <= cap
    ensures |r| == count
  {
    SliceFits(n, cap, mi);
    buf[At(mi, cap, 0)..At(mi, cap, 0) + count]
  }

  lemma SliceFits(n: nat, cap: nat, mi: nat)
    requires mi < n
    ensures At(mi, cap, 0) + cap <= n * cap
  {
    assert mi * cap + cap == (mi + 1) * cap <= n * cap;
  }

  lemma SlicesApart(n: nat, cap: nat, mi: nat, mj: nat)
    requires mi < n && mj < n && mi != mj
    ensures At(mi, cap, 0) + cap <= At(mj, cap, 0) || At(mj, cap, 0) + cap <= At(mi, cap, 0)
  {
    if mi < mj {
      assert (mi + 1) * cap <= mj * cap;
    } else {
      assert (mj + 1) * cap <= mi * cap;
    }
  }

  /** Overwrite a run of a buffer. */
  method WriteRun<T(!new)>(buf: array<T>, from: nat, xs: seq<T>)
    requires from + |xs| <= buf.Length
    modifies buf
    ensures buf[..] == old(buf[..from]) + xs + old(buf[from + |xs|..])
  {
    ghost var was := buf[..];
    for i := 0 to |xs|
      invariant buf[..from] == was[..from] && buf[from..from + i] == xs[..i] && buf[from + i..] == was[from + i..]
    {
      buf[from + i] := xs[i];
      assert buf[from..from + i + 1] == buf[from..from + i] + [xs[i]];
      assert xs[..i + 1] == xs[..i] + [xs[i]];
      assert was[from + i + 1..] == was[from + i..][1..];
    }
    assert xs[..|xs|] == xs;
    assert buf[..] == buf[..from] + buf[from..from + |xs|] + buf[from + |xs|..];
  }

  /** Overwriting one layer's slice sets that slice and leaves the others. */
  lemma SliceWritten<T(!new)>(was: seq<T>, now: seq<T>, n: nat, cap: nat, mi: nat, count: nat, xs: seq<T>)
    requires |was| == n * cap && mi < n && |xs| == count <= cap && At(mi, cap, 0) + count <= n * cap
    requires now == was[..At(mi, cap, 0)] + xs + was[At(mi, cap, 0) + count..]
    ensures Slice(now, n, cap, mi, count) == xs
    ensures forall mj :: 0 <= mj < n && mj != mi ==> Slice(now, n, cap, mj, count) == Slice(was, n, cap, mj, count)
  {
    var a := At(mi, cap, 0);
    forall mj | 0 <= mj < n && mj != mi ensures Slice(now, n, cap, mj, count) == Slice(was, n, cap, mj, count) {
      SlicesApart(n, cap, mj, mi);
      SliceFits(n, cap, mj);
      var b := At(mj, cap, 0);
      assert now[b..b + count] == was[b..b + count];
    }
    assert now[a..a + count] == xs;
  }

  /** Buffers of different strides with the same layer slices hold the same rows. */
  lemma SlicesAgree<K(!new), P(!new)>(kv: seq<K>, rope: seq<P>, n: nat, cap: nat, cached: nat, kv': seq<K>,
      rope': seq<P>, cap': nat)
    requires |kv| == |rope| == n * cap && cached <= cap && |kv'| == |rope'| == n * cap' && cached <= cap'
    requires forall mi :: 0 <= mi < n ==>
               Slice(kv', n, cap', mi, cached) == Slice(kv, n, cap, mi, cached) &&
               Slice(rope', n, cap', mi, cached) == Slice(rope, n, cap, mi, cached)
    ensures RowsOf(kv', rope', n, cap', cached) == RowsOf(kv, rope, n, cap, cached)
  {
    forall p | 0 <= p < cached ensures RowOf(kv', rope', n, cap', p) == RowOf(kv, rope, n, cap, p) {
      hide Slice, RowOf;
      forall mi | 0 <= mi < n
        ensures At(mi, cap, p) < n * cap && At(mi, cap', p) < n * cap'
        ensures kv'[At(mi, cap', p)] == kv[At(mi, cap, p)] && rope'[At(mi, cap', p)] == rope[At(mi, cap, p)]
      {
        SliceEntry(kv, n, cap, mi, cached, p);
        SliceEntry(kv', n, cap', mi, cached, p);
        SliceEntry(rope, n, cap, mi, cached, p);
        SliceEntry(rope', n, cap', mi, cached, p);
      }
      RowOfAgree(kv, rope, cap, kv', rope', cap', n, p);
    }
  }

  lemma SliceEntry<T(!new)>(buf: seq<T>, n: nat, cap: nat, mi: nat, count: nat, p: nat)
    requires |buf| == n * cap && mi < n && p < count <= cap
    ensures At(mi, cap, p) < n * cap && Slice(buf, n, cap, mi, count)[p] == buf[At(mi, cap, p)]
  {
    SliceFits(n, cap, mi);
    assert At(mi, cap, 0) + p == At(mi, cap, p);
  }

  /** A zeroed buffer of a larger stride, with the occupied rows of every layer copied in. */
  method Restride<T(0, !new)>(was: seq<T>, n: nat, cap: nat, want: nat, count: nat) returns (buf: array<T>)
    requires |was| == n * cap && count <= cap <= want
    ensures fresh(buf) && buf.Length == n * want
    ensures forall mi :: 0 <= mi < n ==> Slice(buf[..], n, want, mi, count) == Slice(was, n, cap, mi, count)
  {
    hide Slice, At;
    buf := new T[n * want];
    for mi := 0 to n
      invariant buf.Length == n * want && fresh(buf)
      invariant forall mj :: 0 <= mj < mi ==> Slice(buf[..], n, want, mj, count) == Slice(was, n, cap, mj, count)
    {
      SliceFits(n, want, mi);
      ghost var before := buf[..];
      WriteRun(buf, At(mi, want, 0), Slice(was, n, cap, mi, count));
      SliceWritten(before, buf[..], n, want, mi, count, Slice(was, n, cap, mi, count));
    }
  }

  /* ------------------------------------------------------------------ the engine */

  /** The incremental half of `Weights` plus its recurrent state `ks`.  A KV row of one MLA
      layer is one K, its rope slot one P; a position's row is the list over MLA layers.  On a
      reliable machine every forward goes through and no memory is refused; `faults` counts
      what has gone wrong so far. */
  class Engine<R(!new), K(0, !new), P(0, !new), L(!new)> {
    const m: Model<R, seq<(K, P)>, L>
    const nMla: nat
    const reliable: bool
    ghost var faults: nat
    var ks: R
    var kvc: array<K>
    var ropec: array<P>
    var kvCap: nat
    var cached: nat

    ghost predicate Valid()
      reads this
    {
      && kvc.Length == nMla * kvCap
      && ropec.Length == nMla * kvCap
      && kvc as object != ropec as object
      && cached <= kvCap
      && Shaped(m, nMla)
    }

    function Rows(n: nat): (r: seq<seq<(K, P)>>)
      requires Valid() && n <= kvCap
      reads this, kvc, ropec
      ensures |r| == n
    {
      RowsOf(kvc[..], ropec[..], nMla, kvCap, n)
    }

    lemma RowsPrefix(n: nat, p: nat)
      requires Valid() && n <= p <= kvCap
      ensures Rows(n) == Rows(p)[..n]
    {
    }

    /** The state is what feeding exactly `ids` from nothing leaves, and `cached` says so. */
    ghost predicate Holds(ids: seq<int>)
      requires Valid()
      reads this, kvc, ropec
    {
      cached == |ids| && Carry(ks, Rows(cached)) == Fold(m, ids)
    }

    /** Zeroed buffers, nothing cached. */
    constructor (m: Model<R, seq<(K, P)>, L>, nMla: nat, kvCap: nat, reliable: bool)
      requires Shaped(m, nMla)
      ensures Valid() && Holds([]) && this.m == m && this.nMla == nMla && this.kvCap == kvCap
      ensures this.reliable == reliable && faults == 0
      ensures fresh(kvc) && fresh(ropec)
    {
      this.m, this.nMla, this.kvCap, this.cached, this.ks := m, nMla, kvCap, 0, m.init;
      this.reliable, this.faults := reliable, 0;
      this.kvc := new K[nMla * kvCap];
      this.ropec := new P[nMla * kvCap];
    }

    /** Write one position's row into every layer slice. */
    method StoreRow(p: nat, row: seq<(K, P)>)
      requires Valid() && p < kvCap && |row| == nMla
      modifies kvc, ropec
      ensures Rows(p + 1) == old(Rows(p)) + [row]
    {
      for mi := 0 to nMla
        invariant RowOf(kvc[..], ropec[..], nMla, kvCap, p)[..mi] == row[..mi]
        invariant forall q :: 0 <= q < kvCap && q != p ==>
                    RowOf(kvc[..], ropec[..], nMla, kvCap, q) == old(RowOf(kvc[..], ropec[..], nMla, kvCap, q))
      {
        AtInRange(mi, nMla, kvCap, p);
        ghost var kv, rope := kvc[..], ropec[..];
        kvc[At(mi, kvCap, p)] := row[mi].0;
        ropec[At(mi, kvCap, p)] := row[mi].1;
        assert kvc[..] == kv[At(mi, kvCap, p) := row[mi].0] && ropec[..] == rope[At(mi, kvCap, p) := row[mi].1];
        RowOfSame(kv, rope, nMla, kvCap, mi, p, row[mi].0, row[mi].1);
        forall q | 0 <= q < kvCap && q != p
          ensures RowOf(kvc[..], ropec[..], nMla, kvCap, q) == RowOf(kv, rope, nMla, kvCap, q)
        {
          RowOfOther(kv, rope, nMla, kvCap, mi, p, q, row[mi].0, row[mi].1);
        }
      }
      assert RowOf(kvc[..], ropec[..], nMla, kvCap, p) == row;
    }

    /** Room for `want` positions: new buffers, into which every layer's occupied rows are copied
        at the new stride.  When the buffers cannot be had nothing changes. */
    method Grow(want: nat) returns (ok: bool)
      requires Valid() && want > kvCap
      modifies this`kvc, this`ropec, this`kvCap, this`faults
      ensures faults == old(faults) + (if ok then 0 else 1) && (reliable ==> ok)
      ensures Valid() && (ok ==> kvCap == want && fresh(kvc) && fresh(ropec) && Rows(cached) == old(Rows(cached)))
      ensures !ok ==> kvc == old(kvc) && ropec == old(ropec) && kvCap == old(kvCap)
    {
      ok := *;
      ok := ok || reliable;
      if !ok { faults := faults + 1; return; }
      var nk := Restride(kvc[..], nMla, kvCap, want, cached);
      var nr := Restride(ropec[..], nMla, kvCap, want, cached);
      SlicesAgree(kvc[..], ropec[..], nMla, kvCap, cached, nk[..], nr[..], want);
      kvc, ropec, kvCap := nk, nr, want;
    }

    /** One token at position p: read the rows below p, write row p, move the recurrent state. */
    method FeedOne(p: nat, id: int) returns (logits: L)
      requires Valid() && p < kvCap
      modifies this`ks, kvc, ropec
      ensures Valid() && logits == Step(m, old(Carry(ks, Rows(p))), id).logits
      ensures Carry(ks, Rows(p + 1)) == Feed(m, old(Carry(ks, Rows(p))), id)
    {
      var o := Step(m, Carry(ks, Rows(p)), id);
      StoreRow(p, o.row);
      ks, logits := o.rec, o.logits;
    }

    /** `forward` on the ids at positions cached, cached+1, ...  It may fail at any point,
        having absorbed part of the batch; `cached` is the caller's to move. */
    method Forward(ids: seq<int>) returns (ok: bool, args: seq<int>, logits: seq<L>)
      requires Valid() && ids != [] && cached + |ids| <= kvCap
      modifies this`ks, this`faults, kvc, ropec
      ensures faults == old(faults) + (if ok then 0 else 1) && (reliable ==> ok)
      ensures Valid() && Rows(cached) == old(Rows(cached))
      ensures ok ==> Carry(ks, Rows(cached + |ids|)) == FeedAll(m, old(Carry(ks, Rows(cached))), ids)
      ensures ok ==> Predicts(m, old(Carry(ks, Rows(cached))), ids, logits, args)
    {
      hide Predicts, FeedAll, RowsOf, Step, Shaped;
      ok, args, logits := true, [], [];
      ghost var start := Carry(ks, Rows(cached));
      NothingPredicted(m, start, ids);
      for t := 0 to |ids|
        invariant Valid() && Carry(ks, Rows(cached + t)) == FeedAll(m, start, ids[..t])
        invariant Predicts(m, start, ids[..t], logits, args)
        invariant ok && faults == old(faults)
      {
        ok := *;
        ok := ok || reliable;
        if !ok {
          faults := faults + 1;
          FeedAllKeeps(m, start, ids[..t]);
          RowsPrefix(cached, cached + t);
          return;
        }
        var l := FeedOne(cached + t, ids[t]);
        PredictsMore(m, start, ids, t, logits, args, l);
        args, logits := args + [m.pick(l)], logits + [l];
      }
      assert ids[..|ids|] == ids;
      FeedAllKeeps(m, start, ids);
      RowsPrefix(cached, cached + |ids|);
    }

    /** `forward`, then `cached` moved past the batch: the usual call. */
    method Advance(ghost done: seq<int>, ids: seq<int>) returns (ok: bool, args: seq<int>, logits: seq<L>)
      requires Valid() && ids != [] && cached + |ids| <= kvCap && Holds(done)
      modifies this`ks, this`cached, this`faults, kvc, ropec
      ensures faults == old(faults) + (if ok then 0 else 1) && (reliable ==> ok)
      ensures Valid()
      ensures ok ==> Holds(done + ids) && Predicts(m, Fold(m, done), ids, logits, args)
    {
      ok, args, logits := Forward(ids);
      if ok {
        cached := cached + |ids|;
        FoldAppend(m, done, ids);
      }
    }

    /** Put back a recurrent snapshot taken at `done` and feed ids from there. */
    method Replay(ghost done: seq<int>, snapshot: R, ids: seq<int>) returns (ok: bool)
      requires Valid() && ids != [] && cached == |done| && cached + |ids| <= kvCap
      requires Carry(snapshot, Rows(cached)) == Fold(m, done)
      modifies this`ks, this`cached, this`faults, kvc, ropec
      ensures faults == old(faults) + (if ok then 0 else 1) && (reliable ==> ok)
      ensures Valid()
      ensures ok ==> Holds(done + ids)
    {
      ks := snapshot;
      var args, logits;
      ok, args, logits := Advance(done, ids);
    }

    /** `forward` without a KV cache: everything is rebuilt from the whole sequence. */
    method ForwardFull(ids: seq<int>) returns (ok: bool, next: int)
      requires ids != []
      modifies this`ks, this`faults
      ensures faults == old(faults) + (if ok then 0 else 1) && (reliable ==> ok)
      ensures ok ==> next == Next(m, ids)
    {
      ok, next := true, 0;
      ks := m.init;
      var rows: seq<seq<(K, P)>> := [];
      for t := 0 to |ids|
        invariant Carry(ks, rows) == Fold(m, ids[..t])
        invariant t > 0 ==> next == Next(m, ids[..t])
        invariant ok && faults == old(faults)
      {
        ok := *;
        ok := ok || reliable;
        if !ok { faults := faults + 1; return; }
        assert ids[..t + 1] == ids[..t] + [ids[t]];
        FoldSnoc(m, ids[..t], ids[t]);
        var o := Step(m, Carry(ks, rows), ids[t]);
        ks, rows, next := o.rec, rows + [o.row], m.pick(o.logits);
      }
      assert ids[..|ids|] == ids;
    }
  }
}
