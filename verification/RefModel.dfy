/** The reference model of tools/k3_ref.py, batch size one, over real arithmetic: which earlier
    positions each output depends on, and why feeding a sequence in pieces with the carried
    states is the same as feeding it whole.  Projections, norms, gates and the MoE act on one
    position at a time and stay uninterpreted. */
module RefModel {
  import CarriedState
  import opened Common
  import Decode

  type Vec = seq<real>
  type Mat = seq<seq<real>>

  /** What a latent layer keeps of a position: the latent and the rope slot. */
  type Row = (Vec, Vec)

  function Map<T>(f: Vec -> T, xs: seq<Vec>): (r: seq<T>)
    ensures |r| == |xs|
  {
    seq(|xs|, t requires 0 <= t < |xs| => f(xs[t]))
  }

  function Zeros(n: nat): (z: Vec)
    ensures |z| == n
  {
    seq(n, _ => 0.0)
  }

  function Add(a: Vec, b: Vec): (r: Vec)
    ensures |r| == |a|
  {
    seq(|a|, i requires 0 <= i < |a| => a[i] + if i < |b| then b[i] else 0.0)
  }

  function Scale(w: real, v: Vec): (r: Vec)
    ensures |r| == |v|
  {
    seq(|v|, i requires 0 <= i < |v| => w * v[i])
  }

  lemma AddNothing(a: Vec, v: Vec)
    ensures Add(a, Scale(0.0, v)) == a
  {
  }

  lemma MapAppend<T>(f: Vec -> T, a: seq<Vec>, b: seq<Vec>)
    ensures Map(f, a + b) == Map(f, a) + Map(f, b)
  {
  }

  /* ------------------------------------------------------------ the short convolution */

  /** `ShortConv`: `taps` maps a window of `kernel` consecutive inputs to one output. */
  datatype ShortConv = ShortConv(kernel: nat, channels: nat, taps: seq<Vec> -> Vec)

  /** What stands left of the first input: the carried inputs, or zeros. */
  function Pad(c: ShortConv, st: Option<seq<Vec>>): seq<Vec>
    requires c.kernel >= 1
  {
    match st case None => seq(c.kernel - 1, _ => Zeros(c.channels)) case Some(s) => s
  }

  ghost predicate PadOk(c: ShortConv, st: Option<seq<Vec>>) {
    c.kernel >= 1 && (st.Some? ==> |st.value| == c.kernel - 1)
  }

  function ConvOut(c: ShortConv, xs: seq<Vec>, st: Option<seq<Vec>>): (r: seq<Vec>)
    requires PadOk(c, st)
    ensures |r| == |xs|
  {
    var xp := Pad(c, st) + xs;
    seq(|xs|, t requires 0 <= t < |xs| => c.taps(xp[t..t + c.kernel]))
  }

  /** The last kernel - 1 columns; nothing to carry for a kernel of one. */
  function ConvState(c: ShortConv, xs: seq<Vec>, st: Option<seq<Vec>>): (r: Option<seq<Vec>>)
    requires PadOk(c, st)
    ensures PadOk(c, r)
  {
    var xp := Pad(c, st) + xs;
    if c.kernel > 1 then Some(xp[|xp| - (c.kernel - 1)..]) else None
  }

  /** What the next call pads with is the end of what this one saw. */
  lemma NextPad(c: ShortConv, a: seq<Vec>, st: Option<seq<Vec>>)
    requires PadOk(c, st)
    ensures |Pad(c, st)| == c.kernel - 1
    ensures Pad(c, ConvState(c, a, st)) == (Pad(c, st) + a)[|a|..]
  {
  }

  /** A window that starts at or after position n does not see what is before it. */
  lemma LaterWindow(pad: seq<Vec>, a: seq<Vec>, b: seq<Vec>, x: nat, y: nat)
    requires |a| <= x <= y <= |pad| + |a| + |b|
    ensures (pad + (a + b))[x..y] == ((pad + a)[|a|..] + b)[x - |a|..y - |a|]
  {
    var whole := pad + (a + b);
    assert whole[|a|..|whole|] == (pad + a)[|a|..] + b;
    SubSlice(whole, |a|, |whole|, x - |a|, y - |a|);
  }

  lemma EarlierWindow(pad: seq<Vec>, a: seq<Vec>, b: seq<Vec>, x: nat, y: nat)
    requires x <= y <= |pad| + |a|
    ensures (pad + (a + b))[x..y] == (pad + a)[x..y]
  {
    assert pad + (a + b) == (pad + a) + b;
  }

  /** Chunks of any length, shorter than the window too. */
  lemma ConvSplit(c: ShortConv, a: seq<Vec>, b: seq<Vec>, st: Option<seq<Vec>>)
    requires PadOk(c, st)
    ensures var mid := ConvState(c, a, st);
            && ConvOut(c, a + b, st) == ConvOut(c, a, st) + ConvOut(c, b, mid)
            && ConvState(c, a + b, st) == ConvState(c, b, mid)
  {
    var mid, pad := ConvState(c, a, st), Pad(c, st);
    NextPad(c, a, st);
    LaterWindow(pad, a, b, |a| + |b|, |pad| + |a| + |b|);
    var whole, right := pad + (a + b), (pad + a)[|a|..] + b;
    assert whole[|a| + |b|..] == whole[|a| + |b|..|whole|] && right[|b|..] == right[|b|..|right|];
    hide Pad;
    forall t | 0 <= t < |a + b|
      ensures ConvOut(c, a + b, st)[t] == (ConvOut(c, a, st) + ConvOut(c, b, mid))[t]
    {
      if t < |a| { EarlierWindow(pad, a, b, t, t + c.kernel); } else { LaterWindow(pad, a, b, t, t + c.kernel); }
    }
  }

  /* ------------------------------------------------------------ delta attention */

  /** The per-position pieces of `KimiDeltaAttention`. */
  datatype Kda = Kda(q: Vec -> Vec, k: Vec -> Vec, v: Vec -> Vec, convQ: ShortConv, convK: ShortConv, convV: ShortConv,
    unitQ: Vec -> Vec, unitK: Vec -> Vec, alpha: Vec -> Vec, beta: Vec -> Vec, s0: Mat,
    decay: (Mat, Vec) -> Mat, recall: (Mat, Vec) -> Vec, correct: (Vec, Vec, Vec) -> Vec, write: (Mat, Vec, Vec) -> Mat,
    out: (Vec, Vec) -> Vec)

  datatype State = Fresh
    | Delta(s: Mat, cq: Option<seq<Vec>>, ck: Option<seq<Vec>>, cv: Option<seq<Vec>>)
    | Latents(rows: seq<Row>)

  /** One position of the recurrence. */
  function DecayedBy(m: Kda, s: Mat, x: Vec): Mat { m.decay(s, m.alpha(x)) }

  ghost predicate KdaOk(m: Kda, st: State) {
    && PadOk(m.convQ, None) && PadOk(m.convK, None) && PadOk(m.convV, None)
    && (st.Fresh? || (st.Delta? && PadOk(m.convQ, st.cq) && PadOk(m.convK, st.ck) && PadOk(m.convV, st.cv)))
  }

  function Written(m: Kda, s: Mat, k: Vec, v: Vec, x: Vec): Mat {
    var d := DecayedBy(m, s, x);
    m.write(d, k, m.correct(m.beta(x), v, m.recall(d, k)))
  }

  function DeltaState(m: Kda, s: Mat, k: seq<Vec>, v: seq<Vec>, xs: seq<Vec>): Mat
    requires |k| == |v| == |xs|
  {
    var n := |xs|;
    if n == 0 then s else Written(m, DeltaState(m, s, k[..n - 1], v[..n - 1], xs[..n - 1]), k[n - 1], v[n - 1],
      xs[n - 1])
  }

  function DeltaOut(m: Kda, s: Mat, q: seq<Vec>, k: seq<Vec>, v: seq<Vec>, xs: seq<Vec>): (r: seq<Vec>)
    requires |q| == |k| == |v| == |xs|
    ensures |r| == |xs|
  {
    seq(|xs|, t requires 0 <= t < |xs| => m.recall(DeltaState(m, s, k[..t + 1], v[..t + 1], xs[..t + 1]), q[t]))
  }

  lemma {:induction false} DeltaStateSplit(m: Kda, s: Mat, k: seq<Vec>, v: seq<Vec>, xs: seq<Vec>, k': seq<Vec>,
      v': seq<Vec>, xs': seq<Vec>)
    requires |k| == |v| == |xs| && |k'| == |v'| == |xs'|
    ensures DeltaState(m, s, k + k', v + v', xs + xs') == DeltaState(m, DeltaState(m, s, k, v, xs), k', v', xs')
  {
    var n := |xs'|;
    if n == 0 {
      assert k + k' == k && v + v' == v && xs + xs' == xs;
    } else {
      DeltaStateSplit(m, s, k, v, xs, k'[..n - 1], v'[..n - 1], xs'[..n - 1]);
      var j := |xs| + n - 1;
      assert (k + k')[..j] == k + k'[..n - 1] && (v + v')[..j] == v + v'[..n - 1]
          && (xs + xs')[..j] == xs + xs'[..n - 1];
    }
  }

  /* What one head's recurrence does with its matrix of d rows and e columns. */

  ghost predicate Sized(s: Mat, d: nat, e: nat) {
    |s| == d && forall i :: 0 <= i < d ==> |s[i]| == e
  }

  /** Entry j of the product of k and the first n rows. */
  function ReadAt(s: Mat, k: Vec, n: nat, j: nat): real
    requires n <= |s| && n <= |k| && forall i :: 0 <= i < n ==> j < |s[i]|
  {
    if n == 0 then 0.0 else ReadAt(s, k, n - 1, j) + k[n - 1] * s[n - 1][j]
  }

  function DotTo(a: Vec, b: Vec, n: nat): real
    requires n <= |a| && n <= |b|
  {
    if n == 0 then 0.0 else DotTo(a, b, n - 1) + a[n - 1] * b[n - 1]
  }

  /** The four steps are those of the delta rule: rows decayed, read by a key, the error scaled by
      beta, and written back along the key. */
  ghost predicate DeltaSteps(m: Kda, d: nat, e: nat) {
    && (forall s, a :: Sized(s, d, e) && |a| == d ==>
          Sized(m.decay(s, a), d, e) && forall i, j :: 0 <= i < d && 0 <= j < e ==>
              m.decay(s, a)[i][j] == s[i][j] * a[i])
    && (forall s, k :: Sized(s, d, e) && |k| == d ==>
          |m.recall(s, k)| == e && forall j :: 0 <= j < e ==> m.recall(s, k)[j] == ReadAt(s, k, d, j))
    && (forall b, v, u :: |b| == 1 && |v| == |u| == e ==>
          |m.correct(b, v, u)| == e && forall j :: 0 <= j < e ==> m.correct(b, v, u)[j] == b[0] * (v[j] - u[j]))
    && (forall s, k, w :: Sized(s, d, e) && |k| == d && |w| == e ==>
          && Sized(m.write(s, k, w), d, e)
          && forall i, j :: 0 <= i < d && 0 <= j < e ==> m.write(s, k, w)[i][j] == s[i][j] + k[i] * w[j])
  }

  /** After a position's write the state, read by any key, returns what the decayed state returned
      and beta times the error, as far as that key and the written one agree: nothing new for a key
      at right angles, the value itself for the written key when it has length one and beta is one. */
  lemma DeltaRule(m: Kda, d: nat, e: nat, s: Mat, k: Vec, v: Vec, x: Vec, key: Vec, j: nat)
    requires DeltaSteps(m, d, e) && Sized(s, d, e) && |k| == |key| == |m.alpha(x)| == d && |v| == e && |m.beta(x)| == 1
    requires j < e
    ensures var decayed := DecayedBy(m, s, x);
            && |m.recall(decayed, k)| == |m.recall(decayed, key)| == |m.recall(Written(m, s, k, v, x), key)| == e
            && m.recall(Written(m, s, k, v, x), key)[j]
               == m.recall(decayed, key)[j] + DotTo(key, k, d) * (m.beta(x)[0] * (v[j] - m.recall(decayed, k)[j]))
            && (DotTo(key, k, d) == 0.0 ==> m.recall(Written(m, s, k, v, x), key)[j] == m.recall(decayed, key)[j])
            && (key == k && DotTo(k, k, d) == m.beta(x)[0] == 1.0 ==> m.recall(Written(m, s, k, v, x), key)[j] == v[j])
  {
    hide DeltaSteps, ReadAt, DotTo, Sized;
    var decayed := DecayedBy(m, s, x);
    DecayKeepsSize(m, d, e, s, m.alpha(x));
    RecallIs(m, d, e, decayed, k, j);
    RecallIs(m, d, e, decayed, key, j);
    CorrectIs(m, d, e, m.beta(x), v, m.recall(decayed, k), j);
    var w := m.correct(m.beta(x), v, m.recall(decayed, k));
    WriteIs(m, d, e, decayed, k, w);
    RecallIs(m, d, e, m.write(decayed, k, w), key, j);
    ReadsThrough(decayed, m.write(decayed, k, w), k, w, key, d, e, j);
  }

  lemma DecayKeepsSize(m: Kda, d: nat, e: nat, s: Mat, a: Vec)
    requires DeltaSteps(m, d, e) && Sized(s, d, e) && |a| == d
    ensures Sized(m.decay(s, a), d, e)
  {
  }

  lemma RecallIs(m: Kda, d: nat, e: nat, s: Mat, k: Vec, j: nat)
    requires DeltaSteps(m, d, e) && Sized(s, d, e) && |k| == d && j < e
    ensures |m.recall(s, k)| == e && m.recall(s, k)[j] == ReadAt(s, k, d, j)
  {
    hide ReadAt;
  }

  lemma CorrectIs(m: Kda, d: nat, e: nat, b: Vec, v: Vec, u: Vec, j: nat)
    requires DeltaSteps(m, d, e) && |b| == 1 && |v| == |u| == e && j < e
    ensures |m.correct(b, v, u)| == e && m.correct(b, v, u)[j] == b[0] * (v[j] - u[j])
  {
  }

  lemma WriteIs(m: Kda, d: nat, e: nat, s: Mat, k: Vec, w: Vec)
    requires DeltaSteps(m, d, e) && Sized(s, d, e) && |k| == d && |w| == e
    ensures Sized(m.write(s, k, w), d, e)
    ensures forall i, j :: 0 <= i < d && 0 <= j < e ==> m.write(s, k, w)[i][j] == s[i][j] + k[i] * w[j]
  {
  }

  lemma ReadsThrough(s: Mat, s': Mat, k: Vec, w: Vec, key: Vec, d: nat, e: nat, j: nat)
    requires Sized(s, d, e) && Sized(s', d, e) && |k| == |key| == d && |w| == e && j < e
    requires forall i, j :: 0 <= i < d && 0 <= j < e ==> s'[i][j] == s[i][j] + k[i] * w[j]
    ensures (forall i :: 0 <= i < d ==> |s[i]| == |s'[i]| == e)
    ensures ReadAt(s', key, d, j) == ReadAt(s, key, d, j) + DotTo(key, k, d) * w[j]
  {
    hide ReadAt, DotTo;
    ReadAfterWrite(s, s', k, w, key, d, e, j);
  }

  lemma {:induction false} ReadAfterWrite(s: Mat, s': Mat, k: Vec, w: Vec, key: Vec, n: nat, e: nat, j: nat)
    requires n <= |s| && n <= |s'| && n <= |k| && n <= |key| && |w| == e && j < e
    requires forall i :: 0 <= i < n ==> |s[i]| == |s'[i]| == e && s'[i][j] == s[i][j] + k[i] * w[j]
    ensures ReadAt(s', key, n, j) == ReadAt(s, key, n, j) + DotTo(key, k, n) * w[j]
  {
    if n > 0 {
      ReadAfterWrite(s, s', k, w, key, n - 1, e, j);
      OneEntry(key[n - 1], s[n - 1][j], k[n - 1], w[j], DotTo(key, k, n - 1));
    }
  }

  lemma OneEntry(a: real, x: real, k: real, w: real, dot: real)
    ensures a * (x + k * w) + dot * w == a * x + (dot + a * k) * w
  {
    assert a * (k * w) == (a * k) * w;
  }

  lemma DeltaOutSplit(m: Kda, s: Mat, q: seq<Vec>, k: seq<Vec>, v: seq<Vec>, xs: seq<Vec>, q': seq<Vec>,
      k': seq<Vec>, v': seq<Vec>, xs': seq<Vec>)
    requires |q| == |k| == |v| == |xs| && |q'| == |k'| == |v'| == |xs'|
    ensures DeltaOut(m, s, q + q', k + k', v + v', xs + xs')
         == DeltaOut(m, s, q, k, v, xs) + DeltaOut(m, DeltaState(m, s, k, v, xs), q', k', v', xs')
  {
    hide DeltaOut, DeltaState;
    var l := DeltaOut(m, s, q + q', k + k', v + v', xs + xs');
    var a, b := DeltaOut(m, s, q, k, v, xs), DeltaOut(m, DeltaState(m, s, k, v, xs), q', k', v', xs');
    forall t | 0 <= t < |xs| ensures l[t] == a[t] {
      DeltaOutLeft(m, s, q, k, v, xs, q', k', v', xs', t);
    }
    forall t | |xs| <= t < |l| ensures l[t] == b[t - |xs|] {
      DeltaOutRight(m, s, q, k, v, xs, q', k', v', xs', t - |xs|);
    }
    assert l == a + b;
  }

  lemma DeltaOutLeft(m: Kda, s: Mat, q: seq<Vec>, k: seq<Vec>, v: seq<Vec>, xs: seq<Vec>, q': seq<Vec>, k': seq<Vec>,
      v': seq<Vec>, xs': seq<Vec>, t: nat)
    requires |q| == |k| == |v| == |xs| && |q'| == |k'| == |v'| == |xs'| && t < |xs|
    ensures DeltaOut(m, s, q + q', k + k', v + v', xs + xs')[t] == DeltaOut(m, s, q, k, v, xs)[t]
  {
    hide DeltaState;
    TakeLeft(k, k', t + 1);
    TakeLeft(v, v', t + 1);
    TakeLeft(xs, xs', t + 1);
  }

  lemma DeltaOutRight(m: Kda, s: Mat, q: seq<Vec>, k: seq<Vec>, v: seq<Vec>, xs: seq<Vec>, q': seq<Vec>,
      k': seq<Vec>, v': seq<Vec>, xs': seq<Vec>, u: nat)
    requires |q| == |k| == |v| == |xs| && |q'| == |k'| == |v'| == |xs'| && u < |xs'|
    ensures DeltaOut(m, s, q + q', k + k', v + v', xs + xs')[|xs| + u]
            == DeltaOut(m, DeltaState(m, s, k, v, xs), q', k', v', xs')[u]
  {
    hide DeltaState;
    TakeRight(k, k', u + 1);
    TakeRight(v, v', u + 1);
    TakeRight(xs, xs', u + 1);
    DeltaStateSplit(m, s, k, v, xs, k'[..u + 1], v'[..u + 1], xs'[..u + 1]);
  }

  lemma TakeLeft<T>(a: seq<T>, b: seq<T>, n: nat)
    requires n <= |a|
    ensures (a + b)[..n] == a[..n]
  {
  }

  lemma TakeRight<T>(a: seq<T>, b: seq<T>, n: nat)
    requires n <= |b|
    ensures (a + b)[..|a| + n] == a + b[..n]
  {
  }

  function Start(m: Kda, st: State): Mat { if st.Delta? then st.s else m.s0 }
  function CarriedQ(st: State): Option<seq<Vec>> { if st.Delta? then st.cq else None }
  function CarriedK(st: State): Option<seq<Vec>> { if st.Delta? then st.ck else None }
  function CarriedV(st: State): Option<seq<Vec>> { if st.Delta? then st.cv else None }

  function Qs(m: Kda, xs: seq<Vec>, st: State): (r: seq<Vec>)
    requires KdaOk(m, st)
    ensures |r| == |xs|
  {
    Map(m.unitQ, ConvOut(m.convQ, Map(m.q, xs), CarriedQ(st)))
  }

  function Ks(m: Kda, xs: seq<Vec>, st: State): (r: seq<Vec>)
    requires KdaOk(m, st)
    ensures |r| == |xs|
  {
    Map(m.unitK, ConvOut(m.convK, Map(m.k, xs), CarriedK(st)))
  }

  function Vs(m: Kda, xs: seq<Vec>, st: State): (r: seq<Vec>)
    requires KdaOk(m, st)
    ensures |r| == |xs|
  {
    ConvOut(m.convV, Map(m.v, xs), CarriedV(st))
  }

  function Gated(m: Kda, xs: seq<Vec>, o: seq<Vec>): (r: seq<Vec>)
    requires |o| == |xs|
    ensures |r| == |xs|
  {
    seq(|xs|, t requires 0 <= t < |xs| => m.out(xs[t], o[t]))
  }

  function KdaOut(m: Kda, xs: seq<Vec>, st: State): (r: seq<Vec>)
    requires KdaOk(m, st)
    ensures |r| == |xs|
  {
    Gated(m, xs, DeltaOut(m, Start(m, st), Qs(m, xs, st), Ks(m, xs, st), Vs(m, xs, st), xs))
  }

  function KdaState(m: Kda, xs: seq<Vec>, st: State): (r: State)
    requires KdaOk(m, st)
    ensures KdaOk(m, r) && r.Delta?
  {
    Delta(DeltaState(m, Start(m, st), Ks(m, xs, st), Vs(m, xs, st), xs),
          ConvState(m.convQ, Map(m.q, xs), CarriedQ(st)), ConvState(m.convK, Map(m.k, xs), CarriedK(st)),
          ConvState(m.convV, Map(m.v, xs), CarriedV(st)))
  }

  /** The loop of `KimiDeltaAttention.forward`. */
  method KdaForward(m: Kda, xs: seq<Vec>, st: State) returns (ys: seq<Vec>, next: State)
    requires KdaOk(m, st)
    ensures ys == KdaOut(m, xs, st) && next == KdaState(m, xs, st)
  {
    hide DeltaState, Qs, Ks, Vs, Gated, ConvState, Map;
    var q, k, v, s := Qs(m, xs, st), Ks(m, xs, st), Vs(m, xs, st), Start(m, st);
    NoDelta(m, s, k, v, xs);
    var o: seq<Vec> := [];
    for t := 0 to |xs|
      invariant s == DeltaState(m, Start(m, st), k[..t], v[..t], xs[..t])
      invariant |o| == t && forall u :: 0 <= u < t ==> o[u] == DeltaOut(m, Start(m, st), q, k, v, xs)[u]
    {
      OneDelta(m, Start(m, st), k, v, xs, t);
      s := DecayedBy(m, s, xs[t]);
      var w := m.correct(m.beta(xs[t]), v[t], m.recall(s, k[t]));
      s := m.write(s, k[t], w);
      o := o + [m.recall(s, q[t])];
    }
    assert k[..|xs|] == k && v[..|xs|] == v && xs[..|xs|] == xs;
    assert o == DeltaOut(m, Start(m, st), q, k, v, xs);
    ys := Gated(m, xs, o);
    next := Delta(s, ConvState(m.convQ, Map(m.q, xs), CarriedQ(st)), ConvState(m.convK, Map(m.k, xs), CarriedK(st)),
                  ConvState(m.convV, Map(m.v, xs), CarriedV(st)));
  }

  lemma NoDelta(m: Kda, s: Mat, k: seq<Vec>, v: seq<Vec>, xs: seq<Vec>)
    requires |k| == |v| == |xs|
    ensures DeltaState(m, s, k[..0], v[..0], xs[..0]) == s
  {
  }

  lemma OneDelta(m: Kda, s: Mat, k: seq<Vec>, v: seq<Vec>, xs: seq<Vec>, t: nat)
    requires |k| == |v| == |xs| && t < |xs|
    ensures DeltaState(m, s, k[..t + 1], v[..t + 1], xs[..t + 1])
         == Written(m, DeltaState(m, s, k[..t], v[..t], xs[..t]), k[t], v[t], xs[t])
  {
    assert k[..t + 1][..t] == k[..t] && v[..t + 1][..t] == v[..t] && xs[..t + 1][..t] == xs[..t];
  }

  lemma KdaInputsSplit(m: Kda, a: seq<Vec>, b: seq<Vec>, st: State)
    requires KdaOk(m, st)
    ensures var mid := KdaState(m, a, st);
            && Qs(m, a + b, st) == Qs(m, a, st) + Qs(m, b, mid) && Ks(m, a + b, st) == Ks(m, a, st) + Ks(m, b, mid)
            && Vs(m, a + b, st) == Vs(m, a, st) + Vs(m, b, mid)
            && ConvState(m.convQ, Map(m.q, a + b), CarriedQ(st)) == ConvState(m.convQ, Map(m.q, b), CarriedQ(mid))
            && ConvState(m.convK, Map(m.k, a + b), CarriedK(st)) == ConvState(m.convK, Map(m.k, b), CarriedK(mid))
            && ConvState(m.convV, Map(m.v, a + b), CarriedV(st)) == ConvState(m.convV, Map(m.v, b), CarriedV(mid))
  {
    hide Map, ConvOut, ConvState;
    MapAppend(m.q, a, b);
    MapAppend(m.k, a, b);
    MapAppend(m.v, a, b);
    ConvSplit(m.convQ, Map(m.q, a), Map(m.q, b), CarriedQ(st));
    ConvSplit(m.convK, Map(m.k, a), Map(m.k, b), CarriedK(st));
    ConvSplit(m.convV, Map(m.v, a), Map(m.v, b), CarriedV(st));
    var mid := KdaState(m, a, st);
    MapAppend(m.unitQ, ConvOut(m.convQ, Map(m.q, a), CarriedQ(st)), ConvOut(m.convQ, Map(m.q, b), CarriedQ(mid)));
    MapAppend(m.unitK, ConvOut(m.convK, Map(m.k, a), CarriedK(st)), ConvOut(m.convK, Map(m.k, b), CarriedK(mid)));
  }

  lemma KdaSplit(m: Kda, a: seq<Vec>, b: seq<Vec>, st: State)
    requires KdaOk(m, st)
    ensures var mid := KdaState(m, a, st);
            KdaOut(m, a + b, st) == KdaOut(m, a, st) + KdaOut(m, b, mid)
                && KdaState(m, a + b, st) == KdaState(m, b, mid)
  {
    hide Qs, Ks, Vs, DeltaState, DeltaOut, ConvState, Map, KdaOk, PadOk, Gated;
    var mid := KdaState(m, a, st);
    KdaInputsSplit(m, a, b, st);
    DeltaStateSplit(m, Start(m, st), Ks(m, a, st), Vs(m, a, st), a, Ks(m, b, mid), Vs(m, b, mid), b);
    DeltaOutSplit(m, Start(m, st), Qs(m, a, st), Ks(m, a, st), Vs(m, a, st), a, Qs(m, b, mid), Ks(m, b, mid),
        Vs(m, b, mid), b);
    GatedAppend(m, a, b, DeltaOut(m, Start(m, st), Qs(m, a, st), Ks(m, a, st), Vs(m, a, st), a),
                DeltaOut(m, Start(m, mid), Qs(m, b, mid), Ks(m, b, mid), Vs(m, b, mid), b));
  }

  lemma GatedAppend(m: Kda, a: seq<Vec>, b: seq<Vec>, o: seq<Vec>, p: seq<Vec>)
    requires |o| == |a| && |p| == |b|
    ensures Gated(m, a + b, o + p) == Gated(m, a, o) + Gated(m, b, p)
  {
  }

  /** One token of decoding: the windows slide, the matrix decays, is read by the new key, corrected
      and written, and the output reads it by the query. */
  lemma KdaToken(m: Kda, x: Vec, s: Mat, cq: seq<Vec>, ck: seq<Vec>, cv: seq<Vec>)
    requires m.convQ.kernel > 1 && m.convK.kernel > 1 && m.convV.kernel > 1
    requires KdaOk(m, Delta(s, Some(cq), Some(ck), Some(cv)))
    ensures var q, k, v := m.unitQ(m.convQ.taps(cq + [m.q(x)])), m.unitK(m.convK.taps(ck + [m.k(x)])),
                           m.convV.taps(cv + [m.v(x)]);
            var decayed := m.decay(s, m.alpha(x));
            var next := m.write(decayed, k, m.correct(m.beta(x), v, m.recall(decayed, k)));
            var st := Delta(s, Some(cq), Some(ck), Some(cv));
            && KdaOut(m, [x], st) == [m.out(x, m.recall(next, q))]
            && KdaState(m, [x], st)
               == Delta(next, Some((cq + [m.q(x)])[1..]), Some((ck + [m.k(x)])[1..]), Some((cv + [m.v(x)])[1..]))
  {
    var st := Delta(s, Some(cq), Some(ck), Some(cv));
    OneWindow(m.convQ, m.q(x), cq);
    OneWindow(m.convK, m.k(x), ck);
    OneWindow(m.convV, m.v(x), cv);
    assert Map(m.q, [x]) == [m.q(x)] && Map(m.k, [x]) == [m.k(x)] && Map(m.v, [x]) == [m.v(x)];
    OnePosition(m, x, s, Qs(m, [x], st), Ks(m, [x], st), Vs(m, [x], st));
  }

  lemma OneWindow(c: ShortConv, x: Vec, past: seq<Vec>)
    requires PadOk(c, Some(past)) && c.kernel > 1
    ensures ConvOut(c, [x], Some(past)) == [c.taps(past + [x])]
    ensures ConvState(c, [x], Some(past)) == Some((past + [x])[1..])
  {
    assert (past + [x])[0..0 + c.kernel] == past + [x];
  }

  lemma OnePosition(m: Kda, x: Vec, s: Mat, q: seq<Vec>, k: seq<Vec>, v: seq<Vec>)
    requires |q| == |k| == |v| == 1
    ensures DeltaState(m, s, k, v, [x]) == Written(m, s, k[0], v[0], x)
    ensures DeltaOut(m, s, q, k, v, [x]) == [m.recall(Written(m, s, k[0], v[0], x), q[0])]
  {
    assert k[..1] == k && v[..1] == v && [x][..1] == [x];
    assert DeltaState(m, s, k[..0], v[..0], [x][..0]) == s;
  }

  /* ------------------------------------------------------------ latent attention */

  /** The per-position pieces of `GatedMLA`: `latent` yields the row of a position, `score`
      and `value` read one row for one head; `exp` is the exponential of softmax. */
  datatype Mla = Mla(heads: nat, width: nat, query: Vec -> Vec, latent: Vec -> Row,
    score: (nat, Vec, Row) -> real, value: (nat, Row) -> Vec, exp: real -> real, out: (Vec, seq<Vec>) -> Vec)

  ghost predicate MlaOk(m: Mla) {
    forall x :: m.exp(x) > 0.0
  }

  /** Row j as query position p sees it; None is a score of minus infinity. */
  function Masked(m: Mla, h: nat, q: Vec, rows: seq<Row>, p: nat): (r: seq<Option<real>>)
    ensures |r| == |rows|
  {
    seq(|rows|, j requires 0 <= j < |rows| => if j <= p then Some(m.score(h, q, rows[j])) else None)
  }

  function Exp(m: Mla, s: Option<real>): real {
    match s case None => 0.0 case Some(x) => m.exp(x)
  }

  /** The denominator of softmax over the first n scores. */
  function Mass(m: Mla, s: seq<Option<real>>, n: nat): real
    requires n <= |s|
  {
    if n == 0 then 0.0 else Mass(m, s, n - 1) + Exp(m, s[n - 1])
  }

  /** The weighted sum of the first n values. */
  function Blend(m: Mla, h: nat, s: seq<Option<real>>, z: real, rows: seq<Row>, n: nat): (r: Vec)
    requires n <= |s| == |rows| && z != 0.0
    ensures |r| == m.width
  {
    if n == 0 then Zeros(m.width)
      else Add(Blend(m, h, s, z, rows, n - 1), Scale(Exp(m, s[n - 1]) / z, m.value(h, rows[n - 1])))
  }

  lemma {:induction false} MassPositive(m: Mla, s: seq<Option<real>>, n: nat)
    requires MlaOk(m) && n <= |s|
    ensures Mass(m, s, n) >= 0.0
    ensures n > 0 && s[0].Some? ==> Mass(m, s, n) > 0.0
  {
    if n > 0 { MassPositive(m, s, n - 1); }
  }

  /** One head's output at position p over all the rows there are, masked. */
  function HeadOut(m: Mla, h: nat, q: Vec, rows: seq<Row>, p: nat): Vec
    requires MlaOk(m) && rows != []
  {
    var s := Masked(m, h, q, rows, p);
    MassPositive(m, s, |s|);
    Blend(m, h, s, Mass(m, s, |s|), rows, |rows|)
  }

  /** Masked rows contribute nothing: the same comes out of the rows up to p alone. */
  lemma {:induction false} MassMasked(m: Mla, h: nat, q: Vec, rows: seq<Row>, more: seq<Row>, p: nat, n: nat)
    requires p < |rows| && |rows| <= n <= |rows + more|
    ensures Mass(m, Masked(m, h, q, rows + more, p), n) == Mass(m, Masked(m, h, q, rows, p), |rows|)
  {
    if n > |rows| {
      MassMasked(m, h, q, rows, more, p, n - 1);
    } else {
      MassSame(m, Masked(m, h, q, rows + more, p), Masked(m, h, q, rows, p), n);
    }
  }

  lemma {:induction false} MassSame(m: Mla, s: seq<Option<real>>, t: seq<Option<real>>, n: nat)
    requires n <= |s| && n <= |t| && forall j :: 0 <= j < n ==> s[j] == t[j]
    ensures Mass(m, s, n) == Mass(m, t, n)
  {
    if n > 0 { MassSame(m, s, t, n - 1); }
  }

  lemma {:induction false} BlendSame(m: Mla, h: nat, s: seq<Option<real>>, t: seq<Option<real>>, z: real,
      rows: seq<Row>, rows': seq<Row>, n: nat)
    requires n <= |s| == |rows| && n <= |t| == |rows'| && z != 0.0
    requires forall j :: 0 <= j < n ==> s[j] == t[j] && rows[j] == rows'[j]
    ensures Blend(m, h, s, z, rows, n) == Blend(m, h, t, z, rows', n)
  {
    if n > 0 { BlendSame(m, h, s, t, z, rows, rows', n - 1); }
  }

  lemma {:induction false} BlendMasked(m: Mla, h: nat, q: Vec, rows: seq<Row>, more: seq<Row>, p: nat, z: real, n: nat)
    requires p < |rows| && |rows| <= n <= |rows + more| && z != 0.0
    ensures Blend(m, h, Masked(m, h, q, rows + more, p), z, rows + more, n)
            == Blend(m, h, Masked(m, h, q, rows, p), z, rows, |rows|)
  {
    var s := Masked(m, h, q, rows + more, p);
    if n > |rows| {
      BlendMasked(m, h, q, rows, more, p, z, n - 1);
      ScaledByNothing(Blend(m, h, s, z, rows + more, n - 1), z, m.value(h, (rows + more)[n - 1]));
    } else {
      BlendSame(m, h, s, Masked(m, h, q, rows, p), z, rows + more, rows, n);
    }
  }

  lemma ScaledByNothing(a: Vec, z: real, v: Vec)
    requires z != 0.0
    ensures Add(a, Scale(0.0 / z, v)) == a
  {
    AddNothing(a, v);
  }

  lemma HeadMasked(m: Mla, h: nat, q: Vec, rows: seq<Row>, more: seq<Row>, p: nat)
    requires MlaOk(m) && p < |rows|
    ensures HeadOut(m, h, q, rows + more, p) == HeadOut(m, h, q, rows, p)
  {
    MassMasked(m, h, q, rows, more, p, |rows + more|);
    MassPositive(m, Masked(m, h, q, rows, p), |rows|);
    BlendMasked(m, h, q, rows, more, p, Mass(m, Masked(m, h, q, rows, p), |rows|), |rows + more|);
  }

  /** How much each row weighs in a head's output at position p. */
  function Weights(m: Mla, h: nat, q: Vec, rows: seq<Row>, p: nat): (w: seq<real>)
    requires MlaOk(m) && rows != []
    ensures |w| == |rows|
  {
    var s := Masked(m, h, q, rows, p);
    MassPositive(m, s, |s|);
    seq(|rows|, j requires 0 <= j < |rows| => Exp(m, s[j]) / Mass(m, s, |s|))
  }

  function WeightSum(w: seq<real>, n: nat): real
    requires n <= |w|
  {
    if n == 0 then 0.0 else WeightSum(w, n - 1) + w[n - 1]
  }

  /** The weighted sum of the first n values. */
  function Mixed(m: Mla, h: nat, w: seq<real>, rows: seq<Row>, n: nat): Vec
    requires n <= |w| == |rows|
  {
    if n == 0 then Zeros(m.width) else Add(Mixed(m, h, w, rows, n - 1), Scale(w[n - 1], m.value(h, rows[n - 1])))
  }

  /** A head's output is an average of the values of the rows up to its own: each of them weighs
      something, in proportion to the exponential of its score, no later row does, and the weights
      add up to one. */
  lemma HeadIsAverage(m: Mla, h: nat, q: Vec, rows: seq<Row>, p: nat)
    requires MlaOk(m) && p < |rows|
    ensures var w := Weights(m, h, q, rows, p);
            && HeadOut(m, h, q, rows, p) == Mixed(m, h, w, rows, |rows|) && WeightSum(w, |rows|) == 1.0
            && (forall j :: 0 <= j < |rows| ==> if j <= p then w[j] > 0.0 else w[j] == 0.0)
            && forall i, j :: 0 <= i <= p && 0 <= j <= p ==>
                 w[i] * m.exp(m.score(h, q, rows[j])) == w[j] * m.exp(m.score(h, q, rows[i]))
  {
    hide MlaOk, Mass, Exp, Masked, Blend, Mixed, WeightSum, Weights;
    WeightsAddUp(m, h, q, rows, p);
    forall j | 0 <= j < |rows| ensures var w := Weights(m, h, q, rows, p)[j]; if j <= p then w > 0.0 else w == 0.0 {
      WeightIs(m, h, q, rows, p, j);
    }
    forall i, j | 0 <= i <= p && 0 <= j <= p
      ensures Weights(m, h, q, rows, p)[i] * m.exp(m.score(h, q, rows[j]))
           == Weights(m, h, q, rows, p)[j] * m.exp(m.score(h, q, rows[i]))
    {
      WeightIs(m, h, q, rows, p, i);
      WeightIs(m, h, q, rows, p, j);
      Proportional(m.exp(m.score(h, q, rows[i])), m.exp(m.score(h, q, rows[j])),
          Mass(m, Masked(m, h, q, rows, p), |rows|));
    }
  }

  lemma WeightIs(m: Mla, h: nat, q: Vec, rows: seq<Row>, p: nat, j: nat)
    requires MlaOk(m) && p < |rows| && j < |rows|
    ensures var w, z := Weights(m, h, q, rows, p)[j], Mass(m, Masked(m, h, q, rows, p), |rows|);
            z > 0.0 && if j <= p then w > 0.0 && w == m.exp(m.score(h, q, rows[j])) / z else w == 0.0
  {
    hide Mass;
    var s := Masked(m, h, q, rows, p);
    MassPositive(m, s, |s|);
    Quotient(Exp(m, s[j]), Mass(m, s, |s|));
  }

  lemma WeightsAddUp(m: Mla, h: nat, q: Vec, rows: seq<Row>, p: nat)
    requires MlaOk(m) && p < |rows|
    ensures HeadOut(m, h, q, rows, p) == Mixed(m, h, Weights(m, h, q, rows, p), rows, |rows|)
    ensures WeightSum(Weights(m, h, q, rows, p), |rows|) == 1.0
  {
    hide Mass, Exp, Blend, Mixed, WeightSum;
    var w, s := Weights(m, h, q, rows, p), Masked(m, h, q, rows, p);
    var z := Mass(m, s, |s|);
    MassPositive(m, s, |s|);
    BlendIsMixed(m, h, s, z, w, rows, |rows|);
    WeightsOfMass(m, s, z, w, |rows|);
    SameOverSame(z);
  }

  lemma {:induction false} BlendIsMixed(m: Mla, h: nat, s: seq<Option<real>>, z: real, w: seq<real>, rows: seq<Row>,
      n: nat)
    requires n <= |s| == |rows| == |w| && z != 0.0 && forall j :: 0 <= j < |w| ==> w[j] == Exp(m, s[j]) / z
    ensures Blend(m, h, s, z, rows, n) == Mixed(m, h, w, rows, n)
  {
    if n > 0 { BlendIsMixed(m, h, s, z, w, rows, n - 1); }
  }

  lemma {:induction false} WeightsOfMass(m: Mla, s: seq<Option<real>>, z: real, w: seq<real>, n: nat)
    requires n <= |s| == |w| && z > 0.0 && forall j :: 0 <= j < |w| ==> w[j] == Exp(m, s[j]) / z
    ensures WeightSum(w, n) == Mass(m, s, n) / z
  {
    if n > 0 {
      WeightsOfMass(m, s, z, w, n - 1);
      SumOfQuotients(Mass(m, s, n - 1), Exp(m, s[n - 1]), z);
    }
  }

  lemma SumOfQuotients(a: real, b: real, z: real)
    requires z > 0.0
    ensures a / z + b / z == (a + b) / z
  {
  }

  lemma SameOverSame(z: real)
    requires z > 0.0
    ensures z / z == 1.0
  {
  }

  lemma Quotient(a: real, z: real)
    requires a >= 0.0 && z > 0.0
    ensures if a > 0.0 then a / z > 0.0 else a / z == 0.0
  {
  }

  lemma Proportional(a: real, b: real, z: real)
    requires z > 0.0
    ensures (a / z) * b == (b / z) * a
  {
    var x, y := a / z, b / z;
    assert x * z == a && y * z == b;
    assert x * (y * z) == y * (x * z);
  }

  function CachedRows(st: State): seq<Row> { if st.Latents? then st.rows else [] }

  ghost predicate AttnIs(m: Mla, st: State) {
    MlaOk(m) && (st.Fresh? || st.Latents?)
  }

  function AllRows(m: Mla, xs: seq<Vec>, st: State): (r: seq<Row>)
    ensures |r| == |CachedRows(st)| + |xs|
  {
    CachedRows(st) + Map(m.latent, xs)
  }

  /** The heads' outputs for one query, position p of rows. */
  function HeadsOut(m: Mla, x: Vec, rows: seq<Row>, p: nat): seq<Vec>
    requires MlaOk(m) && rows != []
  {
    seq(m.heads, h requires 0 <= h < m.heads => HeadOut(m, h, m.query(x), rows, p))
  }

  /** Queries at consecutive positions from `from` on, over the same rows. */
  function Queries(m: Mla, xs: seq<Vec>, rows: seq<Row>, from: nat): (r: seq<Vec>)
    requires MlaOk(m) && (xs != [] ==> rows != [])
    ensures |r| == |xs|
  {
    seq(|xs|, t requires 0 <= t < |xs| => m.out(xs[t], HeadsOut(m, xs[t], rows, from + t)))
  }

  /** `GatedMLA.forward`: query t of T sits at row t + (Tk - T), and sees no row after its own. */
  function MlaOut(m: Mla, xs: seq<Vec>, st: State): (r: seq<Vec>)
    requires AttnIs(m, st)
    ensures |r| == |xs|
  {
    var rows := AllRows(m, xs, st);
    Queries(m, xs, rows, |rows| - |xs|)
  }

  function MlaState(m: Mla, xs: seq<Vec>, st: State): State {
    Latents(AllRows(m, xs, st))
  }

  lemma MlaSplit(m: Mla, a: seq<Vec>, b: seq<Vec>, st: State)
    requires AttnIs(m, st)
    ensures var mid := MlaState(m, a, st);
            MlaOut(m, a + b, st) == MlaOut(m, a, st) + MlaOut(m, b, mid)
                && MlaState(m, a + b, st) == MlaState(m, b, mid)
  {
    hide Queries, Map;
    MapAppend(m.latent, a, b);
    var rows, more := AllRows(m, a, st), Map(m.latent, b);
    assert AllRows(m, a + b, st) == rows + more == AllRows(m, b, MlaState(m, a, st));
    QueriesSplit(m, a, b, rows, more, |CachedRows(st)|);
  }

  lemma QueriesSplit(m: Mla, a: seq<Vec>, b: seq<Vec>, rows: seq<Row>, more: seq<Row>, from: nat)
    requires MlaOk(m) && |rows| == from + |a| && |more| == |b|
    ensures Queries(m, a + b, rows + more, from) == Queries(m, a, rows, from) + Queries(m, b, rows + more, from + |a|)
  {
    hide HeadsOut;
    var l, r := Queries(m, a + b, rows + more, from), Queries(m, a, rows, from) + Queries(m, b, rows + more,
        from + |a|);
    forall t | 0 <= t < |a + b| ensures l[t] == r[t] {
      if t < |a| { HeadsMasked(m, a[t], rows, more, from + t); }
    }
  }

  lemma HeadsMasked(m: Mla, x: Vec, rows: seq<Row>, more: seq<Row>, p: nat)
    requires MlaOk(m) && p < |rows|
    ensures HeadsOut(m, x, rows + more, p) == HeadsOut(m, x, rows, p)
  {
    hide HeadOut;
    forall h | 0 <= h < m.heads
      ensures HeadOut(m, h, m.query(x), rows + more, p) == HeadOut(m, h, m.query(x), rows, p) {
      HeadMasked(m, h, m.query(x), rows, more, p);
    }
  }

  /** One token of decoding: its row joins the cache, and every head averages over all of it. */
  lemma MlaToken(m: Mla, x: Vec, rows: seq<Row>)
    requires MlaOk(m)
    ensures var all := rows + [m.latent(x)];
            && MlaState(m, [x], Latents(rows)) == Latents(all)
            && MlaOut(m, [x], Latents(rows))
               == [m.out(x, seq(m.heads, h requires 0 <= h < m.heads => HeadOut(m, h, m.query(x), all, |rows|)))]
  {
    hide HeadOut;
    assert Map(m.latent, [x]) == [m.latent(x)];
    assert AllRows(m, [x], Latents(rows)) == rows + [m.latent(x)];
  }

  /* ------------------------------------------------------------ a layer */

  datatype Attn = KdaAttn(kda: Kda) | MlaAttn(mla: Mla)

  /** `resAttn` and `resMlp` mix a position's own block residuals with its running sum. */
  datatype Layer = Layer(attn: Attn, resAttn: (Vec, seq<Vec>) -> Vec, resMlp: (Vec, seq<Vec>) -> Vec,
    normIn: Vec -> Vec, normMlp: Vec -> Vec, mlp: Vec -> Vec)

  ghost predicate StateFits(a: Attn, st: State) {
    match a case KdaAttn(m) => KdaOk(m, st) case MlaAttn(m) => AttnIs(m, st)
  }

  function AttnOut(a: Attn, xs: seq<Vec>, st: State): (r: seq<Vec>)
    requires StateFits(a, st)
    ensures |r| == |xs|
  {
    match a case KdaAttn(m) => KdaOut(m, xs, st) case MlaAttn(m) => MlaOut(m, xs, st)
  }

  function AttnState(a: Attn, xs: seq<Vec>, st: State): (r: State)
    requires StateFits(a, st)
    ensures StateFits(a, r)
  {
    match a case KdaAttn(m) => KdaState(m, xs, st) case MlaAttn(m) => MlaState(m, xs, st)
  }

  lemma AttnSplit(a: Attn, x: seq<Vec>, y: seq<Vec>, st: State)
    requires StateFits(a, st)
    ensures var mid := AttnState(a, x, st);
            AttnOut(a, x + y, st) == AttnOut(a, x, st) + AttnOut(a, y, mid)
                && AttnState(a, x + y, st) == AttnState(a, y, mid)
  {
    hide KdaOut, KdaState, MlaOut, MlaState, KdaOk, AttnIs;
    match a case KdaAttn(m) => KdaSplit(m, x, y, st); case MlaAttn(m) => MlaSplit(m, x, y, st);
  }

  /** A position on its way through the layers: its hidden vector and its block residuals. */
  datatype Pos = Pos(h: Vec, res: seq<Vec>)

  /** Into the attention block: what it is fed. */
  function Entering(l: Layer, p: Pos): Vec {
    l.normIn(if p.res != [] then l.resAttn(p.h, p.res) else p.h)
  }

  /** Out of the layer, given the attention's output; at a block boundary the running sum moves
      to the residuals and starts again. */
  function Leaving(l: Layer, boundary: bool, p: Pos, a: Vec): Pos {
    var res := if boundary then p.res + [p.h] else p.res;
    var sum := if boundary then a else Add(p.h, a);
    Pos(Add(sum, l.mlp(l.normMlp(l.resMlp(sum, res)))), res)
  }

  function Enter(l: Layer, ps: seq<Pos>): (r: seq<Vec>)
    ensures |r| == |ps|
  {
    seq(|ps|, t requires 0 <= t < |ps| => Entering(l, ps[t]))
  }

  function Leave(l: Layer, boundary: bool, ps: seq<Pos>, a: seq<Vec>): (r: seq<Pos>)
    requires |a| == |ps|
    ensures |r| == |ps|
  {
    seq(|ps|, t requires 0 <= t < |ps| => Leaving(l, boundary, ps[t], a[t]))
  }

  /** `DecoderLayer.forward`. */
  function LayerOut(l: Layer, boundary: bool, ps: seq<Pos>, st: State): (r: seq<Pos>)
    requires StateFits(l.attn, st)
    ensures |r| == |ps|
  {
    Leave(l, boundary, ps, AttnOut(l.attn, Enter(l, ps), st))
  }

  function LayerState(l: Layer, ps: seq<Pos>, st: State): (r: State)
    requires StateFits(l.attn, st)
    ensures StateFits(l.attn, r)
  {
    AttnState(l.attn, Enter(l, ps), st)
  }

  lemma LayerSplit(l: Layer, boundary: bool, p: seq<Pos>, q: seq<Pos>, st: State)
    requires StateFits(l.attn, st)
    ensures var mid := LayerState(l, p, st);
            && LayerOut(l, boundary, p + q, st) == LayerOut(l, boundary, p, st) + LayerOut(l, boundary, q, mid)
            && LayerState(l, p + q, st) == LayerState(l, q, mid)
  {
    hide AttnOut, AttnState, StateFits, Entering, Leaving;
    assert Enter(l, p + q) == Enter(l, p) + Enter(l, q);
    AttnSplit(l.attn, Enter(l, p), Enter(l, q), st);
    LeaveAppend(l, boundary, p, q, AttnOut(l.attn, Enter(l, p), st),
        AttnOut(l.attn, Enter(l, q), LayerState(l, p, st)));
  }

  lemma LeaveAppend(l: Layer, boundary: bool, p: seq<Pos>, q: seq<Pos>, a: seq<Vec>, b: seq<Vec>)
    requires |a| == |p| && |b| == |q|
    ensures Leave(l, boundary, p + q, a + b) == Leave(l, boundary, p, a) + Leave(l, boundary, q, b)
  {
  }

  /* ------------------------------------------------------------ the whole model */

  datatype Net = Net(embed: int -> Vec, layers: seq<Layer>, blockSize: nat, resOut: (Vec, seq<Vec>) -> Vec,
      head: Vec -> Vec, argmax: Vec -> int)

  ghost predicate StatesFit(net: Net, sts: seq<State>) {
    && net.blockSize > 0 && |sts| == |net.layers|
    && forall i :: 0 <= i < |sts| ==> StateFits(net.layers[i].attn, sts[i])
  }

  /** The positions after the first n layers, and what those layers leave behind. */
  function Through(net: Net, n: nat, ps: seq<Pos>, sts: seq<State>): (r: seq<Pos>)
    requires StatesFit(net, sts) && n <= |net.layers|
    ensures |r| == |ps|
  {
    if n == 0 then ps else LayerOut(net.layers[n - 1], (n - 1) % net.blockSize == 0, Through(net, n - 1, ps, sts),
      sts[n - 1])
  }

  function Left(net: Net, n: nat, ps: seq<Pos>, sts: seq<State>): (r: seq<State>)
    requires StatesFit(net, sts) && n <= |net.layers|
    ensures |r| == n
  {
    if n == 0 then []
    else Left(net, n - 1, ps, sts) + [LayerState(net.layers[n - 1], Through(net, n - 1, ps, sts), sts[n - 1])]
  }

  lemma {:induction false} LeftFits(net: Net, n: nat, ps: seq<Pos>, sts: seq<State>, i: nat)
    requires StatesFit(net, sts) && i < n <= |net.layers|
    ensures StateFits(net.layers[i].attn, Left(net, n, ps, sts)[i])
  {
    hide StateFits, LayerState, Through;
    if i < n - 1 { LeftFits(net, n - 1, ps, sts, i); }
  }

  lemma AllLeftFit(net: Net, ps: seq<Pos>, sts: seq<State>)
    requires StatesFit(net, sts)
    ensures StatesFit(net, Left(net, |net.layers|, ps, sts))
  {
    hide StateFits, Left;
    forall i | 0 <= i < |net.layers| ensures StateFits(net.layers[i].attn, Left(net, |net.layers|, ps, sts)[i]) {
      LeftFits(net, |net.layers|, ps, sts, i);
    }
  }

  function Embedded(net: Net, ids: seq<int>): (r: seq<Pos>)
    ensures |r| == |ids|
  {
    seq(|ids|, t requires 0 <= t < |ids| => Pos(net.embed(ids[t]), []))
  }

  function Headed(net: Net, ps: seq<Pos>): (r: seq<Vec>)
    ensures |r| == |ps|
  {
    seq(|ps|, t requires 0 <= t < |ps| => net.head(net.resOut(ps[t].h, ps[t].res)))
  }

  /** The logits of `K3Model.forward`, position by position, and the states it returns. */
  function Outputs(net: Net, ids: seq<int>, sts: seq<State>): (r: seq<Vec>)
    requires StatesFit(net, sts)
    ensures |r| == |ids|
  {
    Headed(net, Through(net, |net.layers|, Embedded(net, ids), sts))
  }

  function States(net: Net, ids: seq<int>, sts: seq<State>): (r: seq<State>)
    requires StatesFit(net, sts)
    ensures StatesFit(net, r)
  {
    AllLeftFit(net, Embedded(net, ids), sts);
    Left(net, |net.layers|, Embedded(net, ids), sts)
  }

  /** `K3Model.forward`: layer after layer, states replaced one by one. */
  method Forward(net: Net, ids: seq<int>, given: Option<seq<State>>) returns (logits: seq<Vec>, sts: seq<State>)
    requires StatesFit(net, StatesOr(net, given))
    ensures logits == Outputs(net, ids, StatesOr(net, given)) && sts == States(net, ids, StatesOr(net, given))
  {
    hide LayerOut, LayerState, StateFits;
    ghost var start := StatesOr(net, given);
    var h := Embedded(net, ids);
    sts := StatesOr(net, given);
    for i := 0 to |net.layers|
      invariant h == Through(net, i, Embedded(net, ids), start)
      invariant |sts| == |start| && sts[..i] == Left(net, i, Embedded(net, ids), start) && sts[i..] == start[i..]
    {
      assert sts[i] == sts[i..][0] == start[i];
      var l, st := net.layers[i], sts[i];
      sts := sts[i := LayerState(l, h, st)];
      h := LayerOut(l, i % net.blockSize == 0, h, st);
    }
    assert sts[..|net.layers|] == sts;
    logits := Headed(net, h);
  }

  /* ------------------------------------------- what the residuals and the running sum are */

  /** Embeddings, attention and MLP outputs all have width e. */
  ghost predicate Wide(net: Net, e: nat) {
    && (forall id :: |net.embed(id)| == e)
    && forall i :: 0 <= i < |net.layers| ==>
         && (forall v :: |net.layers[i].mlp(v)| == e)
         && match net.layers[i].attn
            case KdaAttn(m) => forall x, o :: |m.out(x, o)| == e
            case MlaAttn(m) => forall x, o :: |m.out(x, o)| == e
  }

  /** What layers lo to hi - 1 put out at position t, attention and MLP, added up. */
  ghost function PutOut(net: Net, e: nat, ids: seq<int>, sts: seq<State>, lo: nat, hi: nat, t: nat): (r: Vec)
    requires StatesFit(net, sts) && lo <= hi <= |net.layers| && t < |ids|
    ensures |r| == e
    decreases 5 * hi
  {
    if lo == hi then Zeros(e)
    else Add(Add(PutOut(net, e, ids, sts, lo, hi - 1, t), AttnAt(net, e, ids, sts, hi - 1)[t]),
             MlpAt(net, e, ids, sts, hi - 1, t))
  }

  /** Where the block of layer i begins. */
  function BlockStart(net: Net, i: nat): (b: nat)
    requires net.blockSize > 0
    ensures b <= i
  {
    i - i % net.blockSize
  }

  /** The block residuals layer i works with: the embedding, then what each block before its own
      has put out. */
  ghost function Residuals(net: Net, e: nat, ids: seq<int>, sts: seq<State>, i: nat, t: nat): (r: seq<Vec>)
    requires StatesFit(net, sts) && i < |net.layers| && t < |ids|
    ensures |r| == i / net.blockSize + 1
    decreases 5 * i + 1
  {
    seq(i / net.blockSize + 1, k requires 0 <= k < i / net.blockSize + 1 =>
      if k == 0 then net.embed(ids[t])
      else (BlocksBefore(net.blockSize, k, i); PutOut(net, e, ids, sts, (k - 1) * net.blockSize, k * net.blockSize, t)))
  }

  lemma BlocksBefore(size: nat, k: nat, i: nat)
    requires size > 0 && 0 < k <= i / size
    ensures 0 <= (k - 1) * size <= k * size <= i
  {
    assert k * size <= i / size * size <= i;
    assert (k - 1) * size == k * size - size && (k - 1) * size >= 0;
  }

  /** What layer i's attention is fed: the mixture of residuals and running sum, normalised, of the
      embedding alone at first. */
  ghost function FedTo(net: Net, e: nat, ids: seq<int>, sts: seq<State>, i: nat): (r: seq<Vec>)
    requires StatesFit(net, sts) && i < |net.layers|
    ensures |r| == |ids|
    decreases 5 * i + 2
  {
    var l := net.layers[i];
    seq(|ids|, t requires 0 <= t < |ids| => l.normIn(
      if i == 0 then net.embed(ids[t])
      else l.resAttn(PutOut(net, e, ids, sts, BlockStart(net, i - 1), i, t), Residuals(net, e, ids, sts, i - 1, t))))
  }

  ghost function AttnAt(net: Net, e: nat, ids: seq<int>, sts: seq<State>, i: nat): (r: seq<Vec>)
    requires StatesFit(net, sts) && i < |net.layers|
    ensures |r| == |ids|
    decreases 5 * i + 3
  {
    AttnOut(net.layers[i].attn, FedTo(net, e, ids, sts, i), sts[i])
  }

  /** Layer i's MLP, fed the mixture of residuals and running sum, the attention's output included. */
  ghost function MlpAt(net: Net, e: nat, ids: seq<int>, sts: seq<State>, i: nat, t: nat): Vec
    requires StatesFit(net, sts) && i < |net.layers| && t < |ids|
    decreases 5 * i + 4
  {
    var l := net.layers[i];
    l.mlp(l.normMlp(l.resMlp(
      Add(PutOut(net, e, ids, sts, BlockStart(net, i), i, t), AttnAt(net, e, ids, sts, i)[t]),
      Residuals(net, e, ids, sts, i, t))))
  }

  /** After every layer a position's running sum is what its block has put out so far, and its
      residuals are the embedding and what each earlier block has put out. */
  lemma {:induction false} ThroughIsBlocks(net: Net, e: nat, ids: seq<int>, sts: seq<State>, n: nat)
    requires StatesFit(net, sts) && Wide(net, e) && n < |net.layers|
    ensures forall t :: 0 <= t < |ids| ==>
              Through(net, n + 1, Embedded(net, ids), sts)[t]
              == Pos(PutOut(net, e, ids, sts, BlockStart(net, n), n + 1, t), Residuals(net, e, ids, sts, n, t))
  {
    hide Through, LayerOut, MlpAt, PutOut, Residuals, Wide, StateFits, BlockStart, FedTo, AttnOut;
    var ps := Through(net, n, Embedded(net, ids), sts);
    if n > 0 { ThroughIsBlocks(net, e, ids, sts, n - 1); }
    ThroughStep(net, Embedded(net, ids), sts, n);
    AttnIsAt(net, e, ids, sts, n, ps);
    forall t | 0 <= t < |ids|
      ensures Through(net, n + 1, Embedded(net, ids), sts)[t]
           == Pos(PutOut(net, e, ids, sts, BlockStart(net, n), n + 1, t), Residuals(net, e, ids, sts, n, t))
    {
      LeavingIs(net, e, ids, sts, n, t, ps[t]);
    }
  }

  lemma ThroughStep(net: Net, ps: seq<Pos>, sts: seq<State>, n: nat)
    requires StatesFit(net, sts) && n < |net.layers|
    ensures StateFits(net.layers[n].attn, sts[n])
    ensures var before, l := Through(net, n, ps, sts), net.layers[n];
            Through(net, n + 1, ps, sts)
            == Leave(l, n % net.blockSize == 0, before, AttnOut(l.attn, Enter(l, before), sts[n]))
    ensures n == 0 ==> Through(net, n, ps, sts) == ps
  {
    hide AttnOut, Enter, Leave;
  }

  /** A position on its way into layer i. */
  ghost predicate ComesIn(net: Net, e: nat, ids: seq<int>, sts: seq<State>, i: nat, t: nat, p: Pos)
    requires StatesFit(net, sts) && i < |net.layers| && t < |ids|
  {
    p == if i == 0 then Pos(net.embed(ids[t]), [])
         else Pos(PutOut(net, e, ids, sts, BlockStart(net, i - 1), i, t), Residuals(net, e, ids, sts, i - 1, t))
  }

  lemma AttnIsAt(net: Net, e: nat, ids: seq<int>, sts: seq<State>, i: nat, ps: seq<Pos>)
    requires StatesFit(net, sts) && Wide(net, e) && i < |net.layers| && |ps| == |ids|
    requires forall t :: 0 <= t < |ids| ==> ComesIn(net, e, ids, sts, i, t, ps[t])
    ensures Enter(net.layers[i], ps) == FedTo(net, e, ids, sts, i)
    ensures forall t :: 0 <= t < |ids| ==> |AttnAt(net, e, ids, sts, i)[t]| == e
  {
    hide PutOut, Residuals, MlpAt, AttnOut;
    var l := net.layers[i];
    forall t | 0 <= t < |ids| ensures Enter(l, ps)[t] == FedTo(net, e, ids, sts, i)[t] {
      assert ComesIn(net, e, ids, sts, i, t, ps[t]);
    }
    AttnIsWide(net, e, sts, i, FedTo(net, e, ids, sts, i));
  }

  lemma AttnIsWide(net: Net, e: nat, sts: seq<State>, i: nat, xs: seq<Vec>)
    requires StatesFit(net, sts) && Wide(net, e) && i < |net.layers|
    ensures forall t :: 0 <= t < |xs| ==> |AttnOut(net.layers[i].attn, xs, sts[i])[t]| == e
  {
    hide DeltaOut, Qs, Ks, Vs, HeadsOut, AllRows;
  }

  /** What leaves layer i at position t, boundary or not. */
  lemma LeavingIs(net: Net, e: nat, ids: seq<int>, sts: seq<State>, i: nat, t: nat, p: Pos)
    requires StatesFit(net, sts) && Wide(net, e) && i < |net.layers| && t < |ids|
    requires ComesIn(net, e, ids, sts, i, t, p) && |AttnAt(net, e, ids, sts, i)[t]| == e
    ensures Leaving(net.layers[i], i % net.blockSize == 0, p, AttnAt(net, e, ids, sts, i)[t])
         == Pos(PutOut(net, e, ids, sts, BlockStart(net, i), i + 1, t), Residuals(net, e, ids, sts, i, t))
  {
    hide PutOut, Residuals, AttnAt, BlockStart, Wide, StateFits;
    PutOutMore(net, e, ids, sts, i, t);
    ResidualsNext(net, e, ids, sts, i, t);
    var a := AttnAt(net, e, ids, sts, i)[t];
    if i % net.blockSize == 0 { AddToZeros(e, a); }
    assert p.res + [] == p.res && [] + [p.h] == [p.h];
    assert Residuals(net, e, ids, sts, i, t) == if i % net.blockSize == 0 then p.res + [p.h] else p.res;
  }

  lemma AddToZeros(e: nat, a: Vec)
    requires |a| == e
    ensures Add(Zeros(e), a) == a
  {
  }

  /** The block of layer i goes on, or begins with it. */
  lemma PutOutMore(net: Net, e: nat, ids: seq<int>, sts: seq<State>, i: nat, t: nat)
    requires StatesFit(net, sts) && i < |net.layers| && t < |ids|
    ensures PutOut(net, e, ids, sts, BlockStart(net, i), i + 1, t)
         == Add(Add(PutOut(net, e, ids, sts, BlockStart(net, i), i, t), AttnAt(net, e, ids, sts, i)[t]),
              MlpAt(net, e, ids, sts, i, t))
    ensures if i % net.blockSize == 0 then PutOut(net, e, ids, sts, BlockStart(net, i), i, t) == Zeros(e)
            else i > 0 && BlockStart(net, i) == BlockStart(net, i - 1)
  {
    hide AttnAt, MlpAt, StateFits, PutOut, BlockStart;
    StartOfBlock(net, i);
    PutOutStep(net, e, ids, sts, BlockStart(net, i), i, t);
  }

  lemma PutOutStep(net: Net, e: nat, ids: seq<int>, sts: seq<State>, lo: nat, i: nat, t: nat)
    requires StatesFit(net, sts) && lo <= i < |net.layers| && t < |ids|
    ensures PutOut(net, e, ids, sts, lo, i + 1, t)
         == Add(Add(PutOut(net, e, ids, sts, lo, i, t), AttnAt(net, e, ids, sts, i)[t]), MlpAt(net, e, ids, sts, i, t))
    ensures lo == i ==> PutOut(net, e, ids, sts, lo, i, t) == Zeros(e)
  {
    hide AttnAt, MlpAt, StatesFit;
  }

  lemma StartOfBlock(net: Net, i: nat)
    requires net.blockSize > 0
    ensures if i % net.blockSize == 0 then BlockStart(net, i) == i
            else i > 0 && BlockStart(net, i) == BlockStart(net, i - 1)
  {
    if i % net.blockSize != 0 { SameBlock(i, net.blockSize); }
  }

  /** So the logits are the head over the mixture of all residuals and the last running sum, and a
      layer's new state is its attention's, on what that was fed. */
  lemma ForwardIsBlocks(net: Net, e: nat, ids: seq<int>, sts: seq<State>)
    requires StatesFit(net, sts) && Wide(net, e) && net.layers != []
    ensures forall t :: 0 <= t < |ids| ==>
              var n := |net.layers| - 1;
              Outputs(net, ids, sts)[t]
              == net.head(net.resOut(PutOut(net, e, ids, sts, BlockStart(net, n), n + 1, t),
                Residuals(net, e, ids, sts, n, t)))
    ensures forall i :: 0 <= i < |net.layers| ==>
              StateFits(net.layers[i].attn, sts[i])
              && States(net, ids, sts)[i] == AttnState(net.layers[i].attn, FedTo(net, e, ids, sts, i), sts[i])
  {
    hide Through, Left, PutOut, Residuals, AttnAt, BlockStart, StateFits, FedTo, AttnState;
    ThroughIsBlocks(net, e, ids, sts, |net.layers| - 1);
    forall i | 0 <= i < |net.layers|
      ensures StateFits(net.layers[i].attn, sts[i])
      ensures States(net, ids, sts)[i] == AttnState(net.layers[i].attn, FedTo(net, e, ids, sts, i), sts[i])
    {
      LeftAt(net, |net.layers|, Embedded(net, ids), sts, i);
      if i > 0 { ThroughIsBlocks(net, e, ids, sts, i - 1); } else { ThroughNone(net, ids, sts); }
      AttnIsAt(net, e, ids, sts, i, Through(net, i, Embedded(net, ids), sts));
    }
  }

  /** How many of the first n layers begin a block. */
  function Boundaries(net: Net, n: nat): nat
    requires net.blockSize > 0
  {
    if n == 0 then 0 else Boundaries(net, n - 1) + if (n - 1) % net.blockSize == 0 then 1 else 0
  }

  /** Component c of the sum of these vectors. */
  function SumAt(vs: seq<Vec>, c: nat): real {
    if vs == [] then 0.0
    else SumAt(vs[..|vs| - 1], c) + if c < |vs[|vs| - 1]| then vs[|vs| - 1][c] else 0.0
  }

  /** Component c of what the first n layers have put out at position t. */
  ghost function OutAt(net: Net, e: nat, ids: seq<int>, sts: seq<State>, n: nat, t: nat, c: nat): real
    requires StatesFit(net, sts) && n <= |net.layers| && t < |ids|
  {
    if n == 0 then 0.0
    else
      var put := [AttnAt(net, e, ids, sts, n - 1)[t], MlpAt(net, e, ids, sts, n - 1, t)];
      OutAt(net, e, ids, sts, n - 1, t, c) + SumAt(put, c)
  }

  /** Nothing is lost on the way: after any number of layers the residuals and the running sum of a
      position add up to its embedding and all that attention and MLP have put out, and there are
      as many residuals as blocks have begun. */
  lemma {:induction false} NothingIsLost(net: Net, e: nat, ids: seq<int>, sts: seq<State>, n: nat, t: nat, c: nat)
    requires StatesFit(net, sts) && Wide(net, e) && n <= |net.layers| && t < |ids| && c < e
    ensures var p := Through(net, n, Embedded(net, ids), sts)[t];
            && |p.h| == e && |p.res| == Boundaries(net, n)
            && SumAt(p.res + [p.h], c) == SumAt([net.embed(ids[t])], c) + OutAt(net, e, ids, sts, n, t, c)
  {
    hide AttnAt, MlpAt, Through, Embedded, StateFits;
    if n == 0 {
      ThroughNone(net, ids, sts);
      EmbeddedWide(net, e, ids, t);
      assert [] + [net.embed(ids[t])] == [net.embed(ids[t])];
    } else {
      NothingIsLost(net, e, ids, sts, n - 1, t, c);
      OneLayerOn(net, e, ids, sts, n - 1, t);
      var a, m := AttnAt(net, e, ids, sts, n - 1)[t], MlpAt(net, e, ids, sts, n - 1, t);
      var p, p' := Through(net, n - 1, Embedded(net, ids), sts)[t], Through(net, n, Embedded(net, ids), sts)[t];
      hide SumAt, Add;
      SumsMove(p, p', (n - 1) % net.blockSize == 0, a, m, e, c);
    }
  }

  lemma ThroughNone(net: Net, ids: seq<int>, sts: seq<State>)
    requires StatesFit(net, sts)
    ensures Through(net, 0, Embedded(net, ids), sts) == Embedded(net, ids)
    ensures forall t :: 0 <= t < |ids| ==> Embedded(net, ids)[t] == Pos(net.embed(ids[t]), [])
  {
  }

  lemma EmbeddedWide(net: Net, e: nat, ids: seq<int>, t: nat)
    requires Wide(net, e) && t < |ids|
    ensures |Embedded(net, ids)[t].h| == e
  {
    EmbedWide(net, e, ids[t]);
    ThroughStart(net, ids, t);
  }

  lemma EmbedWide(net: Net, e: nat, id: int)
    requires Wide(net, e)
    ensures |net.embed(id)| == e
  {
  }

  lemma ThroughStart(net: Net, ids: seq<int>, t: nat)
    requires t < |ids|
    ensures Embedded(net, ids)[t] == Pos(net.embed(ids[t]), [])
  {
  }

  lemma SumOfOne(vs: seq<Vec>, v: Vec, c: nat)
    requires c < |v|
    ensures SumAt(vs + [v], c) == SumAt(vs, c) + v[c]
  {
    assert (vs + [v])[..|vs|] == vs;
  }

  /** One layer on: a boundary moves the running sum to the residuals, and what the layer puts out
      is added. */
  lemma OneLayerOn(net: Net, e: nat, ids: seq<int>, sts: seq<State>, i: nat, t: nat)
    requires StatesFit(net, sts) && Wide(net, e) && i < |net.layers| && t < |ids|
    ensures var p, p' := Through(net, i, Embedded(net, ids), sts)[t], Through(net, i + 1, Embedded(net, ids), sts)[t];
            var a, m := AttnAt(net, e, ids, sts, i)[t], MlpAt(net, e, ids, sts, i, t);
            && p'.h == Add(Add(if i % net.blockSize == 0 then Zeros(e) else p.h, a), m)
            && p'.res == p.res + (if i % net.blockSize == 0 then [p.h] else []) && |a| == |m| == |p'.h| == e
  {
    hide Through, PutOut, Residuals, AttnAt, BlockStart, StateFits, FedTo;
    var ps := Through(net, i, Embedded(net, ids), sts);
    ThroughIsBlocks(net, e, ids, sts, i);
    if i > 0 { ThroughIsBlocks(net, e, ids, sts, i - 1); } else { ThroughNone(net, ids, sts); }
    AttnIsAt(net, e, ids, sts, i, ps);
    PutOutMore(net, e, ids, sts, i, t);
    ResidualsNext(net, e, ids, sts, i, t);
    assert [] + [ps[t].h] == [ps[t].h];
  }

  lemma SumsMove(p: Pos, p': Pos, boundary: bool, a: Vec, m: Vec, e: nat, c: nat)
    requires |p.h| == |a| == |m| == e && c < e
    requires p'.h == Add(Add(if boundary then Zeros(e) else p.h, a), m)
    requires p'.res == p.res + if boundary then [p.h] else []
    ensures |p'.h| == e && SumAt(p'.res + [p'.h], c) == SumAt(p.res + [p.h], c) + SumAt([a, m], c)
  {
    SumOfOne(p'.res, p'.h, c);
    SumOfOne(p.res, p.h, c);
    assert [a, m] == ([] + [a]) + [m];
    SumOfOne([] + [a], m, c);
    SumOfOne([], a, c);
    assert !boundary ==> p'.res == p.res;
  }

  lemma SameBlock(i: nat, size: nat)
    requires size > 0 && i % size != 0
    ensures i > 0 && (i - 1) / size == i / size && (i - 1) % size == i % size - 1
  {
    var q, r := i / size, i % size;
    assert i == q * size + r && i - 1 == q * size + (r - 1);
    QuotientIs(i - 1, q, r - 1, size);
  }

  lemma NextBlock(i: nat, size: nat)
    requires size > 0 && i > 0 && i % size == 0
    ensures (i - 1) / size == i / size - 1 && (i - 1) % size == size - 1
    ensures (i / size - 1) * size == i - size && i / size * size == i
  {
    var q := i / size;
    assert i == q * size;
    assert (q - 1) * size == q * size - size;
    QuotientIs(i - 1, q - 1, size - 1, size);
  }

  /** A boundary moves the sum of the finished block, the embedding at first, to the residuals. */
  lemma ResidualsNext(net: Net, e: nat, ids: seq<int>, sts: seq<State>, i: nat, t: nat)
    requires StatesFit(net, sts) && i < |net.layers| && t < |ids|
    ensures i == 0 ==> Residuals(net, e, ids, sts, i, t) == [net.embed(ids[t])]
    ensures i > 0 ==>
              Residuals(net, e, ids, sts, i, t)
              == Residuals(net, e, ids, sts, i - 1, t)
                + if i % net.blockSize == 0 then [PutOut(net, e, ids, sts, BlockStart(net, i - 1), i, t)] else []
  {
    hide PutOut, StateFits;
    var size := net.blockSize;
    if i == 0 {
      assert 0 / size == 0;
    } else if i % size == 0 {
      NextBlock(i, size);
    } else {
      SameBlock(i, size);
    }
  }

  function StatesOr(net: Net, given: Option<seq<State>>): seq<State> {
    match given case Some(s) => s case None => seq(|net.layers|, _ => Fresh)
  }

  lemma {:induction false} LeftAt(net: Net, n: nat, ps: seq<Pos>, sts: seq<State>, i: nat)
    requires StatesFit(net, sts) && i < n <= |net.layers|
    ensures Left(net, n, ps, sts)[i] == LayerState(net.layers[i], Through(net, i, ps, sts), sts[i])
  {
    hide Through, LayerState, StateFits;
    if i < n - 1 { LeftAt(net, n - 1, ps, sts, i); }
  }

  lemma {:induction false} ThroughSplit(net: Net, n: nat, p: seq<Pos>, q: seq<Pos>, sts: seq<State>, mid: seq<State>)
    requires StatesFit(net, sts) && StatesFit(net, mid) && n <= |net.layers| && mid == Left(net, |net.layers|, p, sts)
    ensures Through(net, n, p + q, sts) == Through(net, n, p, sts) + Through(net, n, q, mid)
    ensures Left(net, n, p + q, sts) == Left(net, n, q, mid)
  {
    hide LayerOut, LayerState, StateFits;
    if n > 0 {
      ThroughSplit(net, n - 1, p, q, sts, mid);
      LeftAt(net, |net.layers|, p, sts, n - 1);
      LayerSplit(net.layers[n - 1], (n - 1) % net.blockSize == 0, Through(net, n - 1, p, sts),
          Through(net, n - 1, q, mid), sts[n - 1]);
    }
  }

  /** The split law: running a ++ b is running a, then b with the states a left. */
  lemma SplitLaw(net: Net, a: seq<int>, b: seq<int>, sts: seq<State>)
    requires StatesFit(net, sts)
    ensures Outputs(net, a + b, sts) == Outputs(net, a, sts) + Outputs(net, b, States(net, a, sts))
    ensures States(net, a + b, sts) == States(net, b, States(net, a, sts))
  {
    hide Through, Left, StatesFit;
    var n, p, q := |net.layers|, Embedded(net, a), Embedded(net, b);
    assert Embedded(net, a + b) == p + q;
    ThroughSplit(net, n, p, q, sts, States(net, a, sts));
    HeadedAppend(net, Through(net, n, p, sts), Through(net, n, q, States(net, a, sts)));
  }

  lemma HeadedAppend(net: Net, p: seq<Pos>, q: seq<Pos>)
    ensures Headed(net, p + q) == Headed(net, p) + Headed(net, q)
  {
  }

  /* ------------------------------------------- the same model as a fold of one token */

  /** `mla_slot`: the latent layers among the first n, and so the place of layer n among them. */
  function Slot(net: Net, n: nat): (k: nat)
    requires n <= |net.layers|
    ensures k <= n
  {
    if n == 0 then 0 else Slot(net, n - 1) + if net.layers[n - 1].attn.MlaAttn? then 1 else 0
  }

  lemma {:induction false} SlotMono(net: Net, i: nat, n: nat)
    requires i <= n <= |net.layers|
    ensures Slot(net, i) <= Slot(net, n)
    ensures i < n && net.layers[i].attn.MlaAttn? ==> Slot(net, i) < Slot(net, n)
  {
    if i < n { SlotMono(net, i, n - 1); }
  }

  /** States from the recurrent part and the rows: a latent layer's cache is its column. */
  function Unpack(net: Net, rec: seq<State>, rows: seq<seq<Row>>): (r: seq<State>)
    ensures |r| == |net.layers|
  {
    seq(|net.layers|, i requires 0 <= i < |net.layers| =>
      if net.layers[i].attn.MlaAttn? then Latents(Column(rows, Slot(net, i))) else if i < |rec| then rec[i] else Fresh)
  }

  function Column(rows: seq<seq<Row>>, k: nat): (r: seq<Row>)
    ensures |r| == |rows|
  {
    seq(|rows|, p requires 0 <= p < |rows| => if k < |rows[p]| then rows[p][k] else ([], []))
  }

  function RecOf(net: Net, sts: seq<State>): (r: seq<State>)
    requires |sts| == |net.layers|
    ensures |r| == |sts|
  {
    seq(|sts|, i requires 0 <= i < |sts| => if net.layers[i].attn.MlaAttn? then Fresh else sts[i])
  }

  function Newest(st: State): Row {
    if st.Latents? && st.rows != [] then st.rows[|st.rows| - 1] else ([], [])
  }

  /** The newest row of each latent layer among the first n. */
  function RowUpTo(net: Net, sts: seq<State>, n: nat): (r: seq<Row>)
    requires n <= |net.layers| == |sts|
    ensures |r| == Slot(net, n)
  {
    if n == 0 then [] else RowUpTo(net, sts, n - 1) + if net.layers[n - 1].attn.MlaAttn? then [Newest(sts[n - 1])]
      else []
  }

  lemma {:induction false} RowUpToAt(net: Net, sts: seq<State>, n: nat, i: nat)
    requires i < n <= |net.layers| == |sts| && net.layers[i].attn.MlaAttn?
    ensures Slot(net, i) < Slot(net, n) && RowUpTo(net, sts, n)[Slot(net, i)] == Newest(sts[i])
  {
    SlotMono(net, i, n);
    if i < n - 1 { RowUpToAt(net, sts, n - 1, i); }
  }

  /** The row of a position: one pair for every latent layer. */
  function RowOf(net: Net, sts: seq<State>): (r: seq<Row>)
    requires |sts| == |net.layers|
    ensures |r| == Slot(net, |net.layers|)
  {
    RowUpTo(net, sts, |net.layers|)
  }

  ghost function TokenStep(net: Net, rec: seq<State>, rows: seq<seq<Row>>, id: int): CarriedState.Out<seq<State>,
      seq<Row>, Vec> {
    var sts := Unpack(net, rec, rows);
    if StatesFit(net, sts) then
      CarriedState.Out(RecOf(net, States(net, [id], sts)), RowOf(net, States(net, [id], sts)),
        Outputs(net, [id], sts)[0])
    else CarriedState.Out(rec, seq(Slot(net, |net.layers|), _ => ([], [])), [])
  }

  /** The engine's view: one token at a time, a recurrent part, one row per position. */
  ghost function AsEngineModel(net: Net): CarriedState.Model<seq<State>, seq<Row>, Vec> {
    CarriedState.Model(seq(|net.layers|, _ => Fresh),
      (rec: seq<State>, rows: seq<seq<Row>>, id: int) => TokenStep(net, rec, rows, id), net.argmax)
  }

  /** Nothing fed yet; an empty cache stands for none. */
  function Blank(net: Net): seq<State> {
    Unpack(net, seq(|net.layers|, _ => Fresh), [])
  }

  ghost predicate NetOk(net: Net) {
    StatesFit(net, Blank(net))
  }

  /** No state and an empty cache mean the same to a layer. */
  lemma LayerFresh(l: Layer, boundary: bool, ps: seq<Pos>, st: State)
    requires StateFits(l.attn, st) && (st.Fresh? || st == Latents([]))
    ensures StateFits(l.attn, Fresh)
    ensures LayerOut(l, boundary, ps, Fresh) == LayerOut(l, boundary, ps, st)
            && LayerState(l, ps, Fresh) == LayerState(l, ps, st)
  {
    hide Leave, Enter, KdaOut, KdaState, PadOk, Queries, Map;
    if l.attn.MlaAttn? { assert CachedRows(Fresh) == CachedRows(st); }
  }

  lemma BlankAt(net: Net, i: nat)
    requires i < |net.layers|
    ensures Blank(net)[i].Fresh? || Blank(net)[i] == Latents([])
    ensures StatesOr(net, None)[i] == Fresh
  {
  }

  lemma {:induction false} ThroughFresh(net: Net, n: nat, ps: seq<Pos>)
    requires NetOk(net) && n <= |net.layers|
    ensures StatesFit(net, StatesOr(net, None))
    ensures Through(net, n, ps, StatesOr(net, None)) == Through(net, n, ps, Blank(net))
    ensures Left(net, n, ps, StatesOr(net, None)) == Left(net, n, ps, Blank(net))
  {
    hide LayerOut, LayerState, StateFits, Blank, StatesOr;
    FreshFits(net);
    if n > 0 {
      ThroughFresh(net, n - 1, ps);
      BlankAt(net, n - 1);
      LayerFresh(net.layers[n - 1], (n - 1) % net.blockSize == 0, Through(net, n - 1, ps, Blank(net)),
          Blank(net)[n - 1]);
    }
  }

  lemma FreshFits(net: Net)
    requires NetOk(net)
    ensures StatesFit(net, StatesOr(net, None))
  {
    hide Blank, StateFits;
    forall i | 0 <= i < |net.layers| ensures StateFits(net.layers[i].attn, StatesOr(net, None)[i]) {
      BlankAt(net, i);
      LayerFresh(net.layers[i], false, [], Blank(net)[i]);
    }
  }

  /** One more token is one more column entry and a new recurrent part. */
  lemma UnpackFeed(net: Net, rec: seq<State>, rows: seq<seq<Row>>, id: int)
    requires StatesFit(net, Unpack(net, rec, rows))
    ensures var next := States(net, [id], Unpack(net, rec, rows));
            Unpack(net, RecOf(net, next), rows + [RowOf(net, next)]) == next
  {
    var sts := Unpack(net, rec, rows);
    var next := States(net, [id], sts);
    var again := Unpack(net, RecOf(net, next), rows + [RowOf(net, next)]);
    forall i | 0 <= i < |net.layers| ensures again[i] == next[i] {
      LeftAt(net, |net.layers|, Embedded(net, [id]), sts, i);
      match net.layers[i].attn
      case KdaAttn(m) =>
      case MlaAttn(m) =>
        CacheGrows(m, Enter(net.layers[i], Through(net, i, Embedded(net, [id]), sts)), sts[i]);
        RowUpToAt(net, next, |net.layers|, i);
        ColumnGrows(rows, RowOf(net, next), Slot(net, i));
    }
  }

  lemma CacheGrows(m: Mla, xs: seq<Vec>, st: State)
    requires |xs| == 1 && st.Latents?
    ensures var n := MlaState(m, xs, st);
            n.rows != [] && n.rows == st.rows + [n.rows[|n.rows| - 1]]
  {
  }

  lemma ColumnGrows(rows: seq<seq<Row>>, row: seq<Row>, k: nat)
    requires k < |row|
    ensures Column(rows + [row], k) == Column(rows, k) + [row[k]]
  {
  }

  /** Folding the token step over ids carries exactly the states a single forward returns. */
  lemma {:induction false} FoldIsForward(net: Net, ids: seq<int>)
    requires NetOk(net) && ids != []
    ensures var c := CarriedState.Fold(AsEngineModel(net), ids);
            Unpack(net, c.rec, c.rows) == States(net, ids, Blank(net))
    decreases ids, 1
  {
    hide AsEngineModel, States, Unpack, Blank;
    var m, n := AsEngineModel(net), |ids| - 1;
    var c := CarriedState.Fold(m, ids[..n]);
    StateBefore(net, ids);
    assert ids == ids[..n] + [ids[n]];
    CarriedState.FoldSnoc(m, ids[..n], ids[n]);
    StepIs(net, c, ids[n]);
    hide CarriedState.Fold, CarriedState.Step;
    UnpackFeed(net, c.rec, c.rows, ids[n]);
    if n > 0 { SplitLaw(net, ids[..n], [ids[n]], Blank(net)); } else { assert ids == [ids[0]]; }
  }

  /** The token step on a state that fits is a forward of one token. */
  lemma StepIs(net: Net, c: CarriedState.Carry<seq<State>, seq<Row>>, id: int)
    requires StatesFit(net, Unpack(net, c.rec, c.rows))
    ensures var sts := Unpack(net, c.rec, c.rows); var o := CarriedState.Step(AsEngineModel(net), c, id);
            o == CarriedState.Out(RecOf(net, States(net, [id], sts)), RowOf(net, States(net, [id], sts)),
              Outputs(net, [id], sts)[0])
  {
    hide StatesFit, Unpack, States, Outputs, RecOf, RowOf;
  }

  /** The state the last id is fed into. */
  lemma {:induction false} StateBefore(net: Net, ids: seq<int>)
    requires NetOk(net) && ids != []
    ensures var n := |ids| - 1; var c := CarriedState.Fold(AsEngineModel(net), ids[..n]);
            Unpack(net, c.rec, c.rows) == (if n > 0 then States(net, ids[..n], Blank(net)) else Blank(net))
    decreases ids, 0
  {
    hide States, Unpack;
    if |ids| > 1 { FoldIsForward(net, ids[..|ids| - 1]); }
  }

  /** ... and yields, for the last id, the logits of the last position of a forward over all. */
  lemma LastLogits(net: Net, ids: seq<int>)
    requires NetOk(net) && ids != []
    ensures CarriedState.Logits(AsEngineModel(net), ids) == Outputs(net, ids, Blank(net))[|ids| - 1]
  {
    hide AsEngineModel, States, Unpack, Blank, Outputs, CarriedState.Fold, CarriedState.Step;
    var n := |ids| - 1;
    StateBefore(net, ids);
    assert ids == ids[..n] + [ids[n]];
    StepIs(net, CarriedState.Fold(AsEngineModel(net), ids[..n]), ids[n]);
    if n > 0 { SplitLaw(net, ids[..n], [ids[n]], Blank(net)); } else { assert ids == [ids[0]]; }
  }

  /** Every position's logits are those of the fold up to it: the engine may feed a sequence in
      any pieces and will see what one forward over the whole of it sees. */
  lemma ForwardIsFold(net: Net, ids: seq<int>, t: nat)
    requires NetOk(net) && t < |ids|
    ensures StatesFit(net, StatesOr(net, None))
    ensures Outputs(net, ids, StatesOr(net, None))[t] == CarriedState.Logits(AsEngineModel(net), ids[..t + 1])
  {
    hide CarriedState.Logits, AsEngineModel, StatesOr, Blank, StatesFit, Through, Left;
    ThroughFresh(net, |net.layers|, Embedded(net, ids));
    assert ids == ids[..t + 1] + ids[t + 1..];
    SplitLaw(net, ids[..t + 1], ids[t + 1..], Blank(net));
    LastLogits(net, ids[..t + 1]);
  }

  /** `K3Model.greedy` forwards everything again for each new id; what it appends is the serial
      greedy decoding the engine's loops are held to. */
  method Greedy(net: Net, ids: seq<int>, n: nat) returns (out: seq<int>)
    requires NetOk(net) && ids != []
    ensures out == ids + Decode.Serial(AsEngineModel(net), ids, n, {})
  {
    hide Outputs, States, StatesFit, NetOk, CarriedState.Logits;
    out := ids;
    ghost var m := AsEngineModel(net);
    ghost var emitted: seq<int> := [];
    for i := 0 to n
      invariant |emitted| == i && out == ids + emitted
      invariant Decode.SerialFrom(m, ids, emitted, n, {}) == Decode.Serial(m, ids, n, {})
    {
      ForwardIsFold(net, out, |out| - 1);
      assert out[..|out|] == out;
      var logits, sts := Forward(net, out, None);
      var next := net.argmax(logits[|logits| - 1]);
      Decode.SerialStep(m, ids, emitted, n, {});
      emitted := emitted + [next];
      out := out + [next];
    }
  }

  /** The engine's buffers fit the reference model: one entry per latent layer and position. */
  lemma NetIsShaped(net: Net)
    ensures CarriedState.Shaped(AsEngineModel(net), Slot(net, |net.layers|))
  {
    hide StatesFit, Unpack, States, Outputs, RecOf, RowOf;
  }

  /** The engine's loop over the reference model, however it drafts and batches, emits what the
      reference model's own greedy loop appends. */
  method DecodesGreedily(net: Net, w: CarriedState.Engine<seq<State>, Vec, Vec, Vec>, draft: Decode.Draft?, spec: nat,
                         ids: seq<int>, n: nat, incremental: bool, cancel: nat -> bool)
    returns (ending: Decode.Ending, out: seq<int>, reference: seq<int>)
    requires NetOk(net) && ids != [] && w.Valid() && w.m == AsEngineModel(net) && w.cached == 0 && w.Holds([])
    requires |ids| + n + 1 <= w.kvCap
    requires draft != null ==> incremental && draft.Behind([]) && draft.kvCap == w.kvCap
    modifies w`ks, w`cached, w`faults, w.kvc, w.ropec, draft
    ensures ending.Complete? ==> ids + out == reference
    ensures !ending.Failed? ==> ids + out <= reference
    ensures w.reliable && (draft != null ==> draft.reliable) && (forall i :: !cancel(i)) ==> ending.Complete?
  {
    hide NetOk, AsEngineModel, Decode.Serial, CarriedState.Engine.Holds;
    assert ids[..w.cached] == [];
    reference := Greedy(net, ids, n);
    ghost var fed, passes;
    ending, out, fed, passes := Decode.Generate(w, draft, spec, ids, n, {}, incremental, cancel);
  }
}
