/** The generation loop of src/cli/k3_run.c: serial, incremental, speculative and hybrid
    decoding, all of which must emit what serial greedy decoding emits. */
module Decode {
  import opened CarriedState
  import opened NgramDraft

  /* ------------------------------------------------------------- what is promised */

  /** The run is over: the limit is reached or the last id is a stop id. */
  predicate Ended(out: seq<int>, gen: nat, stops: set<int>) {
    |out| == gen || Last(out, stops)
  }

  /** Serial greedy decoding with `out` already emitted after s: one id at a time until the
      run is over. */
  function SerialFrom<R, W, L>(m: Model<R, W, L>, s: seq<int>, out: seq<int>, gen: nat, stops: set<int>): (r: seq<int>)
    requires s != [] && |out| <= gen
    ensures out <= r
    decreases gen - |out|
  {
    if Ended(out, gen, stops) then out
    else SerialFrom(m, s, out + [Next(m, s + out)], gen, stops)
  }

  function Serial<R, W, L>(m: Model<R, W, L>, s: seq<int>, gen: nat, stops: set<int>): seq<int>
    requires s != []
  {
    SerialFrom(m, s, [], gen, stops)
  }

  /** Each id of `emit` is the greedy choice after everything before it. */
  ghost predicate Follows<R, W, L>(m: Model<R, W, L>, ids: seq<int>, emit: seq<int>)
    requires ids != []
  {
    var n := |emit|;
    n > 0 ==> Follows(m, ids, emit[..n - 1]) && emit[n - 1] == Next(m, ids + emit[..n - 1])
  }

  /** The last id of e is a stop id. */
  predicate Last(e: seq<int>, stops: set<int>) {
    e != [] && e[|e| - 1] in stops
  }

  /** No stop id before the last id of e. */
  ghost predicate StopsAtEnd(e: seq<int>, stops: set<int>) {
    e == [] || (StopsAtEnd(e[..|e| - 1], stops) && !Last(e[..|e| - 1], stops))
  }

  lemma NothingFollows<R, W, L>(m: Model<R, W, L>, ids: seq<int>)
    requires ids != []
    ensures Follows(m, ids, [])
  {
  }

  lemma FollowsSnoc<R, W, L>(m: Model<R, W, L>, ids: seq<int>, emit: seq<int>, id: int)
    requires ids != [] && Follows(m, ids, emit) && id == Next(m, ids + emit)
    ensures Follows(m, ids, emit + [id])
  {
    assert (emit + [id])[..|emit|] == emit;
  }

  lemma SerialStep<R, W, L>(m: Model<R, W, L>, s: seq<int>, out: seq<int>, gen: nat, stops: set<int>)
    requires s != [] && |out| <= gen && !Ended(out, gen, stops)
    ensures SerialFrom(m, s, out, gen, stops) == SerialFrom(m, s, out + [Next(m, s + out)], gen, stops)
  {
  }

  /** A run of greedy ids without a stop id before its last one is what serial decoding
      emits next. */
  lemma {:induction false} SerialEmits<R, W, L>(m: Model<R, W, L>, s: seq<int>, out: seq<int>, emit: seq<int>,
      gen: nat, stops: set<int>)
    requires s != [] && |out| + |emit| <= gen && !Last(out, stops)
    requires Follows(m, s + out, emit) && StopsAtEnd(emit, stops)
    ensures SerialFrom(m, s, out, gen, stops) == SerialFrom(m, s, out + emit, gen, stops)
  {
    hide SerialFrom, Next;
    if emit == [] {
      assert out + emit == out;
    } else {
      var e, id := emit[..|emit| - 1], emit[|emit| - 1];
      SerialEmits(m, s, out, e, gen, stops);
      LastAppend(out, e, stops);
      assert s + (out + e) == s + out + e;
      assert out + emit == (out + e) + [id];
      SerialStep(m, s, out + e, gen, stops);
    }
  }

  lemma LastAppend(a: seq<int>, b: seq<int>, stops: set<int>)
    ensures Last(a + b, stops) == if b == [] then Last(a, stops) else Last(b, stops)
  {
    if b == [] { assert a + b == a; }
  }

  lemma {:induction false} SerialFromIs<R, W, L>(m: Model<R, W, L>, s: seq<int>, out: seq<int>, gen: nat,
      stops: set<int>)
    requires s != [] && |out| <= gen && Follows(m, s, out) && StopsAtEnd(out, stops)
    ensures var r := SerialFrom(m, s, out, gen, stops);
            && |r| <= gen && Follows(m, s, r) && StopsAtEnd(r, stops) && (|r| == gen || Last(r, stops))
    decreases gen - |out|
  {
    if !Ended(out, gen, stops) {
      var e := out + [Next(m, s + out)];
      assert e[..|out|] == out;
      SerialFromIs(m, s, e, gen, stops);
    }
  }

  /** Serial decoding is the one run of greedy ids, none before the last a stop id, that has
      all the ids asked for or ends with a stop id. */
  lemma SerialIs<R, W, L>(m: Model<R, W, L>, s: seq<int>, gen: nat, stops: set<int>, r: seq<int>)
    requires s != []
    ensures r == Serial(m, s, gen, stops) <==>
            |r| <= gen && Follows(m, s, r) && StopsAtEnd(r, stops) && (|r| == gen || Last(r, stops))
  {
    SerialFromIs(m, s, [], gen, stops);
    if |r| <= gen && Follows(m, s, r) && StopsAtEnd(r, stops) && (|r| == gen || Last(r, stops)) {
      assert s + [] == s && [] + r == r;
      SerialEmits(m, s, [], r, gen, stops);
    }
  }

  lemma {:induction false} FollowsPrefix<R, W, L>(m: Model<R, W, L>, ids: seq<int>, a: seq<int>, e: seq<int>)
    requires ids != [] && Follows(m, ids, a) && e <= a
    ensures Follows(m, ids, e)
  {
    if e != a {
      FollowsPrefix(m, ids, a[..|a| - 1], e);
    }
  }

  /** The argmaxes of a batch are the greedy choices after each of its prefixes. */
  lemma BatchPredicts<R, W, L>(m: Model<R, W, L>, done: seq<int>, ids: seq<int>, logits: seq<L>, args: seq<int>, t: nat)
    requires Predicts(m, Fold(m, done), ids, logits, args) && t < |ids|
    ensures args[t] == Next(m, done + ids[..t + 1])
  {
    PredictsAt(m, Fold(m, done), ids, logits, args, t);
    FoldAppend(m, done, ids[..t]);
    assert done + ids[..t + 1] == (done + ids[..t]) + [ids[t]];
    FoldSnoc(m, done + ids[..t], ids[t]);
  }

  /* ------------------------------------------------------------------- the draft trunk */

  /** The second trunk.  Its routing depends on which experts happen to be resident, so
      nothing is assumed of what it computes: its recurrent state is known by the ids it has
      absorbed, in their order, and a forward that fails may leave anything there. */
  class Draft {
    const kvCap: nat
    const reliable: bool
    var state: seq<int>
    var cached: nat
    ghost var faults: nat

    constructor (kvCap: nat, reliable: bool)
      ensures this.kvCap == kvCap && this.reliable == reliable && faults == 0 && Behind([])
    {
      this.kvCap, this.reliable, cached, state, faults := kvCap, reliable, 0, [], 0;
    }

    /** So many positions are cached, and as long as no forward has failed the state is that of
        exactly these ids. */
    ghost predicate Behind(ids: seq<int>)
      reads this
    {
      cached == |ids| && (faults == 0 ==> state == ids)
    }

    method Forward(ids: seq<int>) returns (ok: bool, next: int)
      requires ids != [] && cached + |ids| <= kvCap
      modifies this`state, this`faults
      ensures faults == old(faults) + (if ok then 0 else 1) && (reliable ==> ok)
      ensures ok ==> state == old(state) + ids
    {
      ok, next := *, *;
      ok := ok || reliable;
      if ok {
        state := state + ids;
      } else {
        state := *;
        faults := faults + 1;
      }
    }

    /** Up to n proposals, chaining its own argmax from the pending id, the last of s; fewer
        exactly when a forward failed.  All but the last of them are absorbed. */
    method Propose(pending: int, n: nat, ghost s: seq<int>) returns (d: seq<int>)
      requires s != [] && pending == s[|s| - 1] && Behind(s[..|s| - 1]) && cached + n <= kvCap
      modifies this
      ensures |d| <= n && Behind((s + d)[..|s| - 1 + |d|])
      ensures faults == old(faults) + (if |d| == n then 0 else 1) && (reliable ==> |d| == n)
    {
      d := [];
      var prev := pending;
      assert (s + d)[..|s| - 1] == s[..|s| - 1];
      while |d| < n
        invariant |d| <= n && prev == (s + d)[|s| - 1 + |d|] && faults == old(faults)
        invariant Behind((s + d)[..|s| - 1 + |d|])
      {
        var ok, next := Forward([prev]);
        if !ok { break; }
        cached := cached + 1;
        prev := next;
        assert (s + (d + [next]))[..|s| + |d|] == (s + d)[..|s| - 1 + |d|] + [(s + d)[|s| - 1 + |d|]];
        d := d + [next];
      }
    }

    /** Bring the draft to the accepted sequence s + d[..m]. */
    method Resync(snapshot: seq<int>, s: seq<int>, d: seq<int>, m: nat) returns (ok: bool)
      requires s != [] && d != [] && m <= |d| && |s| + |d| <= kvCap
      requires Behind((s + d)[..|s| - 1 + |d|]) && (faults == 0 ==> snapshot == s[..|s| - 1])
      modifies this
      ensures faults == old(faults) + (if ok then 0 else 1) && (reliable ==> ok)
      ensures ok ==> Behind(s + d[..m])
    {
      var base := |s| - 1;
      var next;
      if m == |d| {
        assert d[..m] == d && (s + d)[..|s| - 1 + |d|] + [d[|d| - 1]] == s + d;
        ok, next := Forward([d[|d| - 1]]);
        if ok { cached := cached + 1; }
      } else {
        PendingThen(s, d[..m]);
        state := snapshot;
        cached := base;
        ok, next := Forward([s[base]] + d[..m]);
        if ok { cached := base + m + 1; }
      }
    }
  }

  /* ------------------------------------------------------------------- one step */

  /** Feed everything not yet consumed and take the argmax. */
  method FeedRest<R(!new), K(0, !new), P(0, !new), L(!new)>(w: Engine<R, K, P, L>, s: seq<int>)
    returns (ok: bool, emit: seq<int>)
    requires w.Valid() && w.cached < |s| <= w.kvCap && w.Holds(s[..w.cached])
    modifies w`ks, w`cached, w`faults, w.kvc, w.ropec
    ensures w.faults == old(w.faults) + (if ok then 0 else 1) && (w.reliable ==> ok)
    ensures w.Valid()
    ensures ok ==> w.Holds(s) && |emit| == 1 && Follows(w.m, s, emit)
  {
    hide Engine.Holds, Predicts;
    ghost var done, rest := s[..w.cached], s[w.cached..];
    assert done + rest == s && rest[..|rest| - 1 + 1] == rest;
    var args, logits;
    ok, args, logits := w.Advance(done, s[w.cached..]);
    emit := [];
    if ok {
      BatchPredicts(w.m, done, rest, logits, args, |rest| - 1);
      emit := [args[|args| - 1]];
      assert s + emit[..0] == s;
    }
  }

  /** args[t] is what the model says after the pending id and the first t proposals. */
  ghost predicate Judges<R, W, L>(m: Model<R, W, L>, s: seq<int>, d: seq<int>, args: seq<int>)
    requires s != []
  {
    |args| == |d| + 1 && forall t :: 0 <= t <= |d| ==> args[t] == Next(m, s + d[..t])
  }

  lemma BatchJudges<R, W, L>(m: Model<R, W, L>, s: seq<int>, d: seq<int>, logits: seq<L>, args: seq<int>)
    requires s != [] && Predicts(m, Fold(m, s[..|s| - 1]), [s[|s| - 1]] + d, logits, args)
    ensures Judges(m, s, d, args)
  {
    var done, batch := s[..|s| - 1], [s[|s| - 1]] + d;
    forall t | 0 <= t <= |d| ensures args[t] == Next(m, s + d[..t]) {
      BatchPredicts(m, done, batch, logits, args, t);
      assert done + batch[..t + 1] == s + d[..t];
    }
  }

  lemma PendingThen(s: seq<int>, e: seq<int>)
    requires s != []
    ensures s[..|s| - 1] + ([s[|s| - 1]] + e) == s + e
  {
  }

  lemma BatchFolds<R, W, L>(m: Model<R, W, L>, s: seq<int>, d: seq<int>)
    requires s != []
    ensures FeedAll(m, Fold(m, s[..|s| - 1]), [s[|s| - 1]] + d) == Fold(m, s + d)
  {
    FoldAppend(m, s[..|s| - 1], [s[|s| - 1]] + d);
    PendingThen(s, d);
  }

  /** The longest prefix of d the model agrees with. */
  method Accept(d: seq<int>, args: seq<int>) returns (m: nat)
    requires |args| == |d| + 1
    ensures m <= |d| && d[..m] == args[..m]
    ensures m < |d| ==> d[m] != args[m]
  {
    m := 0;
    while m < |d| && args[m] == d[m]
      invariant m <= |d| && d[..m] == args[..m]
    {
      m := m + 1;
    }
  }

  lemma {:induction false} AcceptedFollows<R, W, L>(m: Model<R, W, L>, s: seq<int>, d: seq<int>, args: seq<int>, k: nat)
    requires s != [] && Judges(m, s, d, args) && k <= |d| && d[..k] == args[..k]
    ensures Follows(m, s, d[..k] + [args[k]])
  {
    hide Follows, Next;
    NothingFollows(m, s);
    if k > 0 {
      assert d[..k - 1] == d[..k][..k - 1] && args[..k - 1] == args[..k][..k - 1];
      assert d[k - 1] == d[..k][k - 1] == args[..k][k - 1] == args[k - 1];
      AcceptedFollows(m, s, d, args, k - 1);
      TakeSnoc(d, k - 1);
    }
    FollowsSnoc(m, s, d[..k], args[k]);
  }

  /** After a sweep over the pending id and d, of which m were right: either the state already
      is the one wanted, or the recurrent part absorbed rejected ids and must be rebuilt. */
  method Settle<R(!new), K(0, !new), P(0, !new), L(!new)>(w: Engine<R, K, P, L>, snapshot: R, s: seq<int>,
      d: seq<int>, m: nat)
    returns (ok: bool)
    requires w.Valid() && s != [] && w.cached == |s| - 1 && m <= |d| && |s| + |d| <= w.kvCap
    requires Carry(snapshot, w.Rows(w.cached)) == Fold(w.m, s[..w.cached])
    requires Carry(w.ks, w.Rows(w.cached + |d| + 1)) == Fold(w.m, s + d)
    modifies w`ks, w`cached, w`faults, w.kvc, w.ropec
    ensures w.faults == old(w.faults) + (if ok then 0 else 1) && (w.reliable ==> ok)
    ensures w.Valid()
    ensures ok ==> w.Holds(s + d[..m])
  {
    if m == |d| {
      assert d[..m] == d;
      w.cached := w.cached + |d| + 1;
      ok := true;
    } else {
      PendingThen(s, d[..m]);
      ok := w.Replay(s[..w.cached], snapshot, [s[w.cached]] + d[..m]);
    }
  }

  /** Verify a batch of proposals, whoever made them: feed the pending id and all of d in one
      sweep, keep the longest prefix the model itself would have chosen, and if some of d was
      rejected restore the recurrent snapshot and replay only that prefix. */
  method Verify<R(!new), K(0, !new), P(0, !new), L(!new)>(w: Engine<R, K, P, L>, s: seq<int>, d: seq<int>)
    returns (ok: bool, m: nat, next: int)
    requires w.Valid() && s != [] && w.Holds(s[..|s| - 1]) && d != [] && |s| + |d| <= w.kvCap
    modifies w`ks, w`cached, w`faults, w.kvc, w.ropec
    ensures w.faults == old(w.faults) + (if ok then 0 else 1) && (w.reliable ==> ok)
    ensures w.Valid() && m <= |d|
    ensures ok ==> w.Holds(s + d[..m]) && Follows(w.m, s, d[..m] + [next])
    ensures ok && m < |d| ==> d[m] != next
  {
    var snapshot := w.ks;
    m, next := 0, 0;
    BatchFolds(w.m, s, d);
    var args, logits;
    ok, args, logits := w.Forward([s[w.cached]] + d);
    if ok {
      BatchJudges(w.m, s, d, logits, args);
      m := Accept(d, args);
      next := args[m];
      AcceptedFollows(w.m, s, d, args, m);
      ok := Settle(w, snapshot, s, d, m);
    }
  }

  /** Put proposals behind the T ids of the sequence; nothing else reads them there. */
  method WriteBehind(buf: array<int>, T: nat, d: seq<int>)
    requires T + |d| <= buf.Length
    modifies buf
    ensures buf[..T] == old(buf[..T]) && buf[T..T + |d|] == d
  {
    for i := 0 to |d|
      invariant buf[..T] == old(buf[..T]) && buf[T..T + i] == d[..i]
    {
      buf[T + i] := d[i];
      assert buf[T..T + i + 1] == buf[T..T + i] + [d[i]];
      TakeSnoc(d, i);
    }
    assert d[..|d|] == d;
  }

  /** Ask a drafter for at most specN ids, if a whole batch is sure to fit both the limit and
      the KV cache.  The draft trunk's buffers are snapshotted first. */
  method Proposals(draft: Draft?, specN: nat, s: seq<int>, tmax: nat, kvCap: nat)
    returns (d: seq<int>, snapshot: seq<int>)
    requires s != [] && (draft != null ==> draft.Behind(s[..|s| - 1]) && draft.kvCap == kvCap)
    modifies draft
    ensures |d| <= specN
    ensures d != [] ==> |s| + |d| + 1 < tmax && |s| + |d| <= kvCap
    ensures if specN > 0 && |s| + specN + 1 < tmax && |s| + specN <= kvCap then
              if draft == null then SpecDrafts(s, specN, d)
              else snapshot == old(draft.state) && draft.faults == old(draft.faults) + (if |d| == specN then 0 else 1)
            else d == []
    ensures draft != null ==> draft.Behind((s + d)[..|s| - 1 + |d|])
    ensures draft != null ==>
              draft.faults >= old(draft.faults) && (draft.reliable ==> draft.faults == old(draft.faults))
  {
    d, snapshot := [], [];
    assert (s + d)[..|s| - 1] == s[..|s| - 1];
    if specN > 0 && |s| + specN + 1 < tmax && |s| - 1 + specN + 1 <= kvCap {
      if draft != null {
        snapshot := draft.state;
        d := draft.Propose(s[|s| - 1], specN, s);
      } else {
        d := SpecDraft(s, specN);
      }
    }
  }

  ghost function DraftFaults(draft: Draft?): nat
    reads draft
  {
    if draft == null then 0 else draft.faults
  }

  /** A step fails only if a forward did; it does fail if one of the engine's did, and on
      reliable machines none does. */
  ghost predicate Faultless<R(!new), K(0, !new), P(0, !new), L(!new)>(w: Engine<R, K, P, L>, draft: Draft?, was: nat,
      draftWas: nat, ok: bool)
    reads w, draft
  {
    && w.faults >= was && DraftFaults(draft) >= draftWas
    && (ok ==> w.faults == was) && (!ok ==> w.faults > was || DraftFaults(draft) > draftWas)
    && (w.reliable ==> w.faults == was) && (draft != null && draft.reliable ==> draft.faults == draftWas)
  }

  method VerifyStep<R(!new), K(0, !new), P(0, !new), L(!new)>(w: Engine<R, K, P, L>, draft: Draft?, snapshot: seq<int>,
      s: seq<int>, d: seq<int>)
    returns (ok: bool, emit: seq<int>)
    requires w.Valid() && s != [] && d != [] && |s| + |d| <= w.kvCap && w.Holds(s[..|s| - 1])
    requires draft != null ==> draft.kvCap == w.kvCap && draft.Behind((s + d)[..|s| - 1 + |d|])
    requires draft != null ==> draft.faults == 0 ==> snapshot == s[..|s| - 1]
    modifies w`ks, w`cached, w`faults, w.kvc, w.ropec, draft
    ensures Faultless(w, draft, old(w.faults), old(DraftFaults(draft)), ok)
    ensures w.Valid()
    ensures ok ==> 1 <= |emit| <= |d| + 1 && Follows(w.m, s, emit) && w.Holds(s + emit[..|emit| - 1])
    ensures ok && draft != null ==> draft.Behind(s + emit[..|emit| - 1])
  {
    var m, next;
    ok, m, next := Verify(w, s, d);
    emit := d[..m] + [next];
    assert emit[..|emit| - 1] == d[..m];
    if ok && draft != null { ok := draft.Resync(snapshot, s, d, m); }
  }

  method PlainStep<R(!new), K(0, !new), P(0, !new), L(!new)>(w: Engine<R, K, P, L>, draft: Draft?, s: seq<int>)
    returns (ok: bool, emit: seq<int>)
    requires w.Valid() && 0 < |s| <= w.kvCap && w.Holds(s[..|s| - 1])
    requires draft != null ==> draft.Behind(s[..|s| - 1]) && draft.kvCap == w.kvCap
    modifies w`ks, w`cached, w`faults, w.kvc, w.ropec, draft
    ensures Faultless(w, draft, old(w.faults), old(DraftFaults(draft)), ok)
    ensures w.Valid()
    ensures ok ==> |emit| == 1 && Follows(w.m, s, emit) && w.Holds(s + emit[..|emit| - 1])
    ensures ok && draft != null ==> draft.Behind(s + emit[..|emit| - 1])
  {
    ok, emit := FeedRest(w, s);
    if ok {
      assert s + emit[..|emit| - 1] == s;
      if draft != null {
        var next;
        assert s[..|s| - 1] + [s[|s| - 1]] == s;
        ok, next := draft.Forward([s[|s| - 1]]);
        if ok { draft.cached := |s|; }
      }
    }
  }

  /** Serial or speculative step, once the prompt is in: propose, then verify or feed one id. */
  method NextStep<R(!new), K(0, !new), P(0, !new), L(!new)>(w: Engine<R, K, P, L>, draft: Draft?, specN: nat,
      buf: array<int>, T: nat, tmax: nat)
    returns (ok: bool, emit: seq<int>)
    requires w.Valid() && 0 < T < tmax <= w.kvCap && tmax <= buf.Length
    requires buf as object != w.kvc as object && buf as object != w.ropec as object
    requires w.Holds(buf[..T - 1])
    requires draft != null ==> draft.Behind(buf[..T - 1]) && draft.kvCap == w.kvCap
    modifies w`ks, w`cached, w`faults, w.kvc, w.ropec, draft, buf
    ensures Faultless(w, draft, old(w.faults), old(DraftFaults(draft)), ok)
    ensures w.Valid() && buf[..T] == old(buf[..T])
    ensures ok ==> emit != [] && Follows(w.m, buf[..T], emit) && w.Holds(buf[..T] + emit[..|emit| - 1])
    ensures ok ==> |emit| <= specN + 1 && (|emit| == 1 || T + |emit| < tmax)
    ensures ok && draft != null ==> draft.Behind(buf[..T] + emit[..|emit| - 1])
  {
    hide Follows, SpecDrafts;
    var s := buf[..T];
    assert s[..T - 1] == buf[..T - 1];
    var d, snapshot := Proposals(draft, specN, s, tmax, w.kvCap);
    if d != [] {
      WriteBehind(buf, T, d);
      ok, emit := VerifyStep(w, draft, snapshot, s, d);
    } else {
      ok, emit := PlainStep(w, draft, s);
    }
  }

  /** Append what a step emitted, up to the limit, the buffer, or a stop id; e is the part of
      emit that was taken. */
  method Append(buf: array<int>, T0: nat, out0: seq<int>, emit: seq<int>, gen: nat, tmax: nat, stops: set<int>)
    returns (T: nat, out: seq<int>, hit: bool, ghost e: seq<int>)
    requires T0 <= tmax <= buf.Length && |out0| <= gen
    modifies buf
    ensures e <= emit && T == T0 + |e| <= tmax && out == out0 + e && |out| <= gen
    ensures buf[..T] == old(buf[..T0]) + e
    ensures StopsAtEnd(e, stops) && (hit <==> Last(e, stops))
    ensures !hit ==> e == emit || |out| == gen || T == tmax
  {
    T, out, hit, e := T0, out0, false, [];
    var i := 0;
    while i < |emit| && |out| < gen && T < tmax
      invariant |e| == i <= |emit| && e == emit[..i] && T == T0 + |e| <= tmax && out == out0 + e && |out| <= gen
      invariant buf[..T] == old(buf[..T0]) + e
      invariant StopsAtEnd(e, stops) && !Last(e, stops)
      invariant !hit
    {
      ghost var before := buf[..T];
      buf[T] := emit[i];
      TakeSnoc(emit, i);
      assert buf[..T + 1] == before + [emit[i]];
      assert (e + [emit[i]])[..|e|] == e;
      T, out, e := T + 1, out + [emit[i]], e + [emit[i]];
      if emit[i] in stops { hit := true; return; }
      i := i + 1;
    }
    assert emit[..|emit|] == emit;
  }

  /* ------------------------------------------------------------------- the loop */

  datatype Ending = Complete | Interrupted | Failed

  /** How far the carried state may be from the sequence: fed is a prefix of it, except that a
      stop id inside a verified batch, which is never the first step, leaves the stop and the
      ids behind it in the state as well. */
  ghost predicate Carries(start: seq<int>, out: seq<int>, fed: seq<int>, gen: nat, stops: set<int>) {
    if gen == 0 then fed == start
    else
      && |fed| + 1 >= |start + out|
      && (if |fed| < |start + out| then fed == (start + out)[..|fed|] else start + out <= fed)
      && (|fed| >= |start + out| ==> Last(out, stops) && |out| >= 2)
  }

  /** Serial decoding would go on from exactly here. */
  ghost predicate Running<R, W, L>(m: Model<R, W, L>, start: seq<int>, out: seq<int>, gen: nat, stops: set<int>)
    requires start != []
  {
    && |out| <= gen
    && !Last(out, stops)
    && SerialFrom(m, start, out, gen, stops) == Serial(m, start, gen, stops)
  }

  /** Appending the prefix e of a greedy step: the run goes on, or it is over and complete. */
  lemma RunningAppend<R, W, L>(m: Model<R, W, L>, start: seq<int>, out: seq<int>, emit: seq<int>, e: seq<int>,
      gen: nat, stops: set<int>)
    requires start != [] && Running(m, start, out, gen, stops) && Follows(m, start + out, emit)
    requires e <= emit && |out| + |e| <= gen && StopsAtEnd(e, stops)
    ensures if Last(e, stops) then out + e == Serial(m, start, gen, stops)
            else Running(m, start, out + e, gen, stops)
  {
    FollowsPrefix(m, start + out, emit, e);
    SerialEmits(m, start, out, e, gen, stops);
    LastAppend(out, e, stops);
  }

  /** What is fed at the top of the loop, before the first step or after others. */
  ghost predicate Fed(start: seq<int>, out: seq<int>, fed: seq<int>, first: bool, gen: nat) {
    if first then out == [] && |fed| < |start| && fed == start[..|fed|]
    else if gen == 0 then fed == start
    else out != [] && fed == (start + out)[..|start + out| - 1]
  }

  /** One pass of the loop up to the append: prefill, next step, or full recompute. */
  method OneStep<R(!new), K(0, !new), P(0, !new), L(!new)>(w: Engine<R, K, P, L>, draft: Draft?, specN: nat,
      buf: array<int>, T: nat, tmax: nat, first: bool, incremental: bool)
    returns (ok: bool, emit: seq<int>)
    requires w.Valid() && 0 < T < tmax <= w.kvCap && tmax <= buf.Length
    requires buf as object != w.kvc as object && buf as object != w.ropec as object
    requires incremental ==> w.cached < T && w.Holds(buf[..w.cached]) && (!first ==> w.cached == T - 1)
    requires draft != null ==> incremental && draft.kvCap == w.kvCap
    requires draft != null ==> draft.Behind(if first then [] else buf[..T - 1])
    modifies w`ks, w`cached, w`faults, w.kvc, w.ropec, draft, buf
    ensures Faultless(w, draft, old(w.faults), old(DraftFaults(draft)), ok)
    ensures w.Valid() && buf[..T] == old(buf[..T])
    ensures ok ==> emit != [] && Follows(w.m, buf[..T], emit)
    ensures ok ==> |emit| == 1 || (|emit| <= specN + 1 && !first && incremental && T + |emit| < tmax)
    ensures ok && incremental ==> w.Holds(buf[..T] + emit[..|emit| - 1])
    ensures ok && draft != null ==> draft.Behind(buf[..T] + emit[..|emit| - 1])
  {
    var s := buf[..T];
    if incremental && first {
      assert s[..w.cached] == buf[..w.cached];
      ok, emit := FeedRest(w, s);
      if ok {
        assert s + emit[..|emit| - 1] == s;
        if draft != null {
          var next;
          ok, next := draft.Forward(s);
          if ok { draft.cached := T; }
        }
      }
    } else if incremental {
      ok, emit := NextStep(w, draft, specN, buf, T, tmax);
    } else {
      var next;
      ok, next := w.ForwardFull(s);
      emit := [next];
      assert s + emit[..0] == s;
    }
  }

  /** The state at the top of the loop. */
  ghost predicate AtTop<R(!new), K(0, !new), P(0, !new), L(!new)>(w: Engine<R, K, P, L>, draft: Draft?, buf: array<int>,
      start: seq<int>, out: seq<int>, fed: seq<int>, first: bool, gen: nat, stops: set<int>, incremental: bool)
    reads w, w.kvc, w.ropec, draft, buf
  {
    && w.Valid() && start != []
    && buf as object != w.kvc as object && buf as object != w.ropec as object
    && |start| + gen + 1 <= w.kvCap && |start| + gen + 1 <= buf.Length
    && Running(w.m, start, out, gen, stops)
    && buf[..|start| + |out|] == start + out
    && (incremental ==> w.Holds(fed) && Fed(start, out, fed, first, gen))
    && (draft != null ==> incremental && draft.kvCap == w.kvCap && draft.Behind(if first then [] else fed))
  }

  /** What is fed once the prefix e of a step's ids has been appended. */
  lemma FedAfter(start: seq<int>, out0: seq<int>, emit: seq<int>, e: seq<int>, gen: nat, stops: set<int>)
    requires start != [] && emit != [] && e <= emit
    requires if gen == 0 then out0 == [] && |emit| == 1 && e == [] else e != [] && (e != emit ==> Last(e, stops))
    requires |emit| > 1 ==> out0 != []
    ensures var out, fed := out0 + e, start + out0 + emit[..|emit| - 1];
            if Last(e, stops) then Carries(start, out, fed, gen, stops) && (|emit| == 1 ==> |fed| == |start + out| - 1)
            else Fed(start, out, fed, false, gen)
  {
    var out, fed := out0 + e, start + out0 + emit[..|emit| - 1];
    assert start + out == start + out0 + e;
    if gen == 0 {
      assert fed == start;
    } else if e == emit {
      assert fed == (start + out)[..|fed|];
    } else {
      assert e <= emit[..|emit| - 1];
      LastAppend(out0, e, stops);
    }
  }

  lemma AfterAppend<R, W, L>(m: Model<R, W, L>, start: seq<int>, out0: seq<int>, emit: seq<int>, e: seq<int>,
                             out: seq<int>, fed: seq<int>, gen: nat, stops: set<int>)
    requires start != [] && Running(m, start, out0, gen, stops) && Follows(m, start + out0, emit)
    requires emit != [] && e <= emit && |out0| + |e| <= gen && StopsAtEnd(e, stops)
    requires if gen == 0 then |emit| == 1 else e != [] && (e != emit ==> Last(e, stops))
    requires |emit| > 1 ==> out0 != []
    requires out == out0 + e && fed == start + out0 + emit[..|emit| - 1]
    ensures start + out0 + e == start + out
    ensures if Last(e, stops) then
              && out == Serial(m, start, gen, stops) && Carries(start, out, fed, gen, stops)
              && (|emit| == 1 ==> |fed| == |start + out| - 1)
            else Running(m, start, out, gen, stops) && Fed(start, out, fed, false, gen)
  {
    AppendAssoc(start, out0, e);
    RunningAppend(m, start, out0, emit, e, gen, stops);
    FedAfter(start, out0, emit, e, gen, stops);
  }

  lemma BackAtTop<R(!new), K(0, !new), P(0, !new), L(!new)>(w: Engine<R, K, P, L>, draft: Draft?, buf: array<int>,
      start: seq<int>, out: seq<int>, fed: seq<int>, gen: nat, stops: set<int>, incremental: bool)
    requires w.Valid() && start != [] && |start| + gen + 1 <= w.kvCap && |start| + gen + 1 <= buf.Length
    requires buf as object != w.kvc as object && buf as object != w.ropec as object
    requires Running(w.m, start, out, gen, stops) && buf[..|start| + |out|] == start + out
    requires incremental ==> w.Holds(fed) && Fed(start, out, fed, false, gen)
    requires draft != null ==> incremental && draft.kvCap == w.kvCap && draft.Behind(fed)
    ensures AtTop(w, draft, buf, start, out, fed, false, gen, stops, incremental)
  {
  }

  lemma AppendAssoc(a: seq<int>, b: seq<int>, c: seq<int>)
    ensures a + b + c == a + (b + c)
  {
  }

  lemma FedIsPrefix(start: seq<int>, out: seq<int>, fed: seq<int>, first: bool, gen: nat)
    ensures Fed(start, out, fed, first, gen) ==> fed == (start + out)[..|fed|]
  {
  }

  method StepAtTop<R(!new), K(0, !new), P(0, !new), L(!new)>(w: Engine<R, K, P, L>, draft: Draft?, specN: nat,
      buf: array<int>,
      start: seq<int>, out: seq<int>, ghost fed: seq<int>, first: bool, gen: nat, stops: set<int>, incremental: bool)
    returns (ok: bool, emit: seq<int>)
    requires AtTop(w, draft, buf, start, out, fed, first, gen, stops, incremental)
    requires |out| < gen || (incremental && first)
    modifies w`ks, w`cached, w`faults, w.kvc, w.ropec, draft, buf
    ensures Faultless(w, draft, old(w.faults), old(DraftFaults(draft)), ok)
    ensures w.Valid() && buf[..|start| + |out|] == start + out
    ensures ok ==> emit != [] && Follows(w.m, start + out, emit)
    ensures ok ==> |emit| == 1 || (out != [] && |out| + |emit| <= gen)
    ensures ok ==> |emit| <= specN + 1
    ensures ok && (specN == 0 || first) ==> |emit| == 1
    ensures ok && incremental ==> w.Holds(start + out + emit[..|emit| - 1])
    ensures ok && draft != null ==> draft.Behind(start + out + emit[..|emit| - 1])
  {
    hide SerialFrom, Serial, Follows;
    FedIsPrefix(start, out, fed, first, gen);
    assert incremental ==> buf[..w.cached] == buf[..|start| + |out|][..w.cached];
    ok, emit := OneStep(w, draft, specN, buf, |start| + |out|, |start| + gen + 1, first, incremental);
  }

  /** One pass of the loop.  It fails, or ends the run at a stop id, or is back at the top
      with at least one more id emitted (none when only the prefill was asked for). */
  method Pass<R(!new), K(0, !new), P(0, !new), L(!new)>(w: Engine<R, K, P, L>, draft: Draft?, specN: nat,
      buf: array<int>,
      start: seq<int>, out0: seq<int>, ghost fed0: seq<int>, first: bool, gen: nat, stops: set<int>, incremental: bool)
    returns (ok: bool, hit: bool, out: seq<int>, ghost fed: seq<int>)
    requires AtTop(w, draft, buf, start, out0, fed0, first, gen, stops, incremental)
    requires |out0| < gen || (incremental && first)
    modifies w`ks, w`cached, w`faults, w.kvc, w.ropec, draft, buf
    ensures Faultless(w, draft, old(w.faults), old(DraftFaults(draft)), ok)
    ensures w.Valid()
    ensures ok && incremental ==> w.Holds(fed)
    ensures ok && hit ==> gen > 0 && out == Serial(w.m, start, gen, stops) && Carries(start, out, fed, gen, stops)
    ensures ok && hit && (specN == 0 || first) ==> |fed| == |start + out| - 1
    ensures ok && !hit ==> AtTop(w, draft, buf, start, out, fed, false, gen, stops, incremental)
    ensures ok && draft != null ==> draft.Behind(fed)
    ensures ok && !hit && gen > 0 ==> |out| > |out0|
    ensures if ok then |out| <= |out0| + specN + 1 else out == out0
  {
    hide Engine.Holds, SerialFrom, Serial, Follows, Carries, Faultless, Running;
    var emit;
    out, hit, fed := out0, false, fed0;
    AtTopMeans(w, draft, buf, start, out0, fed0, first, gen, stops, incremental);
    ok, emit := StepAtTop(w, draft, specN, buf, start, out0, fed0, first, gen, stops, incremental);
    if ok {
      var T; ghost var e;
      T, out, hit, e := Append(buf, |start| + |out0|, out0, emit, gen, |start| + gen + 1, stops);
      fed := start + out0 + emit[..|emit| - 1];
      AfterAppend(w.m, start, out0, emit, e, out, fed, gen, stops);
      if !hit { BackAtTop(w, draft, buf, start, out, fed, gen, stops, incremental); }
    }
  }

  /** How many proposals a pass may take: none unless drafting is asked for or there is a draft
      trunk, which takes four by default. */
  function MostDrafts(spec: nat, trunk: bool): nat {
    if spec > SPEC_MAX then SPEC_MAX else if spec == 0 && trunk then 4 else spec
  }

  /** What so many passes can emit. */
  function MostIds(passes: nat, spec: nat, trunk: bool): nat {
    passes * (MostDrafts(spec, trunk) + 1)
  }

  lemma OneMorePass(passes: nat, spec: nat, trunk: bool)
    ensures MostIds(0, spec, trunk) == 0
    ensures MostIds(passes + 1, spec, trunk) == MostIds(passes, spec, trunk) + MostDrafts(spec, trunk) + 1
  {
  }

  /** The whole run.  `start` is the restored history plus the prompt, of which the engine
      already holds the first `cached` ids; `cancel` says whether the signal has come by the top
      of each pass.  Whatever the drafter proposes, the ids emitted are those of serial greedy
      decoding, and all of them unless the run was interrupted, which takes a signal, or failed,
      which takes a forward that did. */
  method Generate<R(!new), K(0, !new), P(0, !new), L(!new)>(w: Engine<R, K, P, L>, draft: Draft?, spec: nat,
      start: seq<int>, gen: nat, stops: set<int>, incremental: bool, cancel: nat -> bool)
    returns (ending: Ending, out: seq<int>, ghost fed: seq<int>, ghost passes: nat)
    requires w.Valid() && w.cached < |start| && w.Holds(start[..w.cached])
    requires |start| + gen + 1 <= w.kvCap
    requires draft != null ==> incremental && draft.Behind([]) && draft.kvCap == w.kvCap
    modifies w`ks, w`cached, w`faults, w.kvc, w.ropec, draft
    ensures w.Valid()
    ensures out <= Serial(w.m, start, gen, stops)
    ensures ending.Complete? ==> out == Serial(w.m, start, gen, stops)
    ensures incremental && !ending.Failed? ==> w.Holds(fed)
    ensures incremental && ending.Complete? ==> Carries(start, out, fed, gen, stops)
    ensures incremental && ending.Complete? && spec == 0 && draft == null && gen > 0 ==> |fed| == |start + out| - 1
    ensures incremental && ending.Interrupted? ==> fed <= start + out
    ensures draft != null && !ending.Failed? && passes > 0 ==> draft.Behind(fed)
    ensures Faultless(w, draft, old(w.faults), old(DraftFaults(draft)), !ending.Failed?)
    ensures (forall i :: 0 <= i < passes ==> !cancel(i)) && (ending.Interrupted? ==> cancel(passes))
    ensures |out| <= MostIds(passes, spec, draft != null)
  {
    hide AtTop, SerialFrom, Serial, Follows, Carries, Engine.Holds, MostIds;
    var specN := if spec > SPEC_MAX then SPEC_MAX else spec;
    if draft != null && specN == 0 { specN := 4; }
    var buf := new int[|start| + gen + 8];
    WriteBehind(buf, 0, start);
    assert buf[0..|start|] == buf[..|start|] == start + [];
    out, ending, passes := [], Complete, 0;
    fed := start[..w.cached];
    var first, i := true, 0;
    OneMorePass(0, spec, draft != null);
    TopAtFirst(w, draft, buf, start, fed, gen, stops, incremental);
    while |out| < gen || (incremental && first)
      invariant fresh(buf) && AtTop(w, draft, buf, start, out, fed, first, gen, stops, incremental)
      invariant Faultless(w, draft, old(w.faults), old(DraftFaults(draft)), true)
      invariant first == (passes == 0) && (draft != null && passes > 0 ==> draft.Behind(fed))
      invariant i == passes && (forall j :: 0 <= j < passes ==> !cancel(j))
      invariant |out| <= MostIds(passes, spec, draft != null)
      decreases gen - |out| + (if first then 1 else 0)
    {
      AtTopMeans(w, draft, buf, start, out, fed, first, gen, stops, incremental);
      if cancel(i) { ending := Interrupted; return; }
      OneMorePass(passes, spec, draft != null);
      i, passes := i + 1, passes + 1;
      var ok, hit;
      ok, hit, out, fed := Pass(w, draft, specN, buf, start, out, fed, first, gen, stops, incremental);
      if !ok { ending := Failed; return; }
      if hit { return; }
      first := false;
    }
    AtTopMeans(w, draft, buf, start, out, fed, first, gen, stops, incremental);
  }

  lemma TopAtFirst<R(!new), K(0, !new), P(0, !new), L(!new)>(w: Engine<R, K, P, L>, draft: Draft?, buf: array<int>,
      start: seq<int>, fed: seq<int>, gen: nat, stops: set<int>, incremental: bool)
    requires w.Valid() && w.cached < |start| && w.Holds(fed) && fed == start[..w.cached]
    requires buf as object != w.kvc as object && buf as object != w.ropec as object
    requires |start| + gen + 1 <= w.kvCap && |start| + gen + 1 <= buf.Length && buf[..|start|] == start
    requires draft != null ==> incremental && draft.Behind([]) && draft.kvCap == w.kvCap
    ensures AtTop(w, draft, buf, start, [], fed, true, gen, stops, incremental)
  {
    hide SerialFrom;
    assert start + [] == start;
  }

  /** At the top of the loop what was emitted is the beginning of the serial run, and all of it
      when the loop has nothing left to do. */
  lemma AtTopMeans<R(!new), K(0, !new), P(0, !new), L(!new)>(w: Engine<R, K, P, L>, draft: Draft?, buf: array<int>,
      start: seq<int>, out: seq<int>, fed: seq<int>, first: bool, gen: nat, stops: set<int>, incremental: bool)
    requires AtTop(w, draft, buf, start, out, fed, first, gen, stops, incremental)
    ensures w.Valid() && start != [] && |out| <= gen && out <= Serial(w.m, start, gen, stops)
    ensures incremental ==> w.Holds(fed) && fed <= start + out
    ensures |out| == gen ==> out == Serial(w.m, start, gen, stops)
    ensures |out| == gen && incremental && !first ==> Carries(start, out, fed, gen, stops) && (gen > 0 ==>
            |fed| == |start + out| - 1)
  {
    hide Engine.Holds;
    FedIsPrefix(start, out, fed, first, gen);
    assert start + [] == start;
  }
}
