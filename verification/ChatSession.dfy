/** The chat REPL's reuse of the state a previous turn built (src/chat/k3_prefix.h and chat_run
    in src/cli/k3_run.c).  Reuse must never change what a turn samples. */
module ChatSession {
  import opened CarriedState
  import opened Common
  import opened Decode

  /* ------------------------------------------------------------- the prefix record */

  /** Which ids the carried state was built from, recorded where they are fed. */
  class Prefix {
    var fed: array?<int>
    var len: nat
    var cap: nat
    var tainted: bool

    ghost predicate Valid()
      reads this
    {
      if fed == null then len == 0 else len <= cap == fed.Length
    }

    ghost function Ids(): (r: seq<int>)
      requires Valid()
      reads this, fed
      ensures |r| == len
    {
      if fed == null then [] else fed[..len]
    }

    constructor ()
      ensures Valid() && fed == null && len == 0 && !tainted
    {
      fed, len, cap, tainted := null, 0, 0, false;
    }

    /** Without memory, reuse is simply disabled. */
    method Alloc(want: nat, granted: bool) returns (ok: bool)
      modifies this
      ensures Valid() && len == 0 && !tainted && (fed == null || fresh(fed))
      ensures (ok <==> granted && want > 0) && (ok <==> fed != null) && (ok ==> cap == want)
    {
      fed, cap := null, 0;
      if granted && want > 0 {
        var buf := new int[want](_ => 0);
        fed, cap := buf, want;
      }
      ok := fed != null;
      len, tainted := 0, false;
    }

    method Clear()
      requires Valid()
      modifies this`len, this`tainted
      ensures Valid() && len == 0 && !tainted
    {
      len, tainted := 0, false;
    }

    /** Grow keeping at most `keep` positions; when that fails the record is dropped, not stale. */
    method Grow(want: nat, keep: nat, granted: bool) returns (ok: bool)
      requires Valid()
      modifies this
      ensures ok <==> want > 0 && granted
      ensures Valid() && (fed == old(fed) || fed == null || fresh(fed))
      ensures want == 0 ==> !ok && unchanged(this)
      ensures want > 0 ==> Ids() == if ok then old(Ids())[..Least(keep, old(len), want)] else []
      ensures ok ==> tainted == old(tainted) && cap == want && fed != null
      ensures want > 0 && !ok ==> fed == null && !tainted
    {
      ok := false;
      if want == 0 { return; }
      ok := granted;
      if !ok {
        fed, cap, len, tainted := null, 0, 0, false;
        return;
      }
      var grown := new int[want](_ => 0);
      var k := Least(keep, len, want);
      if fed != null { WriteRun(grown, 0, fed[..k]); }
      assert fed != null ==> grown[..k] == fed[..len][..k];
      fed, cap, len := grown, want, k;
    }

    /** Record ids at positions pos0...  A write out of range, or one that skips positions,
        drops the record; one that starts below the end overwrites and keeps any longer tail. */
    method Record(ids: seq<int>, pos0: nat)
      requires Valid()
      modifies this`len, fed
      ensures Valid()
      ensures Ids() == if fed == null || ids == [] then old(Ids())
                       else if pos0 + |ids| > cap || pos0 > old(len) then []
                       else old(Ids())[..pos0] + ids + (if pos0 + |ids| > old(len) then []
                         else old(Ids())[pos0 + |ids|..])
    {
      if fed == null || |ids| == 0 { return; }
      if pos0 + |ids| > cap || pos0 > len { len := 0; return; }
      WriteRun(fed, pos0, ids);
      if pos0 + |ids| > len { len := pos0 + |ids|; }
    }

    /** The record stays what it was, but Reuse will not use it again. */
    method Taint()
      requires Valid()
      modifies this`tainted
      ensures Valid() && tainted && Ids() == old(Ids())
    {
      tainted := true;
    }

    /** All of the record or nothing: it must be untainted, non-empty, and a proper prefix. */
    method Reuse(ids: seq<int>) returns (n: nat)
      requires Valid()
      ensures n == if !tainted && 0 < len < |ids| && Ids() <= ids then len else 0
    {
      n := 0;
      if fed != null && !tainted && len > 0 && len < |ids| {
        if fed[..len] == ids[..len] { n := len; }
      }
    }
  }

  function Least(a: nat, b: nat, c: nat): (r: nat)
    ensures r <= a && r <= b && r <= c && (r == a || r == b || r == c)
  {
    var m := if a < b then a else b;
    if m < c then m else c
  }

  /* -------------------------------------------------------------- what a turn means */

  /** A deterministic sampler: its state comes from the seed and the turn number, and it may fail. */
  datatype Sampler<!S, !L> = Sampler(init: nat -> S, next: (S, L) -> Option<(S, int)>)

  /** The ids of one turn as a session that always starts from nothing samples them: after
      s + out, until the limit or an end id; None when the sampler failed. */
  function TurnFrom<R, W, L, S>(m: Model<R, W, L>, sam: Sampler<S, L>, s: seq<int>, out: seq<int>, st: S, gen: nat,
      ends: set<int>)
    : Option<seq<int>>
    requires s != [] && |out| <= gen
    decreases gen - |out|
  {
    if Ended(out, gen, ends) then Some(out)
    else match sam.next(st, Logits(m, s + out))
      case None => None
      case Some(r) => TurnFrom(m, sam, s, out + [r.1], r.0, gen, ends)
  }

  function TurnIds<R, W, L, S>(m: Model<R, W, L>, sam: Sampler<S, L>, prompt: seq<int>, turn: nat, gen: nat,
      ends: set<int>)
    : Option<seq<int>>
    requires prompt != []
  {
    TurnFrom(m, sam, prompt, [], sam.init(turn + 1), gen, ends)
  }

  /** A whole session that prefills every turn from nothing, starting after `turn0` assistant
      turns.  `prompts` is everything between the turns -- rendering, the user's lines, /reset,
      the end of input -- and sees only what was sampled so far. */
  function SessionIds<R, W, L, S>(m: Model<R, W, L>, sam: Sampler<S, L>, prompts: seq<seq<int>> -> Option<seq<int>>,
      turn0: nat, outs: seq<seq<int>>, gen: nat, ends: set<int>, turns: nat): seq<seq<int>>
    decreases turns
  {
    if turns == 0 then outs
    else match prompts(outs)
      case None => outs
      case Some(prompt) =>
        if prompt == [] then outs
        else match TurnIds(m, sam, prompt, turn0 + |outs|, gen, ends)
          case None => outs
          case Some(out) =>
            if Last(out, ends) then SessionIds(m, sam, prompts, turn0, outs + [out], gen, ends, turns - 1) else outs
  }

  /* ------------------------------------------------------------------ the protocol */

  ghost predicate Apart<R(!new), K(0, !new), P(0, !new), L(!new)>(w: Engine<R, K, P, L>, pf: Prefix)
    reads w, pf
  {
    w.Valid() && pf.Valid() && (pf.fed != null ==>
      pf.fed as object != w.kvc as object && pf.fed as object != w.ropec as object)
  }

  /** A record that is not empty has the length of the state; if it is not tainted either, the
      state is the fold of its ids. */
  ghost predicate Coherent<R(!new), K(0, !new), P(0, !new), L(!new)>(w: Engine<R, K, P, L>, pf: Prefix)
    reads w, w.kvc, w.ropec, pf, pf.fed
  {
    && Apart(w, pf)
    && (pf.len > 0 ==> pf.len == w.cached && (!pf.tainted ==> w.Holds(pf.Ids())))
  }

  /** During a turn: the state is that of `done`, and so is the record unless it was dropped. */
  ghost predicate Tracks<R(!new), K(0, !new), P(0, !new), L(!new)>(w: Engine<R, K, P, L>, pf: Prefix, done: seq<int>)
    reads w, w.kvc, w.ropec, pf, pf.fed
  {
    Apart(w, pf) && w.Holds(done) && (pf.len > 0 ==> pf.Ids() == done)
  }

  /** Grow the KV cache, then the record, to what this turn needs. */
  method Resize<R(!new), K(0, !new), P(0, !new), L(!new)>(w: Engine<R, K, P, L>, pf: Prefix, need: nat)
      returns (ok: bool)
    requires Coherent(w, pf)
    modifies w`kvc, w`ropec, w`kvCap, w`faults, pf
    ensures w.faults == old(w.faults) + (if ok then 0 else 1) && (w.reliable ==> ok)
    ensures Coherent(w, pf) && (ok ==> need <= w.kvCap)
    ensures w.reliable ==> pf.Ids() == old(pf.Ids()) && pf.tainted == old(pf.tainted)
    ensures !ok || need <= old(w.kvCap) ==> unchanged(pf) && pf.Ids() == old(pf.Ids())
    ensures ok && old(w.kvCap) < need ==> (pf.fed == null || pf.cap == need) && (w.reliable ==> pf.fed != null)
    ensures w.kvc == old(w.kvc) || fresh(w.kvc)
    ensures w.ropec == old(w.ropec) || fresh(w.ropec)
    ensures pf.fed == old(pf.fed) || pf.fed == null || fresh(pf.fed)
  {
    if need <= w.kvCap { return true; }
    ghost var ids := pf.Ids();
    ok := w.Grow(need);
    if ok {
      var granted: bool := *;
      var kept := pf.Grow(need, w.cached, granted || w.reliable);
      assert kept && pf.len > 0 ==> pf.Ids() == ids[..pf.len] == ids;
    }
  }

  /** Start from the recorded state if the prompt begins with it, and from nothing otherwise. */
  method Begin<R(!new), K(0, !new), P(0, !new), L(!new)>(w: Engine<R, K, P, L>, pf: Prefix, prompt: seq<int>)
      returns (base: nat)
    requires Coherent(w, pf) && prompt != []
    modifies w`ks, w`cached, pf`len, pf`tainted
    ensures base == w.cached < |prompt| && Tracks(w, pf, prompt[..base])
    ensures base == (if old(!pf.tainted && 0 < pf.len < |prompt| && pf.Ids() <= prompt) then old(pf.len) else 0)
  {
    var n: int := pf.Reuse(prompt);
    if n > 0 && n != w.cached { n := 0; }
    base := n;
    if base == 0 {
      w.ks := w.m.init;
      w.cached := 0;
      pf.Clear();
      assert prompt[..0] == [];
    } else {
      assert pf.Ids() == prompt[..base];
    }
  }

  /** Feed ids where the state ends and record them there; a failed forward clears the record. */
  method FeedAndRecord<R(!new), K(0, !new), P(0, !new), L(!new)>(w: Engine<R, K, P, L>, pf: Prefix,
      ghost done: seq<int>, ids: seq<int>)
    returns (ok: bool, logits: seq<L>)
    requires Tracks(w, pf, done) && ids != [] && w.cached + |ids| <= w.kvCap
    modifies w`ks, w`cached, w`faults, w.kvc, w.ropec, pf`len, pf`tainted, pf.fed
    ensures w.faults == old(w.faults) + (if ok then 0 else 1) && (w.reliable ==> ok)
    ensures if ok then Tracks(w, pf, done + ids) else Coherent(w, pf)
    ensures ok ==> logits != [] && logits[|logits| - 1] == Logits(w.m, done + ids)
  {
    hide Fold, FeedAll, Engine.Rows, Predicts;
    var at := w.cached;
    var args;
    ghost var was := pf.Ids();
    ok, args, logits := w.Advance(done, ids);
    if ok {
      PredictsLast(w.m, done, ids, logits, args);
      pf.Record(ids, at);
    } else {
      pf.Clear();
    }
  }

  lemma PredictsLast<R, W, L>(m: Model<R, W, L>, done: seq<int>, ids: seq<int>, logits: seq<L>, args: seq<int>)
    requires ids != [] && Predicts(m, Fold(m, done), ids, logits, args)
    ensures |logits| == |ids| && logits[|ids| - 1] == Logits(m, done + ids)
  {
    var n := |ids| - 1;
    FoldAppend(m, done, ids[..n]);
    assert (done + ids)[..|done + ids| - 1] == done + ids[..n];
  }

  lemma TracksIsCoherent<R(!new), K(0, !new), P(0, !new), L(!new)>(w: Engine<R, K, P, L>, pf: Prefix, done: seq<int>)
    requires Tracks(w, pf, done)
    ensures Coherent(w, pf) && Apart(w, pf) && w.cached == |done|
  {
  }

  lemma TurnFromStep<R, W, L, S>(m: Model<R, W, L>, sam: Sampler<S, L>, s: seq<int>, out: seq<int>, st: S, gen: nat,
      ends: set<int>)
    requires s != [] && |out| <= gen
    ensures Ended(out, gen, ends) ==> TurnFrom(m, sam, s, out, st, gen, ends) == Some(out)
    ensures !Ended(out, gen, ends) ==>
              var r := sam.next(st, Logits(m, s + out));
              TurnFrom(m, sam, s, out, st, gen, ends)
              == if r.None? then None else TurnFrom(m, sam, s, out + [r.value.1], r.value.0, gen, ends)
  {
  }

  /** The state in the middle of a turn, with `out` sampled. */
  ghost predicate Sampling<R(!new), K(0, !new), P(0, !new), L(!new)>(w: Engine<R, K, P, L>, pf: Prefix,
      prompt: seq<int>, out: seq<int>,
      base: nat, gen: nat)
    requires base < |prompt|
    reads w, w.kvc, w.ropec, pf, pf.fed
  {
    Tracks(w, pf, if out == [] then prompt[..base] else prompt + out[..|out| - 1]) && |prompt| + gen + 1 <= w.kvCap
  }

  /** Feed what has not been fed: the rest of the prompt at first, then the last id. */
  method NextLogits<R(!new), K(0, !new), P(0, !new), L(!new)>(w: Engine<R, K, P, L>, pf: Prefix, buf: array<int>,
      prompt: seq<int>,
      out: seq<int>, base: nat, gen: nat) returns (ok: bool, logits: seq<L>)
    requires base < |prompt| && Sampling(w, pf, prompt, out, base, gen) && |out| < gen
    requires |prompt| + |out| <= buf.Length && buf[..|prompt| + |out|] == prompt + out
    requires buf as object != w.kvc as object && buf as object != w.ropec as object
             && buf as object != pf.fed as object?
    modifies w`ks, w`cached, w`faults, w.kvc, w.ropec, pf`len, pf`tainted, pf.fed
    ensures w.faults == old(w.faults) + (if ok then 0 else 1) && (w.reliable ==> ok)
    ensures if ok then Tracks(w, pf, prompt + out) && logits != []
            && logits[|logits| - 1] == Logits(w.m, prompt + out) else Coherent(w, pf)
    ensures buf[..] == old(buf[..])
  {
    hide Engine.Holds, Logits;
    var T := |prompt| + |out|;
    ghost var fed := if out == [] then prompt[..base] else prompt + out[..|out| - 1];
    TracksIsCoherent(w, pf, fed);
    var ids := if out == [] then buf[base..T] else buf[T - 1..T];
    assert ids == buf[..T][|fed|..];
    assert fed + ids == prompt + out;
    ok, logits := FeedAndRecord(w, pf, fed, ids);
  }

  /** One turn: sample until an end id or the limit.  Without a failed forward the ids are those
      of a session that starts from nothing, whatever the engine held when the turn began. */
  method Turn<R(!new), K(0, !new), P(0, !new), L(!new), S>(w: Engine<R, K, P, L>, pf: Prefix, sam: Sampler<S, L>,
      prompt: seq<int>, turn: nat, gen: nat, ends: set<int>)
    returns (ok: bool, sampled: Option<seq<int>>)
    requires Coherent(w, pf) && prompt != [] && |prompt| + gen + 1 <= w.kvCap
    modifies w`ks, w`cached, w`faults, w.kvc, w.ropec, pf`len, pf`tainted, pf.fed
    ensures w.faults == old(w.faults) + (if ok then 0 else 1) && (w.reliable ==> ok)
    ensures Coherent(w, pf)
    ensures ok ==> sampled == TurnIds(w.m, sam, prompt, turn, gen, ends)
  {
    hide Engine.Holds, Logits, Coherent, Tracks, TurnFrom;
    var buf := new int[|prompt| + gen + 9];
    WriteRun(buf, 0, prompt);
    var base := Begin(w, pf, prompt);
    var st, out: seq<int>, T := sam.init(turn + 1), [], |prompt|;
    ok, sampled := true, None;
    while |out| < gen
      invariant T == |prompt| + |out| && |out| <= gen && fresh(buf) && buf[..T] == prompt + out
      invariant ok && w.faults == old(w.faults)
      invariant Sampling(w, pf, prompt, out, base, gen) && !Last(out, ends)
      invariant TurnIds(w.m, sam, prompt, turn, gen, ends) == TurnFrom(w.m, sam, prompt, out, st, gen, ends)
    {
      TurnFromStep(w.m, sam, prompt, out, st, gen, ends);
      var logits;
      ok, logits := NextLogits(w, pf, buf, prompt, out, base, gen);
      if !ok { return; }
      TracksIsCoherent(w, pf, prompt + out);
      var drawn := sam.next(st, logits[|logits| - 1]);
      if drawn.None? { return; }
      var next := drawn.value.1;
      buf[T] := next;
      assert (out + [next])[..|out|] == out;
      out, st, T := out + [next], drawn.value.0, T + 1;
      TurnFromStep(w.m, sam, prompt, out, st, gen, ends);
      if next in ends { return ok, Some(out); }
    }
    TurnFromStep(w.m, sam, prompt, out, st, gen, ends);
    sampled := Some(out);
    TracksIsCoherent(w, pf, if out == [] then prompt[..base] else prompt + out[..|out| - 1]);
  }

  /** The session: it fails exactly when its buffers cannot grow or a forward fails; until then
      every turn's ids are those of the session that never reuses anything. */
  method Session<R(!new), K(0, !new), P(0, !new), L(!new), S>(w: Engine<R, K, P, L>, pf: Prefix, sam: Sampler<S, L>,
      prompts: seq<seq<int>> -> Option<seq<int>>, turn0: nat, gen: nat, ends: set<int>, turns: nat)
    returns (outs: seq<seq<int>>, failed: bool)
    requires Coherent(w, pf) && gen > 0
    modifies w`ks, w`cached, w`kvc, w`ropec, w`kvCap, w`faults, w.kvc, w.ropec, pf, pf.fed
    ensures w.faults == old(w.faults) + (if failed then 1 else 0) && (w.reliable ==> !failed)
    ensures Coherent(w, pf)
    ensures outs <= SessionIds(w.m, sam, prompts, turn0, [], gen, ends, turns)
    ensures !failed ==> outs == SessionIds(w.m, sam, prompts, turn0, [], gen, ends, turns)
  {
    hide Coherent, TurnIds;
    outs, failed := [], false;
    for t := 0 to turns
      invariant Coherent(w, pf) && !failed && w.faults == old(w.faults)
      invariant w.kvc == old(w.kvc) || fresh(w.kvc)
      invariant w.ropec == old(w.ropec) || fresh(w.ropec)
      invariant pf.fed == old(pf.fed) || pf.fed == null || fresh(pf.fed)
      invariant SessionIds(w.m, sam, prompts, turn0, [], gen, ends, turns)
             == SessionIds(w.m, sam, prompts, turn0, outs, gen, ends, turns - t)
    {
      SessionExtends(w.m, sam, prompts, turn0, outs, gen, ends, turns - t);
      var prompt := prompts(outs);
      if prompt.None? || prompt.value == [] { return; }
      var grown := Resize(w, pf, |prompt.value| + gen + 1);
      if !grown { return outs, true; }
      var ok, out := Turn(w, pf, sam, prompt.value, turn0 + |outs|, gen, ends);
      if !ok { return outs, true; }
      if out.None? || !Last(out.value, ends) { return; }
      outs := outs + [out.value];
    }
  }

  lemma {:induction false} SessionExtends<R, W, L, S>(m: Model<R, W, L>, sam: Sampler<S, L>,
      prompts: seq<seq<int>> -> Option<seq<int>>,
      turn0: nat, outs: seq<seq<int>>, gen: nat, ends: set<int>, turns: nat)
    ensures outs <= SessionIds(m, sam, prompts, turn0, outs, gen, ends, turns)
    decreases turns
  {
    hide TurnIds;
    if turns > 0 && prompts(outs).Some? && prompts(outs).value != [] {
      var out := TurnIds(m, sam, prompts(outs).value, turn0 + |outs|, gen, ends);
      if out.Some? && Last(out.value, ends) {
        SessionExtends(m, sam, prompts, turn0, outs + [out.value], gen, ends, turns - 1);
      }
    }
  }
}
