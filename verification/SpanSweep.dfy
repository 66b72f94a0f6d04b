/** The check that a shard's tensors tile its data region (`sweep_spans` in src/io/k3_st.c) and
    what it is worth to `k3_expert_ref` (src/io/k3_load.c): a run of tensors whose lengths add
    up to its extent has no gap. */
module SpanSweep {

  /** The bytes [o0, o1) of the data region; o0 <= o1 was checked per entry. */
  datatype Span = Span(o0: nat, o1: nat)

  ghost predicate WellFormed(s: seq<Span>) {
    forall i :: 0 <= i < |s| ==> s[i].o0 <= s[i].o1
  }

  predicate Covers(p: Span, x: nat) {
    p.o0 <= x < p.o1
  }

  /** How many spans claim byte x. */
  function Cover(s: seq<Span>, x: nat): nat {
    if s == [] then 0 else Cover(s[..|s| - 1], x) + if Covers(s[|s| - 1], x) then 1 else 0
  }

  function MaxEnd(s: seq<Span>): nat {
    if s == [] then 0 else
      var m := MaxEnd(s[..|s| - 1]);
      if s[|s| - 1].o1 > m then s[|s| - 1].o1 else m
  }

  /** No empty span lies strictly inside another span. */
  ghost predicate NoneInside(s: seq<Span>) {
    forall e, p :: e in s && p in s && e.o0 == e.o1 ==> !(p.o0 < e.o0 < p.o1)
  }

  /** What a valid shard promises: every byte up to the last end belongs to exactly one tensor,
      and empty tensors sit on boundaries. */
  ghost predicate Tiles(s: seq<Span>) {
    (forall x: nat :: x < MaxEnd(s) ==> Cover(s, x) == 1) && NoneInside(s)
  }

  /* ------------------------------------------------------------------- sorting */

  /** `cmp_span`: by start, then by end. */
  predicate Before(a: Span, b: Span) {
    a.o0 < b.o0 || (a.o0 == b.o0 && a.o1 <= b.o1)
  }

  ghost predicate Sorted(s: seq<Span>) {
    forall i, j :: 0 <= i < j < |s| ==> Before(s[i], s[j])
  }

  /** Stand-in for qsort: insert one by one. */
  function Insert(s: seq<Span>, p: Span): seq<Span> {
    if s == [] || Before(s[|s| - 1], p) then s + [p] else Insert(s[..|s| - 1], p) + [s[|s| - 1]]
  }

  function Sort(s: seq<Span>): seq<Span> {
    if s == [] then [] else Insert(Sort(s[..|s| - 1]), s[|s| - 1])
  }

  lemma {:induction false} InsertFacts(s: seq<Span>, p: Span)
    ensures multiset(Insert(s, p)) == multiset(s) + multiset{p}
    ensures Sorted(s) ==> Sorted(Insert(s, p))
    ensures forall q :: q in Insert(s, p) <==> q in s || q == p
  {
    if s != [] {
      var t, l := s[..|s| - 1], s[|s| - 1];
      assert s == t + [l];
      if !Before(l, p) {
        InsertFacts(t, p);
        if Sorted(s) {
          assert forall q :: q in Insert(t, p) ==> Before(q, l);
        }
      }
    }
  }

  lemma {:induction false} InsertCounts(s: seq<Span>, p: Span, x: nat)
    ensures Cover(Insert(s, p), x) == Cover(s, x) + if Covers(p, x) then 1 else 0
    ensures MaxEnd(Insert(s, p)) == if p.o1 > MaxEnd(s) then p.o1 else MaxEnd(s)
  {
    if s == [] || Before(s[|s| - 1], p) {
      assert (s + [p])[..|s|] == s;
    } else {
      var t, l := s[..|s| - 1], s[|s| - 1];
      InsertCounts(t, p, x);
      assert (Insert(t, p) + [l])[..|Insert(t, p)|] == Insert(t, p);
    }
  }

  /** Sorting changes neither the members nor what covers what. */
  lemma {:induction false} SortFacts(s: seq<Span>)
    ensures Sorted(Sort(s)) && multiset(Sort(s)) == multiset(s)
    ensures forall q :: q in Sort(s) <==> q in s
  {
    if s != [] {
      SortFacts(s[..|s| - 1]);
      assert s == s[..|s| - 1] + [s[|s| - 1]];
      InsertFacts(Sort(s[..|s| - 1]), s[|s| - 1]);
    }
  }

  lemma {:induction false} SortCounts(s: seq<Span>, x: nat)
    ensures Cover(Sort(s), x) == Cover(s, x) && MaxEnd(Sort(s)) == MaxEnd(s)
  {
    if s != [] {
      SortCounts(s[..|s| - 1], x);
      InsertCounts(Sort(s[..|s| - 1]), s[|s| - 1], x);
    }
  }

  lemma SortTiles(s: seq<Span>)
    ensures Tiles(Sort(s)) <==> Tiles(s)
  {
    hide Cover, MaxEnd, Sort;
    SortFacts(s);
    forall x: nat ensures Cover(Sort(s), x) == Cover(s, x) && MaxEnd(Sort(s)) == MaxEnd(s) { SortCounts(s, x); }
  }

  /* ------------------------------------------------------------------- the sweep */

  /** Each span starts where everything before it ends. */
  ghost predicate Chain(s: seq<Span>) {
    s == [] || (Chain(s[..|s| - 1]) && s[|s| - 1].o0 == MaxEnd(s[..|s| - 1]))
  }

  lemma {:induction false} ChainCovers(s: seq<Span>, x: nat)
    requires WellFormed(s) && Chain(s)
    ensures Cover(s, x) == if x < MaxEnd(s) then 1 else 0
  {
    if s != [] { ChainCovers(s[..|s| - 1], x); }
  }

  lemma {:induction false} EndsBelow(s: seq<Span>, p: Span)
    requires p in s
    ensures p.o1 <= MaxEnd(s)
  {
    if p != s[|s| - 1] {
      assert s == s[..|s| - 1] + [s[|s| - 1]];
      EndsBelow(s[..|s| - 1], p);
    }
  }

  lemma {:induction false} ChainNoneInside(s: seq<Span>)
    requires WellFormed(s) && Chain(s)
    ensures NoneInside(s)
  {
    if s != [] {
      var t, l := s[..|s| - 1], s[|s| - 1];
      assert s == t + [l];
      ChainNoneInside(t);
      forall p | p in t ensures p.o1 <= l.o0 { EndsBelow(t, p); }
    }
  }

  lemma {:induction false} CoverAppend(a: seq<Span>, b: seq<Span>, x: nat)
    ensures Cover(a + b, x) == Cover(a, x) + Cover(b, x)
  {
    if b == [] {
      assert a + b == a;
    } else {
      CoverAppend(a, b[..|b| - 1], x);
      assert (a + b)[..|a + b| - 1] == a + b[..|b| - 1];
    }
  }

  lemma {:induction false} NotCovered(s: seq<Span>, x: nat)
    requires forall p :: p in s ==> !Covers(p, x)
    ensures Cover(s, x) == 0
  {
    if s != [] { NotCovered(s[..|s| - 1], x); }
  }

  lemma {:induction false} SomeCovers(s: seq<Span>, x: nat) returns (p: Span)
    requires Cover(s, x) > 0
    ensures p in s && Covers(p, x)
  {
    if Covers(s[|s| - 1], x) { p := s[|s| - 1]; } else { p := SomeCovers(s[..|s| - 1], x); }
  }

  /** Different entries of a tiled shard never claim the same byte. */
  lemma {:induction false} Apart(s: seq<Span>, i: nat, j: nat, x: nat)
    requires i < j < |s| && Covers(s[i], x) && Covers(s[j], x)
    ensures Cover(s, x) >= 2
  {
    if j < |s| - 1 {
      Apart(s[..|s| - 1], i, j, x);
    } else {
      CoverAtLeastOne(s[..|s| - 1], i, x);
    }
  }

  lemma {:induction false} CoverAtLeastOne(s: seq<Span>, i: nat, x: nat)
    requires i < |s| && Covers(s[i], x)
    ensures Cover(s, x) >= 1
  {
    if i < |s| - 1 { CoverAtLeastOne(s[..|s| - 1], i, x); }
  }

  /** In a tiling, sorted, the k-th span starts at the end of those before it. */
  lemma NextStart(s: seq<Span>, k: nat)
    requires WellFormed(s) && Sorted(s) && Tiles(s) && k < |s| && Chain(s[..k])
    ensures s[k].o0 == MaxEnd(s[..k])
  {
    if s[k].o0 < MaxEnd(s[..k]) { StartBelow(s, k); }
    if s[k].o0 > MaxEnd(s[..k]) { StartAbove(s, k); }
  }

  /** A gap: nothing claims the byte at the cursor. */
  lemma StartAbove(s: seq<Span>, k: nat)
    requires WellFormed(s) && Sorted(s) && Tiles(s) && k < |s| && Chain(s[..k]) && s[k].o0 > MaxEnd(s[..k])
    ensures false
  {
    var a, b, q, m := s[..k], s[k..], s[k], MaxEnd(s[..k]);
    ChainCovers(a, m);
    forall p | p in b ensures !Covers(p, m) { LaterStarts(s, k, p); }
    NotCovered(b, m);
    CoverAppend(a, b, m);
    assert s == a + b && q in s;
    EndsBelow(s, q);
    assert m < MaxEnd(s);
  }

  lemma LaterStarts(s: seq<Span>, k: nat, p: Span)
    requires Sorted(s) && k < |s| && p in s[k..]
    ensures p.o0 >= s[k].o0
  {
    var i :| 0 <= i < |s| - k && s[k..][i] == p;
    assert s[k + i] == p;
  }

  /** An overlap: a byte claimed twice, or an empty span inside an earlier one. */
  lemma StartBelow(s: seq<Span>, k: nat)
    requires WellFormed(s) && Sorted(s) && Tiles(s) && k < |s| && Chain(s[..k]) && s[k].o0 < MaxEnd(s[..k])
    ensures false
  {
    var q, x := s[k], s[k].o0;
    ChainCovers(s[..k], x);
    var p := SomeCovers(s[..k], x);
    var i :| 0 <= i < k && s[..k][i] == p;
    EndsBelow(s, q);
    if q.o0 < q.o1 {
      Apart(s, i, k, x);
    } else {
      assert s[i] == p && p in s && q in s && Before(p, q);
    }
  }

  lemma {:induction false} TilesIsChain(s: seq<Span>, k: nat)
    requires WellFormed(s) && Sorted(s) && Tiles(s) && k <= |s|
    ensures Chain(s[..k])
  {
    if k > 0 {
      TilesIsChain(s, k - 1);
      NextStart(s, k - 1);
      assert s[..k][..k - 1] == s[..k - 1];
    }
  }

  lemma ChainIsTiles(s: seq<Span>)
    requires WellFormed(s) && Sorted(s)
    ensures Chain(s) <==> Tiles(s)
  {
    if Tiles(s) {
      TilesIsChain(s, |s|);
      assert s[..|s|] == s;
    }
    if Chain(s) {
      forall x: nat | x < MaxEnd(s) ensures Cover(s, x) == 1 { ChainCovers(s, x); }
      ChainNoneInside(s);
    }
  }

  lemma {:induction false} ChainPrefix(s: seq<Span>, k: nat)
    requires Chain(s) && k < |s|
    ensures s[k].o0 == MaxEnd(s[..k])
  {
    if k < |s| - 1 {
      ChainPrefix(s[..|s| - 1], k);
      assert s[..|s| - 1][..k] == s[..k];
    }
  }

  /** The sweep accepts exactly the tilings, whatever order the header lists them in. */
  method SweepSpans(spans: seq<Span>) returns (ok: bool)
    requires WellFormed(spans)
    ensures ok <==> Tiles(spans)
  {
    hide Tiles, Sorted, Sort;
    var sp := Sort(spans);
    SortFacts(spans);
    SortTiles(spans);
    assert WellFormed(sp) by { assert forall i :: 0 <= i < |sp| ==> sp[i] in sp && sp[i] in spans; }
    ChainIsTiles(sp);
    var cursor: nat := 0;
    for i := 0 to |sp|
      invariant Chain(sp[..i]) && cursor == MaxEnd(sp[..i])
    {
      assert sp[..i + 1][..i] == sp[..i];
      if sp[i].o0 != cursor {
        if Chain(sp) { ChainPrefix(sp, i); }
        return false;          // an overlap below the cursor, a gap above it
      }
      if sp[i].o1 > cursor { cursor := sp[i].o1; }
    }
    assert sp[..|sp|] == sp;
    ok := true;
  }

  /* ------------------------------------------------------- runs of disjoint spans */

  /** Claims on the n bytes from lo on. */
  function Claims(s: seq<Span>, lo: nat, n: nat): nat {
    if n == 0 then 0 else Claims(s, lo, n - 1) + Cover(s, lo + n - 1)
  }

  function Lengths(s: seq<Span>): int {
    if s == [] then 0 else Lengths(s[..|s| - 1]) + (s[|s| - 1].o1 - s[|s| - 1].o0)
  }

  lemma {:induction false} ClaimsSnoc(s: seq<Span>, p: Span, lo: nat, n: nat)
    requires lo <= p.o0 <= p.o1
    ensures Claims(s + [p], lo, n) == Claims(s, lo, n)
            + if lo + n <= p.o0 then 0 else if lo + n <= p.o1 then lo + n - p.o0 else p.o1 - p.o0
  {
    if n > 0 {
      ClaimsSnoc(s, p, lo, n - 1);
      assert (s + [p])[..|s|] == s;
    }
  }

  lemma {:induction false} NoClaims(lo: nat, n: nat)
    ensures Claims([], lo, n) == 0
  {
    if n > 0 { NoClaims(lo, n - 1); }
  }

  /** Counted by byte or by span, the claims on a range that holds them all are the same. */
  lemma {:induction false} ClaimsAreLengths(s: seq<Span>, lo: nat, n: nat)
    requires forall i :: 0 <= i < |s| ==> lo <= s[i].o0 <= s[i].o1 <= lo + n
    ensures Claims(s, lo, n) == Lengths(s)
  {
    if s == [] {
      NoClaims(lo, n);
    } else {
      ClaimsAreLengths(s[..|s| - 1], lo, n);
      ClaimsSnoc(s[..|s| - 1], s[|s| - 1], lo, n);
      assert s == s[..|s| - 1] + [s[|s| - 1]];
    }
  }

  /** At most one claim per byte: there are as many claims as bytes exactly when none is free. */
  lemma {:induction false} ClaimsFill(s: seq<Span>, lo: nat, n: nat)
    requires forall x: nat :: lo <= x < lo + n ==> Cover(s, x) <= 1
    ensures Claims(s, lo, n) <= n
    ensures Claims(s, lo, n) == n <==> forall x: nat :: lo <= x < lo + n ==> Cover(s, x) == 1
  {
    if n > 0 {
      ClaimsFill(s, lo, n - 1);
      assert Cover(s, lo + n - 1) <= 1;
      if Claims(s, lo, n) == n {
        forall x: nat | lo <= x < lo + n ensures Cover(s, x) == 1 { assert x == lo + n - 1 || x < lo + (n - 1); }
      }
    }
  }

  /** The entries `pick` of a shard, all different. */
  ghost predicate Picked(s: seq<Span>, pick: seq<nat>, t: seq<Span>) {
    && |t| == |pick|
    && (forall i :: 0 <= i < |pick| ==> pick[i] < |s| && t[i] == s[pick[i]])
    && (forall i, j :: 0 <= i < j < |pick| ==> pick[i] != pick[j])
  }

  lemma {:induction false} PickedOnce(s: seq<Span>, pick: seq<nat>, t: seq<Span>, x: nat)
    requires Picked(s, pick, t) && Cover(s, x) <= 1
    ensures Cover(t, x) <= 1
  {
    if t != [] {
      var n := |t| - 1;
      PickedOnce(s, pick[..n], t[..n], x);
      if Covers(t[n], x) && Cover(t[..n], x) > 0 {
        var p := SomeCovers(t[..n], x);
        var i :| 0 <= i < n && t[..n][i] == p;
        assert s[pick[i]] == p && s[pick[n]] == t[n] && pick[i] != pick[n];
        if pick[i] < pick[n] { Apart(s, pick[i], pick[n], x); } else { Apart(s, pick[n], pick[i], x); }
        assert false;
      }
    }
  }

  /** Beyond the last end nothing is claimed. */
  lemma Beyond(s: seq<Span>, x: nat)
    requires x >= MaxEnd(s)
    ensures Cover(s, x) == 0
  {
    forall p | p in s ensures !Covers(p, x) { EndsBelow(s, p); }
    NotCovered(s, x);
  }

  /** In an accepted shard, tensors within [lo, hi) have lengths adding up to hi - lo exactly
      when every byte of [lo, hi) belongs to exactly one of them. */
  lemma ExtentIsTiling(s: seq<Span>, pick: seq<nat>, t: seq<Span>, lo: nat, hi: nat)
    requires Tiles(s) && Picked(s, pick, t) && lo <= hi
    requires forall i :: 0 <= i < |t| ==> lo <= t[i].o0 <= t[i].o1 <= hi
    ensures hi - lo == Lengths(t) <==> forall x: nat :: lo <= x < hi ==> Cover(t, x) == 1
  {
    hide Cover, MaxEnd, Picked, Claims, Lengths;
    forall x: nat ensures Cover(t, x) <= 1 {
      if x >= MaxEnd(s) { Beyond(s, x); }
      PickedOnce(s, pick, t, x);
    }
    ClaimsAreLengths(t, lo, hi - lo);
    ClaimsFill(t, lo, hi - lo);
  }
}
