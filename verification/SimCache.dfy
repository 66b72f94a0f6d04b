/** Replaying an expert-request trace: the offline simulator of tools/sim_cache.py.

    A key is one (layer, expert) pair.  `Lru`, `Belady` and `PinnedLru` follow the three
    Python functions; everything else says what the numbers they return mean. */
module SimCache {
  import opened LruOrder

  /* ------------------------------------------------------------------ policies */

  /** A demand-fetch policy on the first n requests of a trace: run[i] is what the cache holds when request i
      arrives.  It never holds more than `cap` keys and only a request brings its own key
      in.  Nothing else is asked: it may bypass, may evict anything, may know the future. */
  ghost predicate PolicyRun<K(!new)>(trace: seq<K>, cap: nat, run: seq<set<K>>, n: nat)
    requires n <= |trace|
  {
    && n < |run|
    && run[0] == {}
    && (forall i :: 0 <= i <= n ==> |run[i]| <= cap)
    && (forall i :: 0 <= i < n ==> run[i + 1] <= run[i] + {trace[i]})
  }

  /** Hits among the first n requests of a run. */
  ghost function Hits<K(!new)>(trace: seq<K>, run: seq<set<K>>, n: nat): nat
    requires n <= |trace| && n <= |run|
  {
    if n == 0 then 0 else Hits(trace, run, n - 1) + (if trace[n - 1] in run[n - 1] then 1 else 0)
  }

  lemma {:induction false} HitsAgree<K(!new)>(trace: seq<K>, run: seq<set<K>>, run': seq<set<K>>, n: nat)
    requires n <= |trace| && n <= |run| && n <= |run'| && run[..n] == run'[..n]
    ensures Hits(trace, run, n) == Hits(trace, run', n)
  {
    if n > 0 {
      assert run[..n - 1] == run[..n][..n - 1] && run'[..n - 1] == run'[..n][..n - 1];
      assert run[n - 1] == run[..n][n - 1] == run'[n - 1];
      HitsAgree(trace, run, run', n - 1);
    }
  }

  /** Compulsory misses: no policy, at any capacity, hits a key on its first request. */
  lemma {:induction false} CompulsoryMisses<K(!new)>(trace: seq<K>, cap: nat, run: seq<set<K>>, n: nat)
    requires n <= |trace| && PolicyRun(trace, cap, run, n)
    ensures run[n] <= Keys(trace[..n])
    ensures Hits(trace, run, n) + |Keys(trace[..n])| <= n
  {
    hide PolicyRun, Keys;
    RunStep(trace, cap, run, n);
    if n > 0 {
      CompulsoryMisses(trace, cap, run, n - 1);
      var k, seen := trace[n - 1], Keys(trace[..n - 1]);
      assert trace[..n] == trace[..n - 1] + [k];
      KeysSnoc(trace[..n - 1], k);
      SeenMore(seen, k, run[n - 1], run[n]);
    }
  }

  lemma RunStep<K(!new)>(trace: seq<K>, cap: nat, run: seq<set<K>>, n: nat)
    requires n <= |trace| && PolicyRun(trace, cap, run, n)
    ensures n < |run|
    ensures if n == 0 then run[0] <= Keys(trace[..0]) && |Keys(trace[..0])| == 0
            else PolicyRun(trace, cap, run, n - 1) && run[n] <= run[n - 1] + {trace[n - 1]}
  {
    if n == 0 {
      assert Keys(trace[..0]) == {};
    } else {
      assert run[n - 1 + 1] <= run[n - 1] + {trace[n - 1]};
    }
  }

  lemma SeenMore<K(!new)>(seen: set<K>, k: K, r: set<K>, r': set<K>)
    requires r <= seen && r' <= r + {k}
    ensures r' <= seen + {k} && |seen + {k}| + (if k in r then 1 else 0) <= |seen| + 1
  {
    if k in seen { assert seen + {k} == seen; }
  }

  /* -------------------------------------------------------------------- Belady */

  /** The first request for x at or after position i, or |trace| if there is none. */
  function NextUse<K(==, !new)>(trace: seq<K>, i: nat, x: K): (r: nat)
    requires i <= |trace|
    ensures i <= r <= |trace|
    decreases |trace| - i
  {
    if i == |trace| then i else if trace[i] == x then i else NextUse(trace, i + 1, x)
  }

  lemma {:induction false} NextUseIsFirst<K(!new)>(trace: seq<K>, i: nat, x: K)
    requires i <= |trace|
    ensures var r := NextUse(trace, i, x);
            (r < |trace| ==> trace[r] == x) && forall j :: i <= j < r ==> trace[j] != x
    decreases |trace| - i
  {
    if i < |trace| && trace[i] != x { NextUseIsFirst(trace, i + 1, x); }
  }

  /** The keys of s that are requested again before position t. */
  ghost function Soon<K(!new)>(trace: seq<K>, i: nat, s: set<K>, t: nat): set<K>
    requires i <= |trace|
  {
    set x | x in s && NextUse(trace, i, x) < t
  }

  /** What one iteration of `belady` may do: keep everything while there is room, and
      otherwise drop some key, the new one included, that is needed no sooner than any. */
  ghost predicate BeladyStep<K(!new)>(trace: seq<K>, i: nat, cap: nat, r: set<K>, r': set<K>)
    requires i < |trace|
  {
    var all := r + {trace[i]};
    if trace[i] in r || |r| < cap then r' == all
    else exists v :: v in all && r' == all - {v} &&
           forall x :: x in all ==> NextUse(trace, i + 1, x) <= NextUse(trace, i + 1, v)
  }

  ghost predicate BeladyRun<K(!new)>(trace: seq<K>, cap: nat, run: seq<set<K>>, n: nat)
    requires n <= |trace|
  {
    && PolicyRun(trace, cap, run, n)
    && forall i :: 0 <= i < n ==> BeladyStep(trace, i, cap, run[i], run[i + 1])
  }

  /** Serving request i takes its key out of the soon-needed set, and keeping the key puts
      it back exactly when it is requested again before t. */
  lemma SoonServe<K(!new)>(trace: seq<K>, i: nat, s: set<K>, t: nat)
    requires i < |trace| && i < t
    ensures |Soon(trace, i + 1, s + {trace[i]}, t)| + (if trace[i] in s then 1 else 0)
         == |Soon(trace, i, s, t)| + (if NextUse(trace, i + 1, trace[i]) < t then 1 else 0)
  {
    var k := trace[i];
    var others := Soon(trace, i + 1, s - {k}, t);
    if k in s {
      assert Soon(trace, i, s, t) == others + {k};
    } else {
      assert Soon(trace, i, s, t) == others;
    }
    if NextUse(trace, i + 1, k) < t {
      assert Soon(trace, i + 1, s + {k}, t) == others + {k};
    } else {
      assert Soon(trace, i + 1, s + {k}, t) == others;
    }
  }

  lemma SubsetSize<T>(a: set<T>, b: set<T>)
    requires a <= b
    ensures |a| <= |b|
  {
    assert b == a + (b - a);
  }

  /** One request keeps the furthest-in-future cache ahead: however soon one looks, the other
      policy holds at most `a` more soon-needed keys, where `a` is the lead in hits. */
  lemma BeladyStaysAhead<K(!new)>(trace: seq<K>, i: nat, cap: nat, r: set<K>, r': set<K>,
                         o: set<K>, o': set<K>, a: int, t: nat)
    requires i < |trace| && |r| <= cap && |o'| <= cap && t <= |trace|
    requires BeladyStep(trace, i, cap, r, r') && o' <= o + {trace[i]}
    requires a >= 0 && forall u :: 0 <= u <= |trace| ==> |Soon(trace, i, o, u)| <= |Soon(trace, i, r, u)| + a
    ensures var a' := a + (if trace[i] in r then 1 else 0) - (if trace[i] in o then 1 else 0);
            a' >= 0 && |Soon(trace, i + 1, o', t)| <= |Soon(trace, i + 1, r', t)| + a'
  {
    var k := trace[i];
    LeadStaysNonNegative(trace, i, r, o, a);
    if t <= i {
      assert Soon(trace, i + 1, o', t) == {};
    } else {
      SoonServe(trace, i, o, t);
      SoonServe(trace, i, r, t);
      assert Soon(trace, i + 1, o', t) <= Soon(trace, i + 1, o + {k}, t);
      SubsetSize(Soon(trace, i + 1, o', t), Soon(trace, i + 1, o + {k}, t));
      SubsetSize(Soon(trace, i + 1, o', t), o');
      KeptSoon(trace, i, cap, r, r', t);
    }
  }

  lemma LeadStaysNonNegative<K(!new)>(trace: seq<K>, i: nat, r: set<K>, o: set<K>, a: int)
    requires i < |trace| && a >= 0
    requires |Soon(trace, i, o, i + 1)| <= |Soon(trace, i, r, i + 1)| + a
    ensures a + (if trace[i] in r then 1 else 0) - (if trace[i] in o then 1 else 0) >= 0
  {
    var k := trace[i];
    if k in o && k !in r {
      assert k in Soon(trace, i, o, i + 1);
      assert Soon(trace, i, r, i + 1) == {};
    }
  }

  /** Dropping the furthest key costs a soon-needed one only when every kept key is soon needed. */
  lemma KeptSoon<K(!new)>(trace: seq<K>, i: nat, cap: nat, r: set<K>, r': set<K>, t: nat)
    requires i < |trace| && |r| <= cap && BeladyStep(trace, i, cap, r, r')
    ensures |Soon(trace, i + 1, r', t)| >= cap
         || |Soon(trace, i + 1, r', t)| == |Soon(trace, i + 1, r + {trace[i]}, t)|
  {
    var all := r + {trace[i]};
    if r' != all {
      var v :| v in all && r' == all - {v} &&
               forall x :: x in all ==> NextUse(trace, i + 1, x) <= NextUse(trace, i + 1, v);
      if NextUse(trace, i + 1, v) < t {
        assert Soon(trace, i + 1, r', t) == r';
      } else {
        assert Soon(trace, i + 1, r', t) == Soon(trace, i + 1, all, t);
      }
    }
  }

  lemma {:induction false} BeladyLeads<K(!new)>(trace: seq<K>, cap: nat, g: seq<set<K>>, o: seq<set<K>>, n: nat)
    requires n <= |trace| && BeladyRun(trace, cap, g, n) && PolicyRun(trace, cap, o, n)
    ensures Hits(trace, o, n) <= Hits(trace, g, n)
    ensures forall t :: 0 <= t <= |trace| ==>
              |Soon(trace, n, o[n], t)| <= |Soon(trace, n, g[n], t)| + Hits(trace, g, n) - Hits(trace, o, n)
  {
    if n == 0 {
      forall t | 0 <= t <= |trace| ensures Soon(trace, 0, o[0], t) == {} { }
    } else {
      BeladyLeads(trace, cap, g, o, n - 1);
      var a := Hits(trace, g, n - 1) - Hits(trace, o, n - 1);
      forall t | 0 <= t <= |trace|
        ensures |Soon(trace, n, o[n], t)| <= |Soon(trace, n, g[n], t)| + Hits(trace, g, n) - Hits(trace, o, n)
      {
        BeladyStaysAhead(trace, n - 1, cap, g[n - 1], g[n], o[n - 1], o[n], a, t);
      }
      BeladyStaysAhead(trace, n - 1, cap, g[n - 1], g[n], o[n - 1], o[n], a, 0);
    }
  }

  /** Furthest-in-future replacement with bypass is optimal among all demand-fetch policies. */
  lemma BeladyIsOptimal<K(!new)>(trace: seq<K>, cap: nat, g: seq<set<K>>)
    requires BeladyRun(trace, cap, g, |trace|)
    ensures forall o :: PolicyRun(trace, cap, o, |trace|) ==> Hits(trace, o, |trace|) <= Hits(trace, g, |trace|)
  {
    forall o | PolicyRun(trace, cap, o, |trace|) ensures Hits(trace, o, |trace|) <= Hits(trace, g, |trace|) {
      BeladyLeads(trace, cap, g, o, |trace|);
    }
  }

  /** `last` maps each key requested at or after i to its first such request. */
  ghost predicate NextTable<K(!new)>(trace: seq<K>, i: nat, last: map<K, int>)
    requires i <= |trace|
  {
    forall x :: NextUse(trace, i, x) == if x in last then last[x] else |trace|
  }

  /** nxt is right from position i on. */
  ghost predicate NextsFrom<K(!new)>(trace: seq<K>, i: nat, nxt: seq<int>) {
    |nxt| == |trace| && forall j :: i <= j < |trace| ==> nxt[j] == NextUse(trace, j + 1, trace[j])
  }

  lemma NextsFromStep<K(!new)>(trace: seq<K>, i: nat, nxt: seq<int>, next: int)
    requires i < |trace| && NextsFrom(trace, i + 1, nxt) && next == NextUse(trace, i + 1, trace[i])
    ensures NextsFrom(trace, i, nxt[i := next])
  {
  }

  lemma NextTableStep<K(!new)>(trace: seq<K>, i: nat, last: map<K, int>)
    requires i < |trace| && NextTable(trace, i + 1, last)
    ensures NextTable(trace, i, last[trace[i] := i])
    ensures NextUse(trace, i + 1, trace[i]) == if trace[i] in last then last[trace[i]] else |trace|
  {
    var last' := last[trace[i] := i];
    forall x ensures NextUse(trace, i, x) == if x in last' then last'[x] else |trace| {
      assert NextUse(trace, i + 1, x) == if x in last then last[x] else |trace|;
    }
  }

  /** The backward pass: nxt[i] is the next request for the same key. */
  method NextUses<K(==, !new)>(trace: seq<K>) returns (nxt: seq<int>)
    ensures NextsFrom(trace, 0, nxt)
  {
    var n := |trace|;
    nxt := seq(n, _ => n);
    var last: map<K, int> := map[];
    var i := n;
    while i > 0
      invariant 0 <= i <= n && NextTable(trace, i, last) && NextsFrom(trace, i, nxt)
    {
      i := i - 1;
      var k := trace[i];
      var next := if k in last then last[k] else n;
      NextTableStep(trace, i, last);
      NextsFromStep(trace, i, nxt, next);
      nxt := nxt[i := next];
      last := last[k := i];
    }
  }

  lemma SomeMember<T>(s: set<T>) returns (v: T)
    requires s != {}
    ensures v in s
  {
    v :| v in s;
  }

  lemma {:induction false} FurthestExists<K(!new)>(s: set<K>, m: map<K, int>) returns (v: K)
    requires s != {} && s <= m.Keys
    ensures v in s && forall x :: x in s ==> m[x] <= m[v]
  {
    var k := SomeMember(s);
    if s == {k} { return k; }
    var w := FurthestExists(s - {k}, m);
    v := if m[w] <= m[k] then k else w;
    forall x | x in s ensures m[x] <= m[v] { assert x == k || x in s - {k}; }
  }

  /** `max(resident, key=resident.get)`: a resident key needed no sooner than any other. */
  method Furthest<K(==, !new)>(resident: map<K, int>) returns (victim: K)
    requires resident.Keys != {}
    ensures victim in resident && forall x :: x in resident ==> resident[x] <= resident[victim]
  {
    ghost var w := FurthestExists(resident.Keys, resident);
    victim :| victim in resident.Keys && forall x :: x in resident.Keys ==> resident[x] <= resident[victim];
  }

  /** `resident` records, for each key it holds, the next request at or after i. */
  ghost predicate TracksNextUse<K(!new)>(trace: seq<K>, i: nat, resident: map<K, int>)
    requires i <= |trace|
  {
    forall x :: x in resident ==> resident[x] == NextUse(trace, i, x)
  }

  lemma DropFurthest<K(!new)>(trace: seq<K>, i: nat, cap: nat, r: map<K, int>, v: K)
    requires i < |trace| && trace[i] !in r && |r| >= cap && TracksNextUse(trace, i, r)
    requires if v == trace[i] then forall x :: x in r ==> r[x] <= NextUse(trace, i + 1, v)
             else v in r && r[v] >= NextUse(trace, i + 1, trace[i]) && forall x :: x in r ==> r[x] <= r[v]
    ensures BeladyStep(trace, i, cap, r.Keys, r.Keys + {trace[i]} - {v})
  {
    assert |r.Keys| == |r|;
    var all := r.Keys + {trace[i]};
    forall x | x in all ensures NextUse(trace, i + 1, x) <= NextUse(trace, i + 1, v) {
      if x != trace[i] { assert r[x] == NextUse(trace, i, x) == NextUse(trace, i + 1, x); }
      if v != trace[i] { assert r[v] == NextUse(trace, i, v) == NextUse(trace, i + 1, v); }
    }
  }

  lemma TracksServe<K(!new)>(trace: seq<K>, i: nat, r: map<K, int>, r': map<K, int>)
    requires i < |trace| && TracksNextUse(trace, i, r)
    requires forall x :: x in r' ==> if x == trace[i] then r'[x] == NextUse(trace, i + 1, x)
                                     else x in r && r'[x] == r[x]
    ensures TracksNextUse(trace, i + 1, r')
  {
    forall x | x in r' ensures r'[x] == NextUse(trace, i + 1, x) {
      if x != trace[i] { assert r[x] == NextUse(trace, i, x); }
    }
  }

  /** What serving request i must leave behind. */
  ghost predicate Served<K(!new)>(trace: seq<K>, i: nat, cap: nat, r: map<K, int>, r': map<K, int>)
    requires i < |trace|
  {
    && |r'.Keys| <= cap
    && r'.Keys <= r.Keys + {trace[i]}
    && BeladyStep(trace, i, cap, r.Keys, r'.Keys)
    && TracksNextUse(trace, i + 1, r')
  }

  lemma ServeKeeps<K(!new)>(trace: seq<K>, i: nat, cap: nat, r: map<K, int>)
    requires i < |trace| && TracksNextUse(trace, i, r) && |r.Keys| <= cap
    requires trace[i] in r || |r.Keys| < cap
    ensures Served(trace, i, cap, r, r[trace[i] := NextUse(trace, i + 1, trace[i])])
  {
    var k := trace[i];
    var r' := r[k := NextUse(trace, i + 1, k)];
    assert r'.Keys == r.Keys + {k};
    assert k in r ==> r'.Keys == r.Keys;
    TracksServe(trace, i, r, r');
  }

  lemma ServeReplaces<K(!new)>(trace: seq<K>, i: nat, cap: nat, r: map<K, int>, v: K)
    requires i < |trace| && TracksNextUse(trace, i, r) && |r.Keys| == cap
    requires trace[i] !in r && v in r && r[v] >= NextUse(trace, i + 1, trace[i])
    requires forall x :: x in r ==> r[x] <= r[v]
    ensures Served(trace, i, cap, r, (r - {v})[trace[i] := NextUse(trace, i + 1, trace[i])])
  {
    var k := trace[i];
    var r' := (r - {v})[k := NextUse(trace, i + 1, k)];
    assert r'.Keys == (r.Keys - {v}) + {k} == r.Keys + {k} - {v};
    DropFurthest(trace, i, cap, r, v);
    TracksServe(trace, i, r, r');
  }

  lemma ServeBypasses<K(!new)>(trace: seq<K>, i: nat, cap: nat, r: map<K, int>)
    requires i < |trace| && TracksNextUse(trace, i, r) && |r.Keys| == cap && trace[i] !in r
    requires forall x :: x in r ==> r[x] <= NextUse(trace, i + 1, trace[i])
    ensures Served(trace, i, cap, r, r)
  {
    DropFurthest(trace, i, cap, r, trace[i]);
    assert r.Keys + {trace[i]} - {trace[i]} == r.Keys;
    TracksServe(trace, i, r, r);
  }

  /** The loop body of `belady` for request i. */
  method BeladyServe<K(==, !new)>(trace: seq<K>, i: nat, cap: nat, next: int, resident: map<K, int>)
    returns (hit: bool, resident': map<K, int>)
    requires cap >= 1 && i < |trace| && |resident.Keys| <= cap && TracksNextUse(trace, i, resident)
    requires next == NextUse(trace, i + 1, trace[i])
    ensures hit == (trace[i] in resident)
    ensures Served(trace, i, cap, resident, resident')
  {
    var k := trace[i];
    hit := k in resident;
    if hit || |resident.Keys| < cap {
      ServeKeeps(trace, i, cap, resident);
      resident' := resident[k := next];
    } else {
      var victim := Furthest(resident);
      if resident[victim] < next {
        ServeBypasses(trace, i, cap, resident);
        resident' := resident;
      } else {
        ServeReplaces(trace, i, cap, resident, victim);
        resident' := (resident - {victim})[k := next];
      }
    }
  }

  lemma BeladyAppend<K(!new)>(trace: seq<K>, cap: nat, run: seq<set<K>>, s: set<K>, n: nat)
    requires n < |trace| && |run| == n + 1 && BeladyRun(trace, cap, run, n)
    requires |s| <= cap && s <= run[n] + {trace[n]} && BeladyStep(trace, n, cap, run[n], s)
    ensures BeladyRun(trace, cap, run + [s], n + 1)
  {
    var run' := run + [s];
    forall i | 0 <= i <= n + 1 ensures |run'[i]| <= cap {
      assert run'[i] == if i <= n then run[i] else s;
    }
    forall i | 0 <= i < n + 1
      ensures run'[i + 1] <= run'[i] + {trace[i]} && BeladyStep(trace, i, cap, run'[i], run'[i + 1])
    {
      assert run'[i] == run[i] && run'[i + 1] == if i < n then run[i + 1] else s;
    }
  }

  /** The hits `belady` counts are those of a run no demand-fetch policy can beat.  Python
      takes the first resident key with the furthest next use; the result holds for any. */
  method Belady<K(==, !new)>(trace: seq<K>, cap: nat) returns (hits: nat, ghost run: seq<set<K>>)
    requires cap >= 1
    ensures BeladyRun(trace, cap, run, |trace|) && hits == Hits(trace, run, |trace|)
    ensures forall o :: PolicyRun(trace, cap, o, |trace|) ==> Hits(trace, o, |trace|) <= hits
    ensures hits + |Keys(trace)| <= |trace|
  {
    var n := |trace|;
    var nxt := NextUses(trace);
    var resident: map<K, int> := map[];
    hits := 0;
    run := [{}];
    for i := 0 to n
      invariant |run| == i + 1 && BeladyRun(trace, cap, run, i) && run[i] == resident.Keys
      invariant TracksNextUse(trace, i, resident)
      invariant hits == Hits(trace, run, i)
    {
      var hit, resident' := BeladyServe(trace, i, cap, nxt[i], resident);
      if hit { hits := hits + 1; }
      resident := resident';
      BeladyAppend(trace, cap, run, resident.Keys, i);
      HitsAgree(trace, run, run + [resident.Keys], i);
      run := run + [resident.Keys];
    }
    BeladyIsOptimal(trace, cap, run);
    CompulsoryMisses(trace, cap, run, n);
    assert trace[..n] == trace;
  }

  /* ----------------------------------------------------------------------- LRU */

  /** The loop body `lru` and `pinned_lru` share. */
  method LruServe<K(==, !new)>(seen: seq<K>, k: K, cap: nat) returns (hit: bool, seen': seq<K>)
    requires cap >= 1
    ensures hit == (k in seen) && seen' == Step(seen, k, cap)
  {
    hit := k in seen;
    if hit {
      seen' := Touch(seen, k);
    } else {
      seen' := seen;
      if |seen| >= cap { seen' := seen[1..]; }
      seen' := seen' + [k];
    }
  }

  method Lru<K(==, !new)>(trace: seq<K>, cap: nat) returns (hits: nat)
    requires cap >= 1
    ensures hits == RunHits([], trace, cap)
  {
    var seen: seq<K> := [];
    hits := 0;
    for i := 0 to |trace|
      invariant seen == Run([], trace[..i], cap) && hits == RunHits([], trace[..i], cap)
    {
      assert trace[..i + 1] == trace[..i] + [trace[i]];
      RunSnoc([], trace[..i], trace[i], cap);
      var hit, seen' := LruServe(seen, trace[i], cap);
      if hit { hits := hits + 1; }
      seen := seen';
    }
    assert trace[..|trace|] == trace;
  }

  /** What the LRU cache holds along the trace, as a policy run. */
  ghost function LruSets<K(!new)>(trace: seq<K>, cap: nat): seq<set<K>>
    requires cap >= 1
  {
    seq(|trace| + 1, i requires 0 <= i <= |trace| => Keys(Run([], trace[..i], cap)))
  }

  lemma StepIsDemand<K(!new)>(s: seq<K>, k: K, cap: nat)
    requires cap >= 1
    ensures Keys(Step(s, k, cap)) <= Keys(s) + {k}
  {
    RemoveMembers(s, k);
    forall x | x in Step(s, k, cap) ensures x in s || x == k {
      if k !in s && s != [] && x in s[1..] { assert x in s; }
    }
  }

  lemma LruIsAPolicy<K(!new)>(trace: seq<K>, cap: nat)
    requires cap >= 1
    ensures PolicyRun(trace, cap, LruSets(trace, cap), |trace|)
  {
    forall i | 0 <= i <= |trace| ensures |Keys(Run([], trace[..i], cap))| <= cap {
      RunIsYoungest([], trace[..i], cap);
      assert NoDup(Run([], trace[..i], cap));
      NoDupIsSet(Run([], trace[..i], cap));
    }
    forall i | 0 <= i < |trace|
      ensures Keys(Run([], trace[..i + 1], cap)) <= Keys(Run([], trace[..i], cap)) + {trace[i]}
    {
      assert trace[..i + 1][..i] == trace[..i];
      StepIsDemand(Run([], trace[..i], cap), trace[i], cap);
    }
  }

  lemma {:induction false} LruSetsHits<K(!new)>(trace: seq<K>, cap: nat, n: nat)
    requires cap >= 1 && n <= |trace|
    ensures Hits(trace, LruSets(trace, cap), n) == RunHits([], trace[..n], cap)
  {
    if n > 0 {
      LruSetsHits(trace, cap, n - 1);
      assert trace[..n][..n - 1] == trace[..n - 1];
    }
  }

  /** Belady never loses to LRU. */
  lemma BeladyBeatsLru<K(!new)>(trace: seq<K>, cap: nat, g: seq<set<K>>)
    requires cap >= 1 && BeladyRun(trace, cap, g, |trace|)
    ensures RunHits([], trace, cap) <= Hits(trace, g, |trace|)
  {
    BeladyIsOptimal(trace, cap, g);
    LruIsAPolicy(trace, cap);
    LruSetsHits(trace, cap, |trace|);
    assert trace[..|trace|] == trace;
  }

  /* ---------------------------------------------------------------- pinned LRU */

  /** `Counter(trace).most_common(n)` as a set: the n most requested keys, ties in any order. */
  method MostCommon<K(==, !new)>(trace: seq<K>, n: int) returns (hot: set<K>)
    ensures hot <= Keys(trace)
    ensures |hot| == if n <= 0 then 0 else if n <= |Keys(trace)| then n else |Keys(trace)|
    ensures forall h, x :: h in hot && x in trace && x !in hot ==> multiset(trace)[h] >= multiset(trace)[x]
  {
    var counts := map k | k in Keys(trace) :: multiset(trace)[k];
    var rest := Keys(trace);
    hot := {};
    while |hot| < n && rest != {}
      invariant rest == Keys(trace) - hot && hot <= Keys(trace)
      invariant |hot| <= if n <= 0 then 0 else n
      invariant forall h, x :: h in hot && x in rest ==> counts[h] >= counts[x]
      decreases rest
    {
      ghost var w := FurthestExists(rest, counts);
      var k :| k in rest && forall x :: x in rest ==> counts[x] <= counts[k];
      hot, rest := hot + {k}, rest - {k};
    }
    SubsetSize(hot, Keys(trace));
    assert rest == {} ==> hot == Keys(trace);
    forall h, x | h in hot && x in trace && x !in hot ensures multiset(trace)[h] >= multiset(trace)[x] {
      assert x in rest;
    }
  }

  /** The requests for keys outside the hot set. */
  function Cold<K(==, !new)>(trace: seq<K>, hot: set<K>): seq<K> {
    if trace == [] then []
    else Cold(trace[..|trace| - 1], hot) + (if trace[|trace| - 1] in hot then [] else [trace[|trace| - 1]])
  }

  /** One slot per hot key for good, and LRU in the slots that remain. */
  ghost function PinnedSet<K(!new)>(trace: seq<K>, hot: set<K>, room: nat): set<K>
    requires room >= 1
  {
    (Keys(trace) * hot) + Keys(Run([], Cold(trace, hot), room))
  }

  ghost function PinnedSets<K(!new)>(trace: seq<K>, hot: set<K>, room: nat): seq<set<K>>
    requires room >= 1
  {
    seq(|trace| + 1, i requires 0 <= i <= |trace| => PinnedSet(trace[..i], hot, room))
  }

  /** A pinned key is a miss once and a hit ever after; the others see a smaller LRU. */
  ghost function PinnedHits<K(!new)>(trace: seq<K>, hot: set<K>, room: nat): int
    requires room >= 1
  {
    (|trace| - |Cold(trace, hot)|) - |Keys(trace) * hot| + RunHits([], Cold(trace, hot), room)
  }

  lemma {:induction false} ColdIsCold<K(!new)>(trace: seq<K>, hot: set<K>)
    ensures forall k :: k in Cold(trace, hot) <==> k in trace && k !in hot
  {
    if trace != [] {
      ColdIsCold(trace[..|trace| - 1], hot);
      assert trace == trace[..|trace| - 1] + [trace[|trace| - 1]];
    }
  }

  lemma RunMembers<K(!new)>(trace: seq<K>, cap: nat)
    requires cap >= 1
    ensures forall k :: k in Run([], trace, cap) ==> k in trace
  {
    RunIsYoungest([], trace, cap);
    RecencyMembers([], trace);
  }

  lemma PinnedStepHot<K(!new)>(trace: seq<K>, k: K, hot: set<K>, room: nat)
    requires room >= 1 && k in hot
    ensures Cold(trace + [k], hot) == Cold(trace, hot)
    ensures Keys(trace + [k]) * hot == Keys(trace) * hot + {k}
    ensures PinnedSet(trace + [k], hot, room) == PinnedSet(trace, hot, room) + {k}
    ensures PinnedHits(trace + [k], hot, room) == PinnedHits(trace, hot, room) + (if k in trace then 1 else 0)
    ensures k in PinnedSet(trace, hot, room) <==> k in trace
  {
    assert (trace + [k])[..|trace|] == trace;
    KeysSnoc(trace, k);
    RunMembers(Cold(trace, hot), room);
    ColdIsCold(trace, hot);
    var before := Keys(trace) * hot;
    assert Keys(trace + [k]) * hot == before + {k};
    if k in trace { assert before + {k} == before; }
  }

  lemma PinnedStepCold<K(!new)>(trace: seq<K>, k: K, hot: set<K>, room: nat)
    requires room >= 1 && k !in hot
    ensures Cold(trace + [k], hot) == Cold(trace, hot) + [k]
    ensures Keys(trace + [k]) * hot == Keys(trace) * hot
    ensures PinnedSet(trace + [k], hot, room) <= PinnedSet(trace, hot, room) + {k}
    ensures PinnedHits(trace + [k], hot, room)
         == PinnedHits(trace, hot, room) + (if k in Run([], Cold(trace, hot), room) then 1 else 0)
    ensures k in PinnedSet(trace, hot, room) <==> k in Run([], Cold(trace, hot), room)
  {
    assert (trace + [k])[..|trace|] == trace;
    KeysSnoc(trace, k);
    RunSnoc([], Cold(trace, hot), k, room);
    StepIsDemand(Run([], Cold(trace, hot), room), k, room);
    assert Keys(trace + [k]) * hot == Keys(trace) * hot;
  }

  /** One more request, hot or cold, is demand fetched and counted as the run counts it. */
  lemma PinnedStep<K(!new)>(trace: seq<K>, k: K, hot: set<K>, room: nat)
    requires room >= 1
    ensures PinnedSet(trace + [k], hot, room) <= PinnedSet(trace, hot, room) + {k}
    ensures PinnedHits(trace + [k], hot, room)
         == PinnedHits(trace, hot, room) + (if k in PinnedSet(trace, hot, room) then 1 else 0)
  {
    if k in hot { PinnedStepHot(trace, k, hot, room); } else { PinnedStepCold(trace, k, hot, room); }
  }

  lemma PinnedNothing<K(!new)>(hot: set<K>, room: nat)
    requires room >= 1
    ensures PinnedSet([], hot, room) == {} && PinnedHits([], hot, room) == 0
  {
    assert Keys([]) * hot == {};
  }

  lemma PinnedIsAPolicy<K(!new)>(trace: seq<K>, cap: nat, hot: set<K>, room: nat)
    requires room >= 1 && |hot| + room <= cap
    ensures PolicyRun(trace, cap, PinnedSets(trace, hot, room), |trace|)
  {
    var run := PinnedSets(trace, hot, room);
    assert trace[..0] == [];
    PinnedNothing(hot, room);
    forall i | 0 <= i <= |trace| ensures |run[i]| <= cap {
      PinnedFits(trace[..i], cap, hot, room);
    }
    forall i | 0 <= i < |trace| ensures run[i + 1] <= run[i] + {trace[i]} {
      assert trace[..i + 1] == trace[..i] + [trace[i]];
      PinnedStep(trace[..i], trace[i], hot, room);
    }
  }

  lemma {:induction false} PinnedSetsHits<K(!new)>(trace: seq<K>, hot: set<K>, room: nat, n: nat)
    requires room >= 1 && n <= |trace|
    ensures Hits(trace, PinnedSets(trace, hot, room), n) == PinnedHits(trace[..n], hot, room)
  {
    if n == 0 {
      assert trace[..0] == [];
      PinnedNothing(hot, room);
    } else {
      PinnedSetsHits(trace, hot, room, n - 1);
      assert trace[..n] == trace[..n - 1] + [trace[n - 1]];
      PinnedStep(trace[..n - 1], trace[n - 1], hot, room);
    }
  }

  lemma BeladyBeatsPinned<K(!new)>(trace: seq<K>, cap: nat, hot: set<K>, room: nat, g: seq<set<K>>)
    requires room >= 1 && |hot| + room <= cap && BeladyRun(trace, cap, g, |trace|)
    ensures PinnedHits(trace, hot, room) <= Hits(trace, g, |trace|)
  {
    BeladyIsOptimal(trace, cap, g);
    PinnedIsAPolicy(trace, cap, hot, room);
    PinnedSetsHits(trace, hot, room, |trace|);
    assert trace[..|trace|] == trace;
  }

  lemma PinnedFits<K(!new)>(trace: seq<K>, cap: nat, hot: set<K>, room: nat)
    requires room >= 1 && |hot| + room <= cap
    ensures |PinnedSet(trace, hot, room)| <= cap
  {
    var cold := Run([], Cold(trace, hot), room);
    RunIsYoungest([], Cold(trace, hot), room);
    NoDupIsSet(cold);
    SubsetSize(Keys(trace) * hot, hot);
    var a, b := Keys(trace) * hot, Keys(cold);
    assert |a + b| == |a| + |b| - |a * b|;
  }

  /** How many keys are pinned: as many as asked for, but one slot stays free and there may be
      fewer keys. */
  function Pins<K(==, !new)>(trace: seq<K>, cap: nat, npin: int): (n: nat)
    requires cap >= 1
    ensures n < cap
  {
    var most := if npin >= cap then cap - 1 else if npin < 0 then 0 else npin;
    if most <= |Keys(trace)| then most else |Keys(trace)|
  }

  /** `pinned_lru`; BeladyBeatsPinned bounds the number it returns. */
  method PinnedLru<K(==, !new)>(trace: seq<K>, cap: nat, npin: int) returns (hits: nat, ghost hot: set<K>)
    requires cap >= 1
    ensures |hot| == Pins(trace, cap, npin) < cap && hot <= Keys(trace)
    ensures hits == PinnedHits(trace, hot, cap - |hot|)
    ensures forall h, x :: h in hot && x in trace && x !in hot ==> multiset(trace)[h] >= multiset(trace)[x]
  {
    var pins := if npin >= cap then cap - 1 else npin;
    var hotKeys := MostCommon(trace, pins);
    hot := hotKeys;
    var loaded: set<K> := {};
    var seen: seq<K> := [];
    assert |hot| == Pins(trace, cap, npin);
    var room := if cap - |hotKeys| >= 1 then cap - |hotKeys| else 1;
    hits := 0;
    PinnedNothing(hot, room);
    for i := 0 to |trace|
      invariant loaded == Keys(trace[..i]) * hot
      invariant seen == Run([], Cold(trace[..i], hot), room)
      invariant hits == PinnedHits(trace[..i], hot, room)
    {
      var k := trace[i];
      assert trace[..i + 1] == trace[..i] + [k];
      if k in hotKeys {
        PinnedStepHot(trace[..i], k, hot, room);
        if k in loaded {
          hits := hits + 1;
        } else {
          loaded := loaded + {k};
        }
      } else {
        PinnedStepCold(trace[..i], k, hot, room);
        RunSnoc([], Cold(trace[..i], hot), k, room);
        var hit, seen' := LruServe(seen, k, room);
        if hit { hits := hits + 1; }
        seen := seen';
      }
    }
    assert trace[..|trace|] == trace;
  }
}
