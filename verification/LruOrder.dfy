/** Least-recently-used replacement as an ordered list of keys, oldest first: the
    OrderedDict of tools/sim_cache.py and the reference the engine's cache refines. */
module LruOrder {

  ghost predicate NoDup<K(!new)>(s: seq<K>) {
    forall i, j :: 0 <= i < j < |s| ==> s[i] != s[j]
  }

  /** The distinct keys of a list. */
  function Keys<K(!new)>(s: seq<K>): set<K> {
    set k | k in s
  }

  lemma KeysSnoc<K(!new)>(s: seq<K>, k: K)
    ensures Keys(s + [k]) == Keys(s) + {k}
  {
  }

  /** s without k. */
  function Remove<K(==, !new)>(s: seq<K>, k: K): seq<K> {
    if s == [] then [] else if s[0] == k then Remove(s[1..], k) else [s[0]] + Remove(s[1..], k)
  }

  /** Requesting k moves it to the young end. */
  function Touch<K(==, !new)>(s: seq<K>, k: K): seq<K> {
    Remove(s, k) + [k]
  }

  /** One request at capacity cap, on a cache holding s oldest first. */
  function Step<K(==, !new)>(s: seq<K>, k: K, cap: nat): seq<K>
    requires cap >= 1
  {
    if k in s then Touch(s, k)
    else (if |s| >= cap then s[1..] else s) + [k]
  }

  /** The cache after a trace, starting from s, and the hits along it. */
  function Run<K(==, !new)>(s: seq<K>, trace: seq<K>, cap: nat): seq<K>
    requires cap >= 1
  {
    if trace == [] then s else Step(Run(s, trace[..|trace| - 1], cap), trace[|trace| - 1], cap)
  }

  function RunHits<K(==, !new)>(s: seq<K>, trace: seq<K>, cap: nat): nat
    requires cap >= 1
  {
    if trace == [] then 0
    else RunHits(s, trace[..|trace| - 1], cap) +
         (if trace[|trace| - 1] in Run(s, trace[..|trace| - 1], cap) then 1 else 0)
  }

  /** The keys of s and of the trace, by last request: a cache that never evicts. */
  function Recency<K(==, !new)>(s: seq<K>, trace: seq<K>): seq<K> {
    if trace == [] then s else Touch(Recency(s, trace[..|trace| - 1]), trace[|trace| - 1])
  }

  lemma RunSnoc<K(!new)>(s: seq<K>, trace: seq<K>, k: K, cap: nat)
    requires cap >= 1
    ensures Run(s, trace + [k], cap) == Step(Run(s, trace, cap), k, cap)
    ensures RunHits(s, trace + [k], cap) == RunHits(s, trace, cap) + (if k in Run(s, trace, cap) then 1 else 0)
  {
    assert (trace + [k])[..|trace|] == trace;
  }

  /** The youngest c keys. */
  function Youngest<K(==, !new)>(s: seq<K>, c: nat): seq<K> {
    if |s| <= c then s else s[|s| - c..]
  }

  /* ------------------------------------------------------------- list facts */

  lemma {:induction false} RemoveMembers<K(!new)>(s: seq<K>, k: K)
    ensures forall x :: x in Remove(s, k) <==> x in s && x != k
    ensures k !in s ==> Remove(s, k) == s
  {
    if s != [] {
      RemoveMembers(s[1..], k);
      assert s == [s[0]] + s[1..];
    }
  }

  lemma {:induction false} RemoveNoDup<K(!new)>(s: seq<K>, k: K)
    requires NoDup(s)
    ensures NoDup(Remove(s, k))
    ensures |Remove(s, k)| == if k in s then |s| - 1 else |s|
  {
    if s != [] {
      assert s == [s[0]] + s[1..] && s[0] !in s[1..];
      RemoveNoDup(s[1..], k);
      RemoveMembers(s[1..], k);
    }
  }

  lemma {:induction false} RemoveAppend<K(!new)>(s: seq<K>, t: seq<K>, k: K)
    ensures Remove(s + t, k) == Remove(s, k) + Remove(t, k)
  {
    if s == [] {
      assert s + t == t;
    } else {
      assert (s + t)[1..] == s[1..] + t;
      RemoveAppend(s[1..], t, k);
    }
  }

  lemma TouchNoDup<K(!new)>(s: seq<K>, k: K)
    requires NoDup(s)
    ensures NoDup(Touch(s, k))
    ensures |Touch(s, k)| == if k in s then |s| else |s| + 1
  {
    RemoveMembers(s, k);
    RemoveNoDup(s, k);
  }

  lemma {:induction false} NoDupIsSet<K(!new)>(s: seq<K>)
    requires NoDup(s)
    ensures |Keys(s)| == |s|
  {
    if s != [] {
      var t := s[..|s| - 1];
      NoDupIsSet(t);
      assert s == t + [s[|s| - 1]];
      KeysSnoc(t, s[|s| - 1]);
    }
  }

  /* ------------------------------------------------------ the stack property */

  /** Serving a request commutes with keeping only the youngest c keys. */
  lemma YoungestStep<K(!new)>(s: seq<K>, k: K, c: nat)
    requires NoDup(s) && c >= 1
    ensures Step(Youngest(s, c), k, c) == Youngest(Touch(s, k), c)
  {
    if |s| <= c {
      RemoveMembers(s, k);
      TouchNoDup(s, k);
    } else {
      var p, q := s[..|s| - c], s[|s| - c..];
      assert s == p + q;
      YoungestStepSplit(p, q, k);
    }
  }

  lemma NoDupSuffix<K(!new)>(p: seq<K>, q: seq<K>)
    requires NoDup(p + q)
    ensures NoDup(q)
  {
    forall i, j | 0 <= i < j < |q| ensures q[i] != q[j] {
      assert (p + q)[|p| + i] == q[i] && (p + q)[|p| + j] == q[j];
    }
  }

  lemma YoungestStepSplit<K(!new)>(p: seq<K>, q: seq<K>, k: K)
    requires NoDup(p + q) && q != []
    ensures Step(q, k, |q|) == Youngest(Touch(p + q, k), |q|)
  {
    hide Remove, NoDup, Youngest;
    RemoveAppend(p, q, k);
    NoDupSuffix(p, q);
    RemoveNoDup(q, k);
    var r := Remove(p, k);
    if k in q {
      YoungestOfAppend(r, Remove(q, k) + [k]);
      assert Touch(p + q, k) == r + (Remove(q, k) + [k]);
    } else {
      RemoveMembers(q, k);
      YoungestOfAppend(r + q[..1], q[1..] + [k]);
      assert r + q + [k] == (r + q[..1]) + (q[1..] + [k]);
    }
  }

  lemma YoungestOfAppend<K(!new)>(s: seq<K>, t: seq<K>)
    ensures Youngest(s + t, |t|) == t
  {
    if s == [] { assert s + t == t; }
  }

  /** At every moment the cache of capacity c holds exactly the c most recently requested keys. */
  lemma {:induction false} RunIsYoungest<K(!new)>(s: seq<K>, trace: seq<K>, c: nat)
    requires c >= 1 && NoDup(s) && |s| <= c
    ensures NoDup(Recency(s, trace))
    ensures Run(s, trace, c) == Youngest(Recency(s, trace), c)
  {
    if trace != [] {
      var t, k := trace[..|trace| - 1], trace[|trace| - 1];
      RunIsYoungest(s, t, c);
      TouchNoDup(Recency(s, t), k);
      YoungestStep(Recency(s, t), k, c);
    }
  }

  lemma YoungestMembers<K(!new)>(s: seq<K>, c: nat)
    ensures forall k :: k in Youngest(s, c) ==> k in Youngest(s, c + 1)
  {
    if |s| > c {
      assert s[|s| - (c + 1)..] == [s[|s| - (c + 1)]] + s[|s| - c..];
    }
  }

  /** Inclusion: what a cache of c slots holds is also held with c + 1. */
  lemma LruInclusion<K(!new)>(trace: seq<K>, c: nat)
    requires c >= 1
    ensures forall k :: k in Run([], trace, c) ==> k in Run([], trace, c + 1)
  {
    RunIsYoungest([], trace, c);
    RunIsYoungest([], trace, c + 1);
    var r := Recency([], trace);
    YoungestMembers(r, c);
    assert Run([], trace, c) == Youngest(r, c) && Run([], trace, c + 1) == Youngest(r, c + 1);
  }

  lemma {:induction false} LruHitsMonotone<K(!new)>(trace: seq<K>, c: nat)
    requires c >= 1
    ensures RunHits([], trace, c) <= RunHits([], trace, c + 1)
  {
    if trace != [] {
      var t, k := trace[..|trace| - 1], trace[|trace| - 1];
      LruHitsMonotone(t, c);
      assert k in Run([], t, c) ==> k in Run([], t, c + 1) by { LruInclusion(t, c); }
    }
  }

  lemma {:induction false} RecencyMembers<K(!new)>(s: seq<K>, trace: seq<K>)
    ensures forall k :: k in Recency(s, trace) <==> k in trace || k in s
  {
    if trace != [] {
      var t, k := trace[..|trace| - 1], trace[|trace| - 1];
      RecencyMembers(s, t);
      RemoveMembers(Recency(s, t), k);
      assert trace == t + [k];
    }
  }

  lemma RecencySize<K(!new)>(trace: seq<K>)
    ensures |Recency([], trace)| == |Keys(trace)|
  {
    var r := Recency([], trace);
    RunIsYoungest([], trace, 1);
    NoDupIsSet(r);
    RecencyMembers([], trace);
    assert Keys(trace) == Keys(r);
  }

  /** With room for every distinct key, LRU misses each of them once and never again. */
  lemma {:induction false} LruWithRoom<K(!new)>(trace: seq<K>, c: nat)
    requires c >= 1 && |Keys(trace)| <= c
    ensures RunHits([], trace, c) == |trace| - |Keys(trace)|
  {
    if trace != [] {
      var t, k := trace[..|trace| - 1], trace[|trace| - 1];
      var st := Keys(t);
      assert trace == t + [k];
      KeysSnoc(t, k);
      assert |st + {k}| == if k in st then |st| else |st| + 1 by {
        if k in st { assert st + {k} == st; }
      }
      LruWithRoom(t, c);
      RunIsYoungest([], t, c);
      RecencySize(t);
      RecencyMembers([], t);
    }
  }

  /* -------------------------------------------------------- what a run keeps */

  function RemoveAll<K(==, !new)>(s: seq<K>, ks: seq<K>): seq<K> {
    if ks == [] then s else Remove(RemoveAll(s, ks[..|ks| - 1]), ks[|ks| - 1])
  }

  /** The keys of a run sit, in their own recency order, after everything older. */
  lemma {:induction false} RecencySplit<K(!new)>(s: seq<K>, trace: seq<K>)
    ensures Recency(s, trace) == RemoveAll(s, trace) + Recency([], trace)
  {
    if trace != [] {
      var t, k := trace[..|trace| - 1], trace[|trace| - 1];
      RecencySplit(s, t);
      RemoveAppend(RemoveAll(s, t), Recency([], t), k);
    }
  }

  /** A run of requests with no more distinct keys than slots never evicts a key of the run. */
  lemma RunKeepsItsKeys<K(!new)>(s: seq<K>, trace: seq<K>, cap: nat)
    requires cap >= 1 && NoDup(s) && |s| <= cap && |Keys(trace)| <= cap
    ensures forall k :: k in trace ==> k in Run(s, trace, cap)
  {
    RunIsYoungest(s, trace, cap);
    RecencySplit(s, trace);
    RecencySize(trace);
    var old_, young := RemoveAll(s, trace), Recency([], trace);
    forall k | k in trace ensures k in Youngest(old_ + young, cap) {
      RecencyMembers([], trace);
      var i :| 0 <= i < |young| && young[i] == k;
      var at := |Youngest(old_ + young, cap)| - |young| + i;
      assert Youngest(old_ + young, cap)[at] == k;
    }
  }
}
