/** The index of tensor names built by `k3_st_open` and searched by `k3_st_find`
    (src/io/k3_st.c): open addressing, linear probing, never more than half full. */
module TensorIndex {
  import opened Common
  import opened StateHash

  type Name = seq<byte>

  const BASIS: nat := 1469598103934665603

  /* ------------------------------------------------------------------ hashing and masking */

  function Fnv(name: Name): (h: nat)
    ensures h < MODULUS
  {
    if name == [] then BASIS else Mix(Fnv(name[..|name| - 1]), name[|name| - 1])
  }

  method HashName(name: Name) returns (h: nat)
    ensures h == Fnv(name)
  {
    h := BASIS;
    for i := 0 to |name|
      invariant h == Fnv(name[..i])
    {
      assert name[..i + 1][..i] == name[..i];
      h := Mix(h, name[i]);
    }
    assert name[..|name|] == name;
  }

  function And(a: nat, b: nat): nat {
    if a == 0 || b == 0 then 0 else 2 * And(a / 2, b / 2) + (a % 2) * (b % 2)
  }

  /** Masking with a power of two less one is the remainder. */
  lemma {:induction false} MaskIsMod(a: nat, k: nat)
    ensures Pow2(k) > 0 && And(a, Pow2(k) - 1) == a % Pow2(k)
  {
    if k > 0 {
      MaskIsMod(a / 2, k - 1);
      OddHalves(Pow2(k - 1));
      HalfMod(a, Pow2(k - 1));
    }
  }

  lemma OddHalves(p: nat)
    requires p > 0
    ensures (2 * p - 1) / 2 == p - 1 && (2 * p - 1) % 2 == 1
  {
  }

  lemma HalfMod(a: nat, p: nat)
    requires p > 0
    ensures a % (2 * p) == 2 * ((a / 2) % p) + a % 2
  {
    var q, r := (a / 2) / p, (a / 2) % p;
    assert a / 2 == q * p + r;
    assert a == q * (2 * p) + (2 * r + a % 2);
    RemainderUnique(a, 2 * p, q, 2 * r + a % 2);
  }

  lemma RemainderUnique(a: nat, n: nat, q: nat, r: nat)
    requires n > 0 && a == q * n + r && r < n
    ensures a % n == r
  {
    DivisionParts(a, n);
    DivisionUnique(n, q, r, a / n, a % n);
  }

  lemma DivisionParts(a: nat, n: nat)
    requires n > 0
    ensures a == (a / n) * n + a % n && a % n < n
  {
  }

  lemma DivisionUnique(n: nat, q: nat, r: nat, p: nat, t: nat)
    requires q * n + r == p * n + t && r < n && t < n
    ensures r == t
  {
    if q < p { TimesLess(q, p, n); }
    if p < q { TimesLess(p, q, n); }
  }

  lemma TimesLess(q: nat, p: nat, n: nat)
    requires q < p
    ensures q * n + n <= p * n
  {
    assert q * n + n == (q + 1) * n <= p * n;
  }

  /* ------------------------------------------------------------------ the table */

  ghost predicate Distinct(names: seq<Name>) {
    forall i, j :: 0 <= i < j < |names| ==> names[i] != names[j]
  }

  /** The bucket d steps after `home`. */
  function Slot(home: nat, d: nat, nb: nat): (j: nat)
    requires home < nb && d < nb
    ensures j < nb
  {
    if home + d < nb then home + d else home + d - nb
  }

  function Home(name: Name, nb: nat): (j: nat)
    requires nb > 0
    ensures j < nb
  {
    Fnv(name) % nb
  }

  /** Every bucket from `home` up to, not including, the one d steps on is taken. */
  ghost predicate Taken(b: seq<int>, home: nat, d: nat)
    requires home < |b| && d <= |b|
  {
    forall e: nat :: e < d ==> b[Slot(home, e, |b|)] >= 0
  }

  /** Probing from `home` meets k. */
  ghost predicate Reaches(b: seq<int>, home: nat, k: nat) {
    home < |b| && exists d: nat :: d < |b| && b[Slot(home, d, |b|)] == k && Taken(b, home, d)
  }

  function Filled(b: seq<int>): nat {
    if b == [] then 0 else Filled(b[..|b| - 1]) + if b[|b| - 1] >= 0 then 1 else 0
  }

  /** The table holds exactly the indices below n, each where probing for its name finds it. */
  ghost predicate Holds(names: seq<Name>, b: seq<int>, n: nat) {
    && n <= |names| && |b| > 0
    && (forall j :: 0 <= j < |b| ==> -1 <= b[j] < n)
    && (forall k: nat :: k < n ==> Reaches(b, Home(names[k], |b|), k))
    && Filled(b) == n
  }

  lemma {:induction false} FilledBound(b: seq<int>)
    ensures Filled(b) <= |b|
    ensures Filled(b) == |b| <==> forall j :: 0 <= j < |b| ==> b[j] >= 0
  {
    if b != [] {
      FilledBound(b[..|b| - 1]);
      assert b == b[..|b| - 1] + [b[|b| - 1]];
    }
  }

  lemma {:induction false} FilledUpdate(b: seq<int>, j: nat, k: int)
    requires j < |b| && b[j] < 0 <= k
    ensures Filled(b[j := k]) == Filled(b) + 1
  {
    if j < |b| - 1 {
      FilledUpdate(b[..|b| - 1], j, k);
      assert b[j := k][..|b| - 1] == b[..|b| - 1][j := k];
    } else {
      assert b[j := k][..|b| - 1] == b[..|b| - 1];
    }
  }

  /** A table that is not full has a free bucket within one round of any home. */
  lemma FreeAhead(b: seq<int>, home: nat)
    requires home < |b| && Filled(b) < |b|
    ensures !Taken(b, home, |b|)
  {
    FilledBound(b);
    var j :| 0 <= j < |b| && b[j] < 0;
    var d: nat := if j >= home then j - home else j - home + |b|;
    assert Slot(home, d, |b|) == j;
  }

  /** Probing that has met only other names and then a free bucket settles it: the name is
      not in the table. */
  lemma Absent(names: seq<Name>, b: seq<int>, n: nat, name: Name, d: nat)
    requires Holds(names, b, n) && d < |b|
    requires Unmatched(names, b, name, d) && b[Slot(Home(name, |b|), d, |b|)] < 0
    ensures forall k :: 0 <= k < n ==> names[k] != name
  {
    forall k | 0 <= k < n ensures names[k] != name {
      if names[k] == name { WouldBeMet(names, b, n, name, d, k); }
    }
  }

  lemma WouldBeMet(names: seq<Name>, b: seq<int>, n: nat, name: Name, d: nat, k: nat)
    requires Holds(names, b, n) && d < |b| && k < n && names[k] == name
    requires Unmatched(names, b, name, d) && b[Slot(Home(name, |b|), d, |b|)] < 0
    ensures false
  {
    var home := Home(name, |b|);
    assert Reaches(b, home, k);
    var e: nat :| e < |b| && b[Slot(home, e, |b|)] == k && Taken(b, home, e);
    assert !(e < d) && !(d < e);
  }

  /** The first d buckets probed for `name` hold other names. */
  ghost predicate Unmatched(names: seq<Name>, b: seq<int>, name: Name, d: nat)
    requires |b| > 0 && d <= |b|
  {
    forall e: nat :: e < d ==>
      var k := b[Slot(Home(name, |b|), e, |b|)];
      0 <= k < |names| && names[k] != name
  }

  /** Putting the next index in the free bucket probing ended at keeps the table. */
  lemma Insert(names: seq<Name>, b: seq<int>, n: nat, d: nat)
    requires Holds(names, b, n) && n < |names| && d < |b|
    requires Unmatched(names, b, names[n], d) && b[Slot(Home(names[n], |b|), d, |b|)] < 0
    ensures Holds(names, b[Slot(Home(names[n], |b|), d, |b|) := n], n + 1)
  {
    var home := Home(names[n], |b|);
    var j := Slot(home, d, |b|);
    var b' := b[j := n];
    FilledUpdate(b, j, n);
    forall k: nat | k < n + 1 ensures Reaches(b', Home(names[k], |b|), k) {
      if k < n {
        StillReaches(b, j, n, Home(names[k], |b|), k);
      } else {
        assert Taken(b', home, d) && b'[Slot(home, d, |b'|)] == n;
      }
    }
  }

  lemma StillReaches(b: seq<int>, j: nat, n: nat, home: nat, k: nat)
    requires j < |b| && b[j] < 0 && Reaches(b, home, k)
    ensures Reaches(b[j := n], home, k)
  {
    var b' := b[j := n];
    var d: nat :| d < |b| && b[Slot(home, d, |b|)] == k && Taken(b, home, d);
    assert Taken(b', home, d) && b'[Slot(home, d, |b'|)] == k;
  }

  /** Walk the probe sequence of `name` to a match or to a free bucket. */
  method Probe(names: seq<Name>, b: array<int>, ghost n: nat, name: Name, ghost bits: nat)
    returns (j: nat, ghost d: nat)
    requires Holds(names, b[..], n) && n < b.Length == Pow2(bits)
    ensures d < b.Length && j == Slot(Home(name, b.Length), d, b.Length) && Unmatched(names, b[..], name, d)
    ensures b[j] >= 0 ==> names[b[j]] == name
    ensures b[j] < 0 <==> forall k :: 0 <= k < n ==> names[k] != name
  {
    hide Fnv, And, Pow2, Filled;
    ghost var nb := b.Length;
    var h := HashName(name);
    MaskIsMod(h, bits);
    j := And(h, b.Length - 1);
    d := 0;
    ghost var home := Home(name, nb);
    while b[j] >= 0
      invariant d < nb && j == Slot(home, d, nb) && Unmatched(names, b[..], name, d)
      decreases nb - d
    {
      if names[b[j]] == name { return; }
      assert Taken(b[..], home, d + 1);
      FreeAhead(b[..], home);
      MaskIsMod(j + 1, bits);
      Wrap(j, nb);
      j, d := And(j + 1, b.Length - 1), d + 1;
    }
    Absent(names, b[..], n, name, d);
  }

  lemma Wrap(j: nat, nb: nat)
    requires j < nb
    ensures (j + 1) % nb == if j + 1 < nb then j + 1 else 0
  {
  }

  lemma {:induction false} FilledNone(b: seq<int>)
    requires forall j :: 0 <= j < |b| ==> b[j] == -1
    ensures Filled(b) == 0
  {
    if b != [] { FilledNone(b[..|b| - 1]); }
  }

  /** The opened checkpoint: its tensor names and their index. */
  class Index {
    const names: seq<Name>
    const bucket: array<int>
    ghost const bits: nat

    ghost predicate Valid()
      reads this, bucket
    {
      Holds(names, bucket[..], |names|) && Distinct(names) && |names| < bucket.Length == Pow2(bits)
    }

    constructor (names: seq<Name>, bucket: array<int>, ghost bits: nat)
      requires Holds(names, bucket[..], |names|) && Distinct(names) && |names| < bucket.Length == Pow2(bits)
      ensures Valid() && this.names == names && this.bucket == bucket
    {
      this.names, this.bucket, this.bits := names, bucket, bits;
    }

    /** The tensor of that name, or -1 exactly when there is none. */
    method Find(name: Name) returns (k: int)
      requires Valid()
      ensures 0 <= k < |names| ==> names[k] == name && forall i :: 0 <= i < |names| && names[i] == name ==> i == k
      ensures k == -1 <==> name !in names
      ensures -1 <= k < |names|
    {
      var j; ghost var d;
      j, d := Probe(names, bucket, |names|, name, bits);
      k := if bucket[j] >= 0 then bucket[j] else -1;
    }
  }

  /** The table size: a power of two, at least 1024 and at least twice the names. */
  method TableSize(nt: nat) returns (nb: nat, ghost bits: nat)
    ensures nb == Pow2(bits) && nb >= 1024 && nb >= 2 * nt
    ensures nb > 1024 ==> nb < 4 * nt
  {
    nb, bits := 1024, 10;
    assert Pow2(10) == 1024 by { assert Pow2(5) == 32; Pow2Sum(5, 5); }
    while nb < nt * 2
      invariant nb == Pow2(bits) && nb >= 1024 && (nb > 1024 ==> nb < 4 * nt)
      decreases nt * 2 - nb
    {
      nb, bits := nb * 2, bits + 1;
    }
  }

  /** Build the index.  It is refused exactly when two tensors share a name. */
  method Open(names: seq<Name>) returns (st: Index?)
    ensures st == null <==> !Distinct(names)
    ensures st != null ==>
            fresh(st) && fresh(st.bucket) && st.Valid() && st.names == names && 2 * |names| <= st.bucket.Length
  {
    hide Fnv, Pow2;
    var nb; ghost var bits;
    nb, bits := TableSize(|names|);
    var bucket := new int[nb](_ => -1);
    FilledNone(bucket[..]);
    for i := 0 to |names|
      invariant bucket.Length == nb && fresh(bucket)
      invariant Holds(names, bucket[..], i) && Distinct(names[..i])
    {
      hide Holds, Unmatched, Distinct;
      var j; ghost var d;
      j, d := Probe(names, bucket, i, names[i], bits);
      if bucket[j] >= 0 {
        Clash(names, bucket[..], i, j);
        return null;
      }
      DistinctSnoc(names, i);
      Insert(names, bucket[..], i, d);
      ghost var was := bucket[..];
      bucket[j] := i;
      assert bucket[..] == was[j := i];
    }
    assert names[..|names|] == names;
    st := new Index(names, bucket, bits);
  }

  lemma Clash(names: seq<Name>, b: seq<int>, n: nat, j: nat)
    requires Holds(names, b, n) && n < |names| && j < |b| && b[j] >= 0 && names[b[j]] == names[n]
    ensures !Distinct(names)
  {
  }

  lemma DistinctSnoc(names: seq<Name>, n: nat)
    requires n < |names| && Distinct(names[..n]) && forall k :: 0 <= k < n ==> names[k] != names[n]
    ensures Distinct(names[..n + 1])
  {
  }
}
