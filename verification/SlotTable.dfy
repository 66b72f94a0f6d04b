/** The slot bookkeeping of the expert cache as values: which slot holds which key, when it was
    last used, and what that says about recency (src/cache/k3_cache.c).  Every change the
    cache makes is one of the five functions below. */
module SlotTable {
  import opened LruOrder

  const EMPTY: int := -1
  const INFLIGHT: int := -2

  datatype Slots = Slots(slotOf: seq<int>, keyOf: seq<int>, usedAt: seq<nat>, pinned: seq<bool>, clock: nat)

  ghost predicate SlotOk(s: Slots, i: nat)
    requires i < |s.keyOf| == |s.usedAt| == |s.pinned|
  {
    && INFLIGHT <= s.keyOf[i] < |s.slotOf|
    && (s.keyOf[i] >= 0 ==> s.slotOf[s.keyOf[i]] == i)
    && (s.pinned[i] ==> s.keyOf[i] >= 0)
    && s.usedAt[i] <= s.clock
  }

  ghost predicate KeyOk(s: Slots, k: nat)
    requires k < |s.slotOf|
  {
    s.slotOf[k] == -1 || (0 <= s.slotOf[k] < |s.keyOf| && s.keyOf[s.slotOf[k]] == k)
  }

  /** slotOf and keyOf are inverse, a pinned slot holds a key, and no two slots in use carry
      the same stamp. */
  ghost predicate Inv(s: Slots) {
    && |s.keyOf| == |s.usedAt| == |s.pinned|
    && (forall i :: 0 <= i < |s.keyOf| ==> SlotOk(s, i))
    && (forall k :: 0 <= k < |s.slotOf| ==> KeyOk(s, k))
    && (forall i, j :: 0 <= i < j < |s.keyOf| && s.keyOf[i] != EMPTY && s.keyOf[j] != EMPTY ==>
      s.usedAt[i] != s.usedAt[j])
  }

  predicate Resident(s: Slots, k: int) {
    0 <= k < |s.slotOf| && s.slotOf[k] >= 0
  }

  predicate PinnedKey(s: Slots, k: int) {
    Resident(s, k) && s.slotOf[k] < |s.pinned| && s.pinned[s.slotOf[k]]
  }

  /** Resident and not pinned. */
  predicate Loose(s: Slots, k: int) {
    Resident(s, k) && !PinnedKey(s, k)
  }

  function StampOf(s: Slots, k: int): nat {
    if Resident(s, k) && s.slotOf[k] < |s.usedAt| then s.usedAt[s.slotOf[k]] else 0
  }

  /** q lists the unpinned resident keys, least recently used first. */
  ghost predicate Ranks(s: Slots, q: seq<int>) {
    && NoDup(q)
    && (forall k :: k in q <==> Loose(s, k))
    && (forall i, j :: 0 <= i < j < |q| ==> StampOf(s, q[i]) < StampOf(s, q[j]))
  }

  /* ------------------------------------------------------------------ the changes */

  function Hit(s: Slots, slot: nat): Slots
    requires slot < |s.usedAt|
  {
    s.(usedAt := s.usedAt[slot := s.clock + 1], clock := s.clock + 1)
  }

  /** Forget what the slot holds. */
  function Unlink(s: Slots, slot: nat): (u: seq<int>)
    requires slot < |s.keyOf|
    ensures |u| == |s.slotOf|
  {
    if 0 <= s.keyOf[slot] < |s.slotOf| then s.slotOf[s.keyOf[slot] := -1] else s.slotOf
  }

  function Clear(s: Slots, slot: nat): Slots
    requires slot < |s.keyOf|
  {
    s.(slotOf := Unlink(s, slot), keyOf := s.keyOf[slot := EMPTY])
  }

  function Reserve(s: Slots, slot: nat): Slots
    requires slot < |s.keyOf| == |s.usedAt|
  {
    Slots(Unlink(s, slot), s.keyOf[slot := INFLIGHT], s.usedAt[slot := s.clock + 1], s.pinned, s.clock + 1)
  }

  function Occupy(s: Slots, slot: nat, key: nat): Slots
    requires slot < |s.keyOf| == |s.usedAt| && key < |s.slotOf|
  {
    Slots(s.slotOf[key := slot], s.keyOf[slot := key], s.usedAt[slot := s.clock + 1], s.pinned, s.clock + 1)
  }

  function SetPin(s: Slots, slot: nat, pin: bool): Slots
    requires slot < |s.pinned|
  {
    s.(pinned := s.pinned[slot := pin])
  }

  /* ------------------------------------------------- every change keeps the invariant */

  lemma HitInv(s: Slots, slot: nat)
    requires Inv(s) && slot < |s.keyOf|
    ensures Inv(Hit(s, slot))
  {
    var t := Hit(s, slot);
    forall i | 0 <= i < |t.keyOf| ensures SlotOk(t, i)
        && (i != slot ==> t.usedAt[i] <= s.clock) { assert SlotOk(s, i); }
    forall k | 0 <= k < |t.slotOf| ensures KeyOk(t, k) { assert KeyOk(s, k); }
  }

  lemma ClearInv(s: Slots, slot: nat)
    requires Inv(s) && slot < |s.keyOf| && !s.pinned[slot]
    ensures Inv(Clear(s, slot))
  {
    var t := Clear(s, slot);
    assert SlotOk(s, slot);
    forall i | 0 <= i < |t.keyOf| ensures SlotOk(t, i) { assert SlotOk(s, i); }
    forall k | 0 <= k < |t.slotOf| ensures KeyOk(t, k) { assert KeyOk(s, k); }
  }

  lemma ReserveInv(s: Slots, slot: nat)
    requires Inv(s) && slot < |s.keyOf| && !s.pinned[slot]
    ensures Inv(Reserve(s, slot))
  {
    var t := Reserve(s, slot);
    assert SlotOk(s, slot);
    forall i | 0 <= i < |t.keyOf| ensures SlotOk(t, i)
        && (i != slot ==> t.usedAt[i] <= s.clock) { assert SlotOk(s, i); }
    forall k | 0 <= k < |t.slotOf| ensures KeyOk(t, k) { assert KeyOk(s, k); }
  }

  lemma OccupyInv(s: Slots, slot: nat, key: nat)
    requires Inv(s) && slot < |s.keyOf| && key < |s.slotOf| && s.keyOf[slot] < 0 && s.slotOf[key] == -1
    ensures Inv(Occupy(s, slot, key))
  {
    var t := Occupy(s, slot, key);
    assert SlotOk(s, slot);
    forall i | 0 <= i < |t.keyOf| ensures SlotOk(t, i)
        && (i != slot ==> t.usedAt[i] <= s.clock) { assert SlotOk(s, i); }
    forall k | 0 <= k < |t.slotOf| ensures KeyOk(t, k) { assert KeyOk(s, k); }
  }

  lemma SetPinInv(s: Slots, slot: nat, pin: bool)
    requires Inv(s) && slot < |s.keyOf| && s.keyOf[slot] >= 0
    ensures Inv(SetPin(s, slot, pin))
  {
    var t := SetPin(s, slot, pin);
    forall i | 0 <= i < |t.keyOf| ensures SlotOk(t, i) { assert SlotOk(s, i); }
    forall k | 0 <= k < |t.slotOf| ensures KeyOk(t, k) { assert KeyOk(s, k); }
  }

  /* -------------------------------------------------------- and moves the order like this */

  /** Everything in the list was stamped before now. */
  lemma StampsPast(s: Slots, k: int)
    requires Inv(s) && Resident(s, k)
    ensures s.slotOf[k] < |s.keyOf| && s.keyOf[s.slotOf[k]] == k && StampOf(s, k) <= s.clock
  {
    assert KeyOk(s, k);
    assert SlotOk(s, s.slotOf[k]);
  }

  /** Dropping a key keeps the list sorted by stamp. */
  lemma {:induction false} RemoveKeepsOrder(s: Slots, q: seq<int>, k: int)
    requires NoDup(q) && forall i, j :: 0 <= i < j < |q| ==> StampOf(s, q[i]) < StampOf(s, q[j])
    ensures forall i, j :: 0 <= i < j < |Remove(q, k)| ==> StampOf(s, Remove(q, k)[i]) < StampOf(s, Remove(q, k)[j])
  {
    if q != [] {
      RemoveKeepsOrder(s, q[1..], k);
      RemoveMembers(q[1..], k);
      if q[0] != k {
        var r := Remove(q[1..], k);
        forall j | 0 <= j < |r| ensures StampOf(s, q[0]) < StampOf(s, r[j]) {
          assert r[j] in q[1..];
          var i :| 0 <= i < |q[1..]| && q[1..][i] == r[j];
          assert q[i + 1] == r[j];
        }
      }
    }
  }

  /** Appending a key with the newest stamp, after dropping it, is `Touch`. */
  lemma RankTouched(s: Slots, t: Slots, q: seq<int>, k: int)
    requires Ranks(s, q) && Loose(t, k) && (forall x :: x != k ==> (Loose(t, x) <==> Loose(s, x)))
    requires forall x :: x in q && x != k ==> StampOf(t, x) == StampOf(s, x) < StampOf(t, k)
    ensures Ranks(t, Touch(q, k))
  {
    var r := Remove(q, k);
    RemoveMembers(q, k);
    RemoveNoDup(q, k);
    RemoveKeepsOrder(s, q, k);
    assert Touch(q, k) == r + [k];
    forall i | 0 <= i < |r| ensures r[i] in q && r[i] != k { assert r[i] in r; }
  }

  /** What is left when one key stops being loose. */
  lemma RankDropped(s: Slots, t: Slots, q: seq<int>, k: int)
    requires Ranks(s, q) && !Loose(t, k) && (forall x :: x != k ==> (Loose(t, x) <==> Loose(s, x)))
    requires forall x :: x in q && x != k ==> StampOf(t, x) == StampOf(s, x)
    ensures Ranks(t, Remove(q, k))
  {
    var r := Remove(q, k);
    RemoveMembers(q, k);
    RemoveNoDup(q, k);
    RemoveKeepsOrder(s, q, k);
    forall i | 0 <= i < |r| ensures r[i] in q && r[i] != k { assert r[i] in r; }
  }

  lemma RankSame(s: Slots, t: Slots, q: seq<int>)
    requires Ranks(s, q) && (forall x :: Loose(t, x) <==> Loose(s, x))
    requires forall x :: x in q ==> StampOf(t, x) == StampOf(s, x)
    ensures Ranks(t, q)
  {
    forall i | 0 <= i < |q| ensures StampOf(t, q[i]) == StampOf(s, q[i]) { assert q[i] in q; }
  }

  lemma {:induction false} RemoveHead(q: seq<int>)
    requires NoDup(q) && q != []
    ensures Remove(q, q[0]) == q[1..]
  {
    RemoveMembers(q[1..], q[0]);
  }

  lemma HitRanks(s: Slots, q: seq<int>, k: int)
    requires Inv(s) && Ranks(s, q) && Resident(s, k) && s.slotOf[k] < |s.usedAt|
    ensures Ranks(Hit(s, s.slotOf[k]), if PinnedKey(s, k) then q else Touch(q, k))
  {
    var t := Hit(s, s.slotOf[k]);
    StampsPast(s, k);
    forall x | Resident(s, x) ensures x != k ==> StampOf(t, x) == StampOf(s, x) <= s.clock { StampsPast(s, x); }
    if PinnedKey(s, k) { RankSame(s, t, q); } else { RankTouched(s, t, q, k); }
  }

  /** Emptying or reserving a slot that holds nothing changes no recency; one that holds a
      loose key drops that key. */
  lemma ClearRanks(s: Slots, q: seq<int>, slot: nat)
    requires Inv(s) && Ranks(s, q) && slot < |s.keyOf| && !s.pinned[slot]
    ensures Ranks(Clear(s, slot), Remove(q, s.keyOf[slot])) && Ranks(Reserve(s, slot), Remove(q, s.keyOf[slot]))
  {
    var k := s.keyOf[slot];
    assert SlotOk(s, slot);
    forall x | Resident(s, x) && x != k ensures s.slotOf[x] != slot && s.slotOf[x] < |s.keyOf| { StampsPast(s, x); }
    VacatedRanks(s, Clear(s, slot), q, slot);
    VacatedRanks(s, Reserve(s, slot), q, slot);
  }

  lemma VacatedRanks(s: Slots, t: Slots, q: seq<int>, slot: nat)
    requires Inv(s) && Ranks(s, q) && slot < |s.keyOf| && !s.pinned[slot]
    requires t.slotOf == Unlink(s, slot) && t.pinned == s.pinned && |t.usedAt| == |s.usedAt|
    requires forall i :: 0 <= i < |s.usedAt| && i != slot ==> t.usedAt[i] == s.usedAt[i]
    ensures Ranks(t, Remove(q, s.keyOf[slot]))
  {
    var k := s.keyOf[slot];
    assert SlotOk(s, slot);
    forall x | x != k
      ensures Loose(t, x) <==> Loose(s, x)
      ensures x in q ==> StampOf(t, x) == StampOf(s, x)
    {
      if Resident(s, x) { StampsPast(s, x); }
    }
    if k < 0 {
      RemoveMembers(q, k);
      RankSame(s, t, q);
    } else {
      RankDropped(s, t, q, k);
    }
  }

  lemma OccupyRanks(s: Slots, q: seq<int>, slot: nat, key: nat)
    requires Inv(s) && Ranks(s, q) && slot < |s.keyOf| && key < |s.slotOf|
    requires s.keyOf[slot] < 0 && s.slotOf[key] == -1
    ensures Ranks(Occupy(s, slot, key), q + [key])
  {
    var t := Occupy(s, slot, key);
    assert SlotOk(s, slot);
    forall x | x != key
      ensures Loose(t, x) <==> Loose(s, x)
      ensures x in q ==> StampOf(t, x) == StampOf(s, x) <= s.clock
    {
      if Resident(s, x) { StampsPast(s, x); }
    }
    RankTouched(s, t, q, key);
    RemoveMembers(q, key);
  }

  lemma PinRanks(s: Slots, q: seq<int>, k: int)
    requires Inv(s) && Ranks(s, q) && Resident(s, k) && s.slotOf[k] < |s.pinned|
    ensures Ranks(SetPin(s, s.slotOf[k], true), Remove(q, k))
  {
    var t := SetPin(s, s.slotOf[k], true);
    StampsPast(s, k);
    forall x | x != k && Resident(s, x) ensures Loose(t, x) <==> Loose(s, x) { StampsPast(s, x); }
    RankDropped(s, t, q, k);
  }

  /** An unpinned key comes back at the place its stamp gives it. */
  lemma {:induction false} UnpinRanks(s: Slots, q: seq<int>, k: int) returns (r: seq<int>)
    requires Inv(s) && Ranks(s, q) && Resident(s, k) && s.slotOf[k] < |s.pinned|
    ensures Ranks(SetPin(s, s.slotOf[k], false), r) && Remove(r, k) == Remove(q, k)
  {
    var t := SetPin(s, s.slotOf[k], false);
    StampsPast(s, k);
    forall x | x != k && Resident(s, x) ensures Loose(t, x) <==> Loose(s, x) { StampsPast(s, x); }
    if Loose(s, k) {
      RankSame(s, t, q);
      r := q;
    } else {
      forall x | x in q ensures StampOf(s, x) != StampOf(s, k) {
        StampsPast(s, x);
        var i, j := s.slotOf[x], s.slotOf[k];
        if i < j { assert s.keyOf[i] != EMPTY && s.keyOf[j] != EMPTY; }
        if j < i { assert s.keyOf[i] != EMPTY && s.keyOf[j] != EMPTY; }
      }
      r := InsertByStamp(s, q, k);
      RemoveMembers(q, k);
      assert forall x :: StampOf(t, x) == StampOf(s, x);
    }
  }

  lemma {:induction false} InsertByStamp(s: Slots, q: seq<int>, k: int) returns (r: seq<int>)
    requires NoDup(q) && k !in q && forall x :: x in q ==> StampOf(s, x) != StampOf(s, k)
    requires forall i, j :: 0 <= i < j < |q| ==> StampOf(s, q[i]) < StampOf(s, q[j])
    ensures NoDup(r) && (forall x :: x in r <==> x in q || x == k) && Remove(r, k) == q
    ensures forall i, j :: 0 <= i < j < |r| ==> StampOf(s, r[i]) < StampOf(s, r[j])
  {
    if q == [] || StampOf(s, k) < StampOf(s, q[0]) {
      r := [k] + q;
      assert r[1..] == q;
      RemoveMembers(q, k);
    } else {
      var p := InsertByStamp(s, q[1..], k);
      r := [q[0]] + p;
      assert r[1..] == p && q == [q[0]] + q[1..] && q[0] in q;
      forall j | 0 <= j < |p| ensures StampOf(s, q[0]) < StampOf(s, p[j]) && p[j] != q[0] {
        assert p[j] in p;
        if p[j] != k {
          var i :| 0 <= i < |q| - 1 && q[1..][i] == p[j];
          assert q[i + 1] == p[j];
        }
      }
    }
  }

  /* ------------------------------------------------------------------ counting slots */

  datatype Kind = Free | Busy | Fixed | Open

  function KindOf(s: Slots, i: nat): Kind
    requires i < |s.keyOf| == |s.pinned|
  {
    if s.keyOf[i] == EMPTY then Free else if s.keyOf[i] == INFLIGHT then Busy
    else if s.pinned[i] then Fixed else Open
  }

  /** How many of the first n slots are of this kind. */
  function Count(s: Slots, kind: Kind, n: nat): nat
    requires n <= |s.keyOf| == |s.pinned|
  {
    if n == 0 then 0 else Count(s, kind, n - 1) + if KindOf(s, n - 1) == kind then 1 else 0
  }

  lemma {:induction false} CountAll(s: Slots, n: nat)
    requires n <= |s.keyOf| == |s.pinned|
    ensures Count(s, Free, n) + Count(s, Busy, n) + Count(s, Fixed, n) + Count(s, Open, n) == n
  {
    if n > 0 { CountAll(s, n - 1); }
  }

  lemma {:induction false} CountNone(s: Slots, kind: Kind, n: nat)
    requires n <= |s.keyOf| == |s.pinned|
    ensures Count(s, kind, n) == 0 <==> forall i :: 0 <= i < n ==> KindOf(s, i) != kind
  {
    if n > 0 { CountNone(s, kind, n - 1); }
  }

  /** One slot changes kind. */
  lemma {:induction false} CountChange(s: Slots, t: Slots, slot: nat, kind: Kind, n: nat)
    requires n <= |s.keyOf| == |s.pinned| && |t.keyOf| == |t.pinned| == |s.keyOf| && slot < |s.keyOf|
    requires forall i :: 0 <= i < |s.keyOf| && i != slot ==> KindOf(t, i) == KindOf(s, i)
    ensures Count(t, kind, n) == Count(s, kind, n)
            - (if slot < n && KindOf(s, slot) == kind then 1 else 0) + (if slot < n && KindOf(t, slot) == kind then 1
              else 0)
  {
    if n > 0 { CountChange(s, t, slot, kind, n - 1); }
  }

  function OpenKeys(s: Slots, n: nat): set<int>
    requires n <= |s.keyOf| == |s.pinned|
  {
    if n == 0 then {} else OpenKeys(s, n - 1) + if KindOf(s, n - 1) == Open then {s.keyOf[n - 1]} else {}
  }

  lemma {:induction false} OpenKeysMembers(s: Slots, n: nat)
    requires Inv(s) && n <= |s.keyOf|
    ensures forall k :: k in OpenKeys(s, n) <==> Loose(s, k) && s.slotOf[k] < n
    ensures |OpenKeys(s, n)| == Count(s, Open, n)
  {
    if n > 0 {
      OpenKeysMembers(s, n - 1);
      assert SlotOk(s, n - 1);
      forall k | Loose(s, k) && s.slotOf[k] == n - 1 ensures k == s.keyOf[n - 1] { StampsPast(s, k); }
    }
  }

  /** The list is as long as there are slots holding a loose key. */
  lemma RanksCount(s: Slots, q: seq<int>)
    requires Inv(s) && Ranks(s, q)
    ensures |q| == Count(s, Open, |s.keyOf|)
  {
    OpenKeysMembers(s, |s.keyOf|);
    NoDupIsSet(q);
    forall k ensures k in Keys(q) <==> k in OpenKeys(s, |s.keyOf|) {
      if Loose(s, k) { StampsPast(s, k); }
      assert k in q <==> Loose(s, k);
    }
    assert Keys(q) == OpenKeys(s, |s.keyOf|);
  }

  /* ------------------------------------------------------------------ the victim */

  /** What `pick_victim` promises of the slot it returns, -1 for none. */
  ghost predicate Victim(s: Slots, r: int)
    requires |s.keyOf| == |s.usedAt| == |s.pinned|
  {
    if r == -1 then forall i :: 0 <= i < |s.keyOf| ==> KindOf(s, i) != Free && KindOf(s, i) != Open
    else
      && 0 <= r < |s.keyOf|
      && (KindOf(s, r) == Free ||
          (KindOf(s, r) == Open && forall i :: 0 <= i < |s.keyOf| ==>
             KindOf(s, i) != Free && (KindOf(s, i) == Open ==> s.usedAt[r] <= s.usedAt[i])))
  }

  /** A free slot while there is one, then the slot of the least recently used loose key;
      none exactly when every slot is pinned or being read into. */
  lemma VictimIsOldest(s: Slots, q: seq<int>, r: int)
    requires Inv(s) && Ranks(s, q) && Victim(s, r)
    ensures r == -1 <==> Count(s, Free, |s.keyOf|) == 0 && q == []
    ensures r >= 0 ==> r < |s.keyOf| && !s.pinned[r]
    ensures r >= 0 && Count(s, Free, |s.keyOf|) > 0 ==> s.keyOf[r] == EMPTY && Remove(q, s.keyOf[r]) == q
    ensures r >= 0 && Count(s, Free, |s.keyOf|) == 0 ==> q != [] && s.keyOf[r] == q[0] && Remove(q, q[0]) == q[1..]
  {
    CountNone(s, Free, |s.keyOf|);
    CountNone(s, Open, |s.keyOf|);
    RanksCount(s, q);
    if r >= 0 {
      assert SlotOk(s, r);
      var k := s.keyOf[r];
      if k == EMPTY {
        RemoveMembers(q, k);
      } else {
        OldestFirst(s, q, r);
        RemoveHead(q);
      }
    }
  }

  lemma OldestFirst(s: Slots, q: seq<int>, r: nat)
    requires Inv(s) && Ranks(s, q) && Victim(s, r) && KindOf(s, r) == Open
    ensures q != [] && s.keyOf[r] == q[0]
  {
    assert SlotOk(s, r);
    assert s.keyOf[r] in q && q[0] in q;
    StampsPast(s, q[0]);
    var i := s.slotOf[q[0]];
    assert KindOf(s, i) == Open;
    var j :| 0 <= j < |q| && q[j] == s.keyOf[r];
  }
}
