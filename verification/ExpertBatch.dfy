/** The batch prefetch of src/cache/k3_cache.c (`cache_getmany`): reserve slots one by one, read
    into all of them in any order, publish what arrived. */
module ExpertBatch {
  import opened Common
  import opened LruOrder
  import opened SlotTable
  import opened ExpertLoad
  import opened ReadPlan
  import opened Reservation
  import opened ExpertCache
  import CS = CarriedState
  import Interleave

  /** One reservation. */
  datatype Work = Work(slot: nat, key: nat, e: Expert)

  function KeysIn(w: seq<Work>): (ks: seq<int>)
    ensures |ks| == |w|
  {
    seq(|w|, i requires 0 <= i < |w| => w[i].key)
  }

  ghost function PinnedKeys(t: Slots): set<int> {
    set k | 0 <= k < |t.slotOf| && PinnedKey(t, k)
  }

  /* ------------------------------------------------------------------ one reservation */

  lemma ReserveTable(t: Slots, q: seq<int>, slot: nat)
    requires Inv(t) && Ranks(t, q) && Victim(t, slot) && slot < |t.keyOf|
    ensures |t.keyOf| == |t.pinned| == |t.usedAt|
    ensures var t', n, free := Reserve(t, slot), |t.keyOf|, Count(t, Free, |t.keyOf|);
            && t.keyOf[slot] < |t.slotOf| && t.keyOf[slot] != INFLIGHT && (t.keyOf[slot] >= 0 <==> free == 0)
            && (free == 0 ==> q != [])
            && Inv(t') && Ranks(t', if free > 0 then q else q[1..]) && SamePins(t, t')
            && Count(t', Free, n) == (if free > 0 then free - 1 else 0)
            && Count(t', Busy, n) == Count(t, Busy, n) + 1 && Count(t', Fixed, n) == Count(t, Fixed, n)
  {
    hide Ranks, Victim, Count, Remove;
    SizesOf(t);
    var n, t' := |t.keyOf|, Reserve(t, slot);
    assert SlotOk(t, slot);
    VictimIsOldest(t, q, slot);
    if Count(t, Free, n) == 0 { HeadIsThere(t, q); }
    ClearRanks(t, q, slot);
    ReserveInv(t, slot);
    CountChange(t, t', slot, Free, n);
    CountChange(t, t', slot, Busy, n);
    CountChange(t, t', slot, Fixed, n);
    CountNone(t, Free, n);
  }

  /** Publishing or releasing a reserved slot. */
  lemma SettleTable(t: Slots, q: seq<int>, slot: nat, key: nat)
    requires Inv(t) && Ranks(t, q) && slot < |t.keyOf| && t.keyOf[slot] == INFLIGHT && key < |t.slotOf|
             && t.slotOf[key] == -1
    ensures |t.keyOf| == |t.pinned| == |t.usedAt|
    ensures var t', u, n := Occupy(t, slot, key), Clear(t, slot), |t.keyOf|;
            && Inv(t') && Ranks(t', q + [key]) && SamePins(t, t')
            && Inv(u) && Ranks(u, q) && SamePins(t, u) && u.slotOf == t.slotOf
            && Count(t', Busy, n) == Count(u, Busy, n) == Count(t, Busy, n) - 1
            && Count(t', Fixed, n) == Count(u, Fixed, n) == Count(t, Fixed, n)
  {
    hide Ranks, Count, Remove;
    SizesOf(t);
    var t', u, n := Occupy(t, slot, key), Clear(t, slot), |t.keyOf|;
    assert SlotOk(t, slot);
    OccupyInv(t, slot, key);
    OccupyRanks(t, q, slot, key);
    ClearInv(t, slot);
    ClearRanks(t, q, slot);
    NothingToRemove(t, q);
    CountChange(t, t', slot, Busy, n);
    CountChange(t, t', slot, Fixed, n);
    CountChange(t, u, slot, Busy, n);
    CountChange(t, u, slot, Fixed, n);
  }

  lemma NothingToRemove(t: Slots, q: seq<int>)
    requires Ranks(t, q)
    ensures Remove(q, INFLIGHT) == q
  {
    RemoveMembers(q, INFLIGHT);
  }

  /* ------------------------------------------------------------------ the work list */

  /** Reserved for different keys in different slots, none of them resident yet. */
  ghost predicate Pending(st: Store, slotBytes: nat, t: Slots, w: seq<Work>) {
    && (forall i :: 0 <= i < |w| ==> Reserved(st, slotBytes, t, w[i]))
    && (forall i, j :: 0 <= i < j < |w| ==> Differ(w[i], w[j]))
  }

  ghost predicate Reserved(st: Store, slotBytes: nat, t: Slots, x: Work) {
    && x.slot < |t.keyOf| && t.keyOf[x.slot] == INFLIGHT
    && x.key < |t.slotOf| && t.slotOf[x.key] == -1
    && Fits(st, slotBytes, x.key) && st.keyed[x.key] == Some(x.e)
  }

  ghost predicate Differ(x: Work, y: Work) {
    x.slot != y.slot && x.key != y.key
  }

  lemma {:induction false} NoDupCounts<T(!new)>(s: seq<T>)
    ensures NoDup(s) <==> forall x :: multiset(s)[x] <= 1
  {
    if s != [] {
      var t, l := s[..|s| - 1], s[|s| - 1];
      assert s == t + [l];
      NoDupCounts(t);
      assert multiset(s) == multiset(t) + multiset{l};
      assert multiset(t)[l] == 0 <==> l !in t;
      if NoDup(s) {
        assert l !in t;
        forall x ensures multiset(s)[x] <= 1 { assert multiset(t)[x] <= 1; }
      }
      if forall x :: multiset(s)[x] <= 1 {
        forall x ensures multiset(t)[x] <= 1 { assert multiset(s)[x] <= 1; }
        assert multiset(s)[l] <= 1;
      }
    }
  }

  /** Sorting the work list changes nothing about it. */
  lemma PendingPermuted(st: Store, slotBytes: nat, t: Slots, w: seq<Work>, v: seq<Work>)
    requires Pending(st, slotBytes, t, w) && multiset(v) == multiset(w)
    ensures Pending(st, slotBytes, t, v) && |v| == |w|
    ensures forall x :: x in v <==> x in w
  {
    assert |v| == |multiset(v)| == |w|;
    forall x ensures x in v <==> x in w { assert x in v <==> x in multiset(v); }
    NoDupCounts(w);
    NoDupCounts(v);
    forall i | 0 <= i < |v| ensures Reserved(st, slotBytes, t, v[i]) {
      assert v[i] in w;
      var a :| 0 <= a < |w| && w[a] == v[i];
    }
    forall i, j | 0 <= i < j < |v| ensures Differ(v[i], v[j]) {
      assert v[i] in w && v[j] in w && v[i] != v[j];
      var a :| 0 <= a < |w| && w[a] == v[i];
      var b :| 0 <= b < |w| && w[b] == v[j];
      if a < b { assert Differ(w[a], w[b]); } else { assert Differ(w[b], w[a]); }
    }
  }

  /** Disk order: by shard, then by offset. */
  predicate AfterOnDisk(x: Work, y: Work) {
    x.e.r.shard > y.e.r.shard || (x.e.r.shard == y.e.r.shard && x.e.r.off > y.e.r.off)
  }

  ghost predicate DiskSorted(w: seq<Work>) {
    forall i, j :: 0 <= i < j < |w| ==> !AfterOnDisk(w[i], w[j])
  }

  /** The insertion sort before the reads go out. */
  method SortWork(w0: seq<Work>) returns (w: seq<Work>)
    ensures multiset(w) == multiset(w0) && DiskSorted(w)
  {
    hide Shifted, AfterOnDisk, DiskSorted;
    w := w0;
    NothingToSort();
    for i := 0 to |w0|
      invariant |w| == |w0| && multiset(w) == multiset(w0) && DiskSorted(w[..i])
    {
      var t, j := w[i], i - 1;
      ghost var was := w;
      ShiftedNone(was, i);
      while j >= 0 && AfterOnDisk(w[j], t)
        invariant -1 <= j < i && |w| == |was| && Shifted(was, w, i, j) && (j >= 0 ==> w[j] == was[j])
        invariant forall k :: j < k < i ==> AfterOnDisk(was[k], t)
      {
        ShiftStep(was, w, i, j);
        w := w[j + 1 := w[j]];
        j := j - 1;
      }
      Inserted(was, w, i, j, t);
      w := w[j + 1 := t];
    }
    assert w[..|w0|] == w;
  }

  /** The entries after j have moved up by one, over entry i. */
  ghost predicate Shifted(was: seq<Work>, w: seq<Work>, i: int, j: int) {
    && |w| == |was|
    && (forall k :: 0 <= k < |was| && (k <= j + 1 || k > i) ==> w[k] == was[k])
    && (forall k :: j + 1 < k <= i && 0 < k < |was| ==> w[k] == was[k - 1])
  }

  lemma ShiftedNone(was: seq<Work>, i: nat)
    requires i < |was|
    ensures Shifted(was, was, i, i - 1)
  {
  }

  lemma ShiftStep(was: seq<Work>, w: seq<Work>, i: nat, j: nat)
    requires j < i < |was| == |w| && Shifted(was, w, i, j)
    ensures w[j] == was[j] && Shifted(was, w[j + 1 := w[j]], i, j - 1)
    ensures j > 0 ==> w[j + 1 := w[j]][j - 1] == was[j - 1]
  {
  }

  lemma NothingToSort()
    ensures DiskSorted([])
  {
  }

  lemma Inserted(was: seq<Work>, w: seq<Work>, i: nat, j: int, t: Work)
    requires -1 <= j < i < |was| == |w| && t == was[i] && DiskSorted(was[..i]) && Shifted(was, w, i, j)
    requires forall k :: j < k < i ==> AfterOnDisk(was[k], t)
    requires j >= 0 ==> !AfterOnDisk(was[j], t)
    ensures multiset(w[j + 1 := t]) == multiset(was) && DiskSorted(w[j + 1 := t][..i + 1])
  {
    InsertedSame(was, w, i, j, t);
    var p := w[j + 1 := t][..i + 1];
    forall x, y | 0 <= x < y < |p| ensures !AfterOnDisk(p[x], p[y]) {
      var a, b := (if x <= j then x else x - 1), (if y <= j then y else y - 1);
      if x == j + 1 {
        assert p[y] == was[y - 1];
      } else if y == j + 1 {
        assert p[x] == was[x];
        if x < j { assert !AfterOnDisk(was[..i][x], was[..i][j]); }
      } else {
        assert p[x] == was[..i][a] && p[y] == was[..i][b];
      }
    }
  }

  lemma InsertedSame(was: seq<Work>, w: seq<Work>, i: nat, j: int, t: Work)
    requires -1 <= j < i < |was| && t == was[i] && Shifted(was, w, i, j)
    ensures multiset(w[j + 1 := t]) == multiset(was)
  {
    ShiftedParts(was, w, i, j, t, w[j + 1 := t]);
    SameBlocks(w[j + 1 := t], was, j + 1, i);
  }

  lemma ShiftedParts(was: seq<Work>, w: seq<Work>, i: nat, j: int, t: Work, v: seq<Work>)
    requires -1 <= j < i < |was| && t == was[i] && Shifted(was, w, i, j) && |w| == |was| && v == w[j + 1 := t]
    ensures |v| == |was| && v[..j + 1] == was[..j + 1] && v[j + 1..j + 2] == was[i..i + 1]
    ensures v[j + 2..i + 1] == was[j + 1..i] && v[i + 1..] == was[i + 1..]
  {
  }

  lemma SameBlocks<T>(v: seq<T>, u: seq<T>, x: nat, i: nat)
    requires x <= i < |u| == |v| && v[..x] == u[..x] && v[x..x + 1] == u[i..i + 1] && v[x + 1..i + 1] == u[x..i]
             && v[i + 1..] == u[i + 1..]
    ensures multiset(v) == multiset(u)
  {
    CountFour(v, x, x + 1, i + 1);
    CountFour(u, x, i, i + 1);
  }

  lemma CountFour<T>(v: seq<T>, x: nat, y: nat, z: nat)
    requires x <= y <= z <= |v|
    ensures multiset(v) == multiset(v[..x]) + multiset(v[x..y]) + multiset(v[y..z]) + multiset(v[z..])
  {
    CountTwo(v, x);
    CountTwo(v[x..], y - x);
    CountTwo(v[y..], z - y);
    assert v[x..][..y - x] == v[x..y] && v[x..][y - x..] == v[y..];
    assert v[y..][..z - y] == v[y..z] && v[y..][z - y..] == v[z..];
  }

  lemma CountTwo<T>(v: seq<T>, x: nat)
    requires x <= |v|
    ensures multiset(v) == multiset(v[..x]) + multiset(v[x..])
  {
    assert v == v[..x] + v[x..];
  }

  /* ------------------------------------------------------------------ phase 1: reserve */

  lemma ReserveState(st: Store, t: Slots, q: seq<int>, refs: seq<Ref>, pads: seq<nat>, arena: seq<byte>,
      slotBytes: nat, slot: nat)
    requires Consistent(st, t, q, refs, pads, arena, slotBytes) && Victim(t, slot) && slot < |t.keyOf|
    ensures |t.keyOf| == |t.pinned| == |t.usedAt|
    ensures Count(t, Free, |t.keyOf|) == 0 ==> q != []
    ensures Consistent(st, Reserve(t, slot), if Count(t, Free, |t.keyOf|) > 0 then q
            else q[1..], refs, pads, arena, slotBytes)
  {
    hide Inv, Ranks, Victim, Count, Holding, Holdings, StoreOk, OnlyWithin;
    ReserveTable(t, q, slot);
    CS.SliceFits(|t.keyOf|, slotBytes, slot);
    WithinItself(arena, CS.At(slot, slotBytes, 0), slotBytes);
    HoldingsAfter(st, t.keyOf, refs, pads, arena, slotBytes, slot, INFLIGHT, refs[slot], pads[slot], arena);
    assert refs[slot := refs[slot]] == refs && pads[slot := pads[slot]] == pads;
  }

  /** A new reservation beside the others. */
  lemma PendingMore(st: Store, slotBytes: nat, t: Slots, w: seq<Work>, x: Work)
    requires Inv(t) && Pending(st, slotBytes, t, w) && x.slot < |t.keyOf| && t.keyOf[x.slot] != INFLIGHT
    requires x.key < |t.slotOf| && t.slotOf[x.key] == -1 && Fits(st, slotBytes, x.key) && st.keyed[x.key] == Some(x.e)
    requires x.key !in KeysIn(w)
    ensures |t.usedAt| == |t.keyOf| && Pending(st, slotBytes, Reserve(t, x.slot), w + [x])
            && KeysIn(w + [x]) == KeysIn(w) + [x.key]
  {
    var t', v := Reserve(t, x.slot), w + [x];
    assert SlotOk(t, x.slot);
    forall i | 0 <= i < |v| ensures Reserved(st, slotBytes, t', v[i]) {
      if i < |w| { assert Reserved(st, slotBytes, t, w[i]); }
    }
    forall i, j | 0 <= i < j < |v| ensures Differ(v[i], v[j]) {
      if j < |w| {
        assert Differ(w[i], w[j]);
      } else {
        assert Reserved(st, slotBytes, t, w[i]);
        assert KeysIn(w)[i] == w[i].key;
      }
    }
  }

  lemma ResidentIs(t: Slots, q: seq<int>, k: int)
    requires Ranks(t, q)
    ensures Resident(t, k) <==> k in q || PinnedKey(t, k)
  {
    assert k in q <==> Loose(t, k);
  }

  lemma SamePinnedSet(t: Slots, t': Slots)
    requires Inv(t) && Inv(t') && SamePins(t, t') && |t.slotOf| == |t'.slotOf|
    ensures PinnedKeys(t) == PinnedKeys(t')
  {
    forall k ensures k in PinnedKeys(t) <==> k in PinnedKeys(t') { SamePinnedKeys(t, t', k); }
  }

  /** Is the key on the work list already? */
  method Duplicate(w: seq<Work>, key: nat) returns (dup: bool)
    ensures dup <==> key in KeysIn(w)
  {
    dup := false;
    for j := 0 to |w|
      invariant forall i :: 0 <= i < j ==> w[i].key != key
    {
      if w[j].key == key {
        assert KeysIn(w)[j] == key;
        return true;
      }
    }
  }

  ghost function FreeSlots(c: Cache): nat
    requires c.keyOf.Length == c.pinned.Length
    reads c, c.slotOf, c.keyOf, c.usedAt, c.pinned
  {
    Count(c.Table(), Free, c.keyOf.Length)
  }

  ghost function BusySlots(c: Cache): nat
    requires c.keyOf.Length == c.pinned.Length
    reads c, c.slotOf, c.keyOf, c.usedAt, c.pinned
  {
    Count(c.Table(), Busy, c.keyOf.Length)
  }

  /** Mark a slot as being read into. */
  method TakeSlot(c: Cache, slot: nat)
    requires c.Core() && slot < c.nslot && Victim(c.Table(), slot)
    modifies c`clock, c`evictions, c`order, c.slotOf, c.keyOf, c.usedAt
    ensures c.Core() && SamePins(old(c.Table()), c.Table()) && c.Table() == Reserve(old(c.Table()), slot)
    ensures old(c.keyOf[slot]) != INFLIGHT
    ensures old(FreeSlots(c)) == 0 ==> old(c.order) != []
    ensures c.order == if old(FreeSlots(c)) > 0 then old(c.order) else old(c.order)[1..]
    ensures FreeSlots(c) == if old(FreeSlots(c)) > 0 then old(FreeSlots(c)) - 1 else 0
    ensures BusySlots(c) == old(BusySlots(c)) + 1 && Count(c.Table(), Fixed, c.nslot)
            == old(Count(c.Table(), Fixed, c.nslot))
    ensures c.evictions == old(c.evictions) + (|old(c.order)| - |c.order|)
  {
    hide Inv, Ranks, Victim, Count, Consistent, StoreOk, SamePins, Unlink, Reserve;
    ghost var t, q := c.Table(), c.order;
    c.CoreFacts();
    ReserveTable(t, q, slot);
    ReserveState(c.st, t, q, c.refs[..], c.pads[..], c.arena[..], c.slotBytes, slot);
    if c.keyOf[slot] >= 0 {
      c.slotOf[c.keyOf[slot]] := -1;
      c.evictions := c.evictions + 1;
      c.order := c.order[1..];
    }
    Unlinked(t, slot, c.slotOf[..]);
    c.keyOf[slot] := INFLIGHT;
    c.clock := c.clock + 1;
    c.usedAt[slot] := c.clock;
    IsReserve(t, slot, c.Table());
  }

  lemma IsReserve(t: Slots, slot: nat, s: Slots)
    requires slot < |t.keyOf| == |t.usedAt|
    requires s == Slots(Unlink(t, slot), t.keyOf[slot := INFLIGHT], t.usedAt[slot := t.clock + 1], t.pinned,
             t.clock + 1)
    ensures s == Reserve(t, slot)
  {
  }

  /** What phase 1 comes to from here on. */
  ghost function Ahead(c: Cache, layer: nat, pins: set<int>, ids: seq<int>, w: seq<Work>): (seq<int>, nat, seq<int>)
    requires c.keyOf.Length == c.pinned.Length
    reads c, c.slotOf, c.keyOf, c.usedAt, c.pinned
  {
    Reserving(c.st, c.slotBytes, layer, c.nExperts, pins, ids, c.order, FreeSlots(c), KeysIn(w))
  }

  /** The state phase 1 keeps. */
  ghost predicate Reserved1(c: Cache, pins: set<int>, w: seq<Work>)
    reads c, c.slotOf, c.keyOf, c.usedAt, c.pinned, c.refs, c.pads, c.arena
  {
    && c.Core() && Pending(c.st, c.slotBytes, c.Table(), w) && BusySlots(c) == |w| <= MAX_TOPK
      && PinnedKeys(c.Table()) == pins
  }

  /** One id: pass over it, or take a slot for it, or stop because there is none to take. */
  method ReserveOne(c: Cache, layer: nat, ids: seq<int>, w: seq<Work>, ghost pins: set<int>)
      returns (v: seq<Work>, stop: bool)
    requires layer < c.nLayers && ids != [] && |w| < MAX_TOPK && Reserved1(c, pins, w)
    modifies c`clock, c`evictions, c`order, c.slotOf, c.keyOf, c.usedAt
    ensures Reserved1(c, pins, v) && SamePins(old(c.Table()), c.Table())
            && c.evictions == old(c.evictions) + (|old(c.order)| - |c.order|)
    ensures Count(c.Table(), Fixed, c.nslot) == old(Count(c.Table(), Fixed, c.nslot))
    ensures if stop then old(Ahead(c, layer, pins, ids, w)) == (c.order, FreeSlots(c), KeysIn(v))
            else old(Ahead(c, layer, pins, ids, w)) == Ahead(c, layer, pins, ids[1..], v)
  {
    hide Inv, Ranks, Victim, Count, Consistent, StoreOk, Sound, SamePins, Reserve, KeyOf, PinnedKey, PinnedKeys,
      Pending, KeysIn, Reserving, Passed;
    ghost var t, q, free := c.Table(), c.order, FreeSlots(c);
    c.CoreFacts();
    SizesOf(t);
    SamePinsSelf(t);
    ReservingOne(c.st, c.slotBytes, layer, c.nExperts, pins, ids, q, free, KeysIn(w));
    var wanted, key := Wanted(c, layer, ids[0], w, pins);
    if !wanted { return w, false; }
    var slot := c.PickVictim();
    VictimIsOldest(t, q, slot);
    if slot < 0 { return w, true; }
    var x := Work(slot, key, c.st.experts[layer][ids[0]].value);
    ReserveTable(t, q, slot);
    PendingMore(c.st, c.slotBytes, t, w, x);
    TakeSlot(c, slot);
    c.CoreFacts();
    SamePinnedSet(t, c.Table());
    return w + [x], false;
  }

  /** The tests before a slot is taken. */
  method Wanted(c: Cache, layer: nat, id: int, w: seq<Work>, ghost pins: set<int>) returns (wanted: bool, key: nat)
    requires layer < c.nLayers && Reserved1(c, pins, w)
    ensures wanted <==> !Passed(c.st, c.slotBytes, c.nExperts, pins, id, KeyOf(layer, id, c.nExperts), c.order,
            KeysIn(w))
    ensures wanted ==>
              key == KeyOf(layer, id, c.nExperts) && key < |c.st.keyed| == c.slotOf.Length && c.slotOf[key] == -1
    ensures wanted ==>
              layer < |c.st.experts| && 0 <= id < |c.st.experts[layer]| && c.st.experts[layer][id] == c.st.keyed[key]
    ensures wanted ==> Fits(c.st, c.slotBytes, key) && key !in KeysIn(w)
  {
    hide Inv, Ranks, Count, Consistent, StoreOk, Sound, KeyOf, PinnedKey, PinnedKeys, Pending, KeysIn, Listed;
    c.CoreFacts();
    wanted, key := false, 0;
    if id < 0 || id >= c.nExperts { return; }
    KeyFits(layer, id, c.nLayers, c.nExperts);
    key := KeyOf(layer, id, c.nExperts);
    ResidentIs(c.Table(), c.order, key);
    PinnedIs(c.Table(), key);
    if c.slotOf[key] >= 0 { return; }
    MissIsFree(c.Table(), key);
    var dup := Duplicate(w, key);
    if dup { return; }
    ListedAt(c.st.experts, c.nExperts, layer, id);
    wanted := c.st.experts[layer][id].Some? && c.st.experts[layer][id].value.r.nbytes <= c.slotBytes;
  }

  lemma PinnedIs(t: Slots, k: int)
    ensures k in PinnedKeys(t) <==> PinnedKey(t, k)
  {
  }

  /** Phase 1: reserve slots, in the order the ids come. */
  method ReserveSlots(c: Cache, layer: nat, ids: seq<int>) returns (w: seq<Work>)
    requires c.Valid() && layer < c.nLayers
    modifies c`clock, c`evictions, c`order, c.slotOf, c.keyOf, c.usedAt
    ensures Reserved1(c, old(PinnedKeys(c.Table())), w) && SamePins(old(c.Table()), c.Table())
    ensures Count(c.Table(), Fixed, c.nslot) == old(Count(c.Table(), Fixed, c.nslot))
    ensures c.evictions == old(c.evictions) + (|old(c.order)| - |c.order|)
    ensures (c.order, FreeSlots(c), KeysIn(w)) == old(Ahead(c, layer, PinnedKeys(c.Table()), ids, []))
  {
    hide Count, Consistent, SamePins, PinnedKeys, KeysIn, Reserving;
    w := [];
    ghost var pins, t0, ev, q0 := PinnedKeys(c.Table()), c.Table(), c.evictions, c.order;
    ghost var plan := Ahead(c, layer, pins, ids, []);
    SamePinsSelf(t0);
    for i := 0 to |ids|
      invariant Reserved1(c, pins, w) && SamePins(t0, c.Table()) && c.evictions == ev + (|q0| - |c.order|)
      invariant Count(c.Table(), Fixed, c.nslot) == Count(t0, Fixed, c.nslot)
      invariant Ahead(c, layer, pins, ids[i..], w) == plan
    {
      if |w| == MAX_TOPK {
        ReservingStops(c.st, c.slotBytes, layer, c.nExperts, pins, ids[i..], c.order, FreeSlots(c), KeysIn(w));
        return;
      }
      ghost var t := c.Table();
      var stop;
      w, stop := ReserveOne(c, layer, ids[i..], w, pins);
      SamePinsTrans(t0, t, c.Table());
      if stop { return; }
      assert ids[i..][1..] == ids[i + 1..];
    }
    ReservingStops(c.st, c.slotBytes, layer, c.nExperts, pins, ids[|ids|..], c.order, FreeSlots(c), KeysIn(w));
  }

  /* ------------------------------------------------------------------ phase 2: read */

  /** How one expert is read: in one call, or window piece by window piece. */
  datatype Fetch = Whole | Split(win: Window)

  function Pieces(p: Fetch): nat {
    match p case Whole => 1 case Split(w) => w.nchunk
  }

  function Counts(plans: seq<Fetch>): (r: seq<nat>)
    ensures |r| == |plans|
  {
    seq(|plans|, i requires 0 <= i < |plans| => Pieces(plans[i]))
  }

  ghost predicate PlanOk(x: Work, p: Fetch) {
    p.Split? ==> x.e.r.contiguous && Covers(p.win, x.e.r.off, x.e.r.nbytes)
  }

  /** Divide the reads; the pieces of all experts together fit the fixed item arrays. */
  method PlanReads(v: seq<Work>, chunk: nat) returns (plans: seq<Fetch>)
    requires 0 < |v| <= MAX_TOPK && chunk > 0 && chunk % ALIGN == 0
    ensures |plans| == |v| && forall i :: 0 <= i < |v| ==> PlanOk(v[i], plans[i])
    ensures Sum(Counts(plans)) <= MAX_ITEMS
  {
    PerAtLeastEight(|v|);
    var maxPer := MAX_ITEMS / |v|;
    plans := [];
    for i := 0 to |v|
      invariant |plans| == i && forall j :: 0 <= j < i ==> PlanOk(v[j], plans[j]) && Pieces(plans[j]) <= maxPer
    {
      hide Covers;
      var p := Whole;
      if v[i].e.r.contiguous {
        var w := PlanWindow(v[i].e.r.off, v[i].e.r.nbytes, chunk, maxPer);
        if w.nchunk != 1 { p := Split(w); }
      }
      plans := plans + [p];
    }
    ItemsFit(Counts(plans), |v|);
  }

  /** Piece ci of the window came in, as far as `got` says. */
  ghost predicate PieceOk(file: seq<byte>, w: Window, ci: nat, got: nat, bytes: seq<byte>) {
    var start := ChunkStart(w, ci);
    && start <= w.len && Delivers(|file|, w.lo + start, ChunkLen(w, ci), got)
    && Brought(file, w.lo + start, start, got, bytes)
  }

  /** A complete device brings all there is of a piece that fits the slot. */
  ghost predicate PieceFull(complete: bool, size: nat, w: Window, ci: nat, got: nat, room: nat) {
    var start := ChunkStart(w, ci);
    complete && start <= w.len && start + ChunkLen(w, ci) <= room ==>
      got == Available(size, w.lo + start, ChunkLen(w, ci))
  }

  /** What a finished item has left in its slot. */
  ghost predicate ItemOk(st: Store, x: Work, p: Fetch, ci: nat, got: nat, pad: nat, bytes: seq<byte>)
    requires StoreOk(st)
  {
    match p
    case Whole =>
      && (got == x.e.r.nbytes ==> Holding(st, x.key, x.e.r, pad, bytes))
      && (st.complete && Roomed(st, |bytes|, x.e) ==> got == x.e.r.nbytes)
    case Split(w) =>
      && x.e.r.shard < |st.disk| && pad == w.pad && PieceOk(st.disk[x.e.r.shard], w, ci, got, bytes)
      && PieceFull(st.complete, |st.disk[x.e.r.shard]|, w, ci, got, |bytes|)
  }

  lemma RegionWithin(was: seq<byte>, now: seq<byte>, n: nat, slotBytes: nat, slot: nat, a: nat, len: nat)
    requires |was| == |now| == n * slotBytes && slot < n && a + len <= slotBytes
             && CS.At(slot, slotBytes, 0) + slotBytes <= n * slotBytes
    requires OnlyWithin(was, now, CS.At(slot, slotBytes, 0) + a, len)
    ensures OnlyWithin(Region(was, n, slotBytes, slot), Region(now, n, slotBytes, slot), a, len)
    ensures OnlyWithin(was, now, CS.At(slot, slotBytes, 0), slotBytes)
  {
    var b := CS.At(slot, slotBytes, 0);
    RegionIs(was, n, slotBytes, slot);
    RegionIs(now, n, slotBytes, slot);
    hide CS.At, Region;
    WindowedWithin(was, now, b, slotBytes, a, len);
  }

  lemma WindowedWithin(was: seq<byte>, now: seq<byte>, b: nat, slotBytes: nat, a: nat, len: nat)
    requires b + slotBytes <= |was| && a + len <= slotBytes && OnlyWithin(was, now, b + a, len)
    ensures OnlyWithin(was[b..b + slotBytes], now[b..b + slotBytes], a, len) && OnlyWithin(was, now, b, slotBytes)
  {
    SubSlice(was, 0, b + a, b, b + a);
    SubSlice(now, 0, b + a, b, b + a);
    SubSlice(was, b, b + slotBytes, 0, a);
    SubSlice(now, b, b + slotBytes, 0, a);
    var e := b + a + len;
    SubSlice(was, e, |was|, 0, b + slotBytes - e);
    SubSlice(now, e, |now|, 0, b + slotBytes - e);
    SubSlice(was, b, b + slotBytes, a + len, slotBytes);
    SubSlice(now, b, b + slotBytes, a + len, slotBytes);
    assert was[..b] == was[..b + a][..b] && now[..b] == now[..b + a][..b];
    assert was[b + slotBytes..] == was[e..][b + slotBytes - e..]
        && now[b + slotBytes..] == now[e..][b + slotBytes - e..];
  }

  /** A slice on one side of what changed is unchanged. */
  lemma Outside(was: seq<byte>, now: seq<byte>, a: nat, len: nat, x: nat, y: nat)
    requires a + len <= |was| && OnlyWithin(was, now, a, len) && x <= y <= |was| && (y <= a || x >= a + len)
    ensures now[x..y] == was[x..y]
  {
    if y <= a {
      SubSlice(was, 0, a, x, y);
      SubSlice(now, 0, a, x, y);
    } else {
      SubSlice(was, a + len, |was|, x - (a + len), y - (a + len));
      SubSlice(now, a + len, |now|, x - (a + len), y - (a + len));
    }
  }

  /** Reading one piece leaves every other piece of the window alone. */
  lemma PieceKept(file: seq<byte>, w: Window, off: nat, nbytes: nat, ci: nat, cj: nat, got: nat, was: seq<byte>,
      now: seq<byte>)
    requires Covers(w, off, nbytes) && ci < w.nchunk && cj < w.nchunk && ci != cj
    requires PieceOk(file, w, cj, got, was) && ChunkStart(w, ci) <= w.len
    requires ChunkStart(w, ci) + ChunkLen(w, ci) <= |was| && OnlyWithin(was, now, ChunkStart(w, ci), ChunkLen(w, ci))
    ensures PieceOk(file, w, cj, got, now)
  {
    ChunkInWindow(w, off, nbytes, ci);
    ChunkInWindow(w, off, nbytes, cj);
    if ci < cj { MulStep(ci, cj, w.chunk); MulGrow(w.chunk, ci + 1, cj); }
      else { MulStep(cj, ci, w.chunk); MulGrow(w.chunk, cj + 1, ci); }
    if got > 0 {
      Outside(was, now, ChunkStart(w, ci), ChunkLen(w, ci), ChunkStart(w, cj), ChunkStart(w, cj) + got);
    }
  }

  /** The arena changed inside a slot that claims nothing. */
  lemma ArenaChanged(st: Store, t: Slots, q: seq<int>, refs: seq<Ref>, pads: seq<nat>, arena: seq<byte>,
      slotBytes: nat, slot: nat, arena': seq<byte>)
    requires Consistent(st, t, q, refs, pads, arena, slotBytes) && slot < |t.keyOf| && t.keyOf[slot] == INFLIGHT
    requires |arena'| == |arena| && CS.At(slot, slotBytes, 0) + slotBytes <= |arena|
             && OnlyWithin(arena, arena', CS.At(slot, slotBytes, 0), slotBytes)
    ensures Consistent(st, t, q, refs, pads, arena', slotBytes)
  {
    hide Inv, Ranks, Holding, Holdings, StoreOk, OnlyWithin;
    HoldingsAfter(st, t.keyOf, refs, pads, arena, slotBytes, slot, INFLIGHT, refs[slot], pads[slot], arena');
    assert refs[slot := refs[slot]] == refs && pads[slot := pads[slot]] == pads && t.keyOf[slot := INFLIGHT] == t.keyOf;
  }

  /** The bytes of this work's slot. */
  ghost function Bytes1(c: Cache, x: Work): (r: seq<byte>)
    requires c.arena.Length == c.nslot * c.slotBytes && x.slot < c.nslot
    reads c.arena
    ensures |r| == c.slotBytes
  {
    Region(c.arena[..], c.nslot, c.slotBytes, x.slot)
  }

  /** The bytes of a slot that a run of len bytes, `base` bytes in, may write: its own, or none
      when it does not fit. */
  ghost function FenceIn(slotBytes: nat, slot: nat, base: nat, len: nat): Interleave.Fence {
    var at := CS.At(slot, slotBytes, 0);
    if base > slotBytes then Interleave.Fence(at, 0)
    else Interleave.Fence(at + base, if base + len <= slotBytes then len else 0)
  }

  lemma FenceFits(slotBytes: nat, slot: nat, base: nat, len: nat)
    ensures var f, at := FenceIn(slotBytes, slot, base, len), CS.At(slot, slotBytes, 0);
            at <= f.at && f.at + f.len <= at + slotBytes
  {
    hide CS.At;
  }

  /** The bytes an item may write: its slot, or the piece of its window. */
  ghost function FenceOf(slotBytes: nat, x: Work, p: Fetch, ci: nat): (f: Interleave.Fence)
    ensures CS.At(x.slot, slotBytes, 0) <= f.at && f.at + f.len <= CS.At(x.slot, slotBytes, 0) + slotBytes
  {
    match p
    case Whole => Interleave.Fence(CS.At(x.slot, slotBytes, 0), slotBytes)
    case Split(w) =>
      var base := ChunkStart(w, ci);
      var len := if base <= w.len then ChunkLen(w, ci) else 0;
      FenceFits(slotBytes, x.slot, base, len);
      FenceIn(slotBytes, x.slot, base, len)
  }

  /** Read one whole expert into its slot. */
  method ReadWhole(c: Cache, x: Work) returns (got: nat, pad: nat, ghost calls: seq<Interleave.Call>)
    requires c.Core() && Reserved(c.st, c.slotBytes, c.Table(), x)
    modifies c.arena
    ensures c.Core() && ItemOk(c.st, x, Whole, 0, got, pad, Bytes1(c, x))
    ensures CS.At(x.slot, c.slotBytes, 0) + c.slotBytes <= c.arena.Length
    ensures OnlyWithin(old(c.arena[..]), c.arena[..], CS.At(x.slot, c.slotBytes, 0), c.slotBytes)
    ensures Interleave.ByCalls(old(c.arena[..]), c.arena[..], calls, FenceOf(c.slotBytes, x, Whole, 0))
  {
    hide Consistent, Sound, Holding, OnlyWithin, CS.At, Region, Roomed, Interleave.ByCalls;
    c.CoreFacts();
    ghost var was := c.arena[..];
    got, pad, calls := c.ReadInto(x.slot, x.e);
    ArenaChanged(c.st, c.Table(), c.order, c.refs[..], c.pads[..], was, c.slotBytes, x.slot, c.arena[..]);
  }

  /** Read an aligned run of the file into the slot, `base` bytes in. */
  method ReadRun(c: Cache, x: Work, off: nat, base: nat, len: nat) returns (got: nat, ghost calls: seq<Interleave.Call>)
    requires c.Core() && Reserved(c.st, c.slotBytes, c.Table(), x) && x.e.r.shard < |c.st.disk| && base <= c.slotBytes
    requires Aligned(off) && Aligned(len)
    modifies c.arena
    ensures c.Core() && Delivers(|c.st.disk[x.e.r.shard]|, off, len, got)
            && Brought(c.st.disk[x.e.r.shard], off, base, got, Bytes1(c, x))
    ensures c.st.complete && base + len <= c.slotBytes ==> got == Available(|c.st.disk[x.e.r.shard]|, off, len)
    ensures CS.At(x.slot, c.slotBytes, 0) + c.slotBytes <= c.arena.Length
    ensures OnlyWithin(old(c.arena[..]), c.arena[..], CS.At(x.slot, c.slotBytes, 0), c.slotBytes)
    ensures Changed(old(Bytes1(c, x)), Bytes1(c, x), base, len)
    ensures Interleave.ByCalls(old(c.arena[..]), c.arena[..], calls, FenceIn(c.slotBytes, x.slot, base, len))
  {
    hide Consistent, StoreOk, OnlyWithin, CS.At, Region, Delivers, Touched, Down, Aligned, Available,
      Interleave.ByCalls;
    CS.SliceFits(c.nslot, c.slotBytes, x.slot);
    ghost var was := c.arena[..];
    var at := CS.At(x.slot, c.slotBytes, 0) + base;
    TouchedAligned(c.st.direct, off, len);
    var pad;
    got, pad, calls := ReadAligned(c.st.disk[x.e.r.shard], c.st.direct, true, c.st.complete, off, len, c.arena, at,
      c.slotBytes - base);
    if len <= c.slotBytes - base {
      RegionWithin(was, c.arena[..], c.nslot, c.slotBytes, x.slot, base, len);
    } else {
      WithinItself(was, CS.At(x.slot, c.slotBytes, 0), c.slotBytes);
    }
    ArenaChanged(c.st, c.Table(), c.order, c.refs[..], c.pads[..], was, c.slotBytes, x.slot, c.arena[..]);
    if got > 0 { RegionPart(c.arena[..], c.nslot, c.slotBytes, x.slot, base, got); }
  }

  /** `got` bytes of the file from off on are in place behind `base`. */
  ghost predicate Brought(file: seq<byte>, off: nat, base: nat, got: nat, bytes: seq<byte>) {
    got > 0 ==> base + got <= |bytes| && off + got <= |file| && bytes[base..base + got] == file[off..off + got]
  }

  ghost predicate Changed(was: seq<byte>, now: seq<byte>, base: nat, len: nat) {
    now == was || (base + len <= |was| && OnlyWithin(was, now, base, len))
  }

  /** Read one piece of a window into its place in the slot; a piece that begins beyond the
      slot has nowhere to go. */
  method ReadPiece(c: Cache, x: Work, w: Window, ci: nat) returns (got: nat, ghost calls: seq<Interleave.Call>)
    requires c.Core() && Reserved(c.st, c.slotBytes, c.Table(), x) && x.e.r.shard < |c.st.disk|
    requires Covers(w, x.e.r.off, x.e.r.nbytes) && ci < w.nchunk
    modifies c.arena
    ensures c.Core() && PieceOk(c.st.disk[x.e.r.shard], w, ci, got, Bytes1(c, x))
    ensures PieceFull(c.st.complete, |c.st.disk[x.e.r.shard]|, w, ci, got, c.slotBytes)
    ensures CS.At(x.slot, c.slotBytes, 0) + c.slotBytes <= c.arena.Length
    ensures OnlyWithin(old(c.arena[..]), c.arena[..], CS.At(x.slot, c.slotBytes, 0), c.slotBytes)
    ensures ChunkStart(w, ci) <= w.len && Changed(old(Bytes1(c, x)), Bytes1(c, x), ChunkStart(w, ci), ChunkLen(w, ci))
    ensures Interleave.ByCalls(old(c.arena[..]), c.arena[..], calls, FenceOf(c.slotBytes, x, Split(w), ci))
  {
    hide Consistent, StoreOk, OnlyWithin, Covers, CS.At, Region, ChunkStart, ChunkLen, Delivers, Changed, Aligned,
      Available, FenceIn, Interleave.ByCalls;
    ChunkAligned(w, x.e.r.off, x.e.r.nbytes, ci);
    ChunkInWindow(w, x.e.r.off, x.e.r.nbytes, ci);
    var base, len := ChunkStart(w, ci), ChunkLen(w, ci);
    if base <= c.slotBytes {
      got, calls := ReadRun(c, x, w.lo + base, base, len);
    } else {
      got, calls := 0, [];
      CS.SliceFits(c.nslot, c.slotBytes, x.slot);
      WithinItself(c.arena[..], CS.At(x.slot, c.slotBytes, 0), c.slotBytes);
      FenceFits(c.slotBytes, x.slot, base, len);
      Interleave.NoCalls(c.arena[..], FenceIn(c.slotBytes, x.slot, base, len));
      ShortByBlocks(|c.st.disk[x.e.r.shard]|, w.lo + base, len, 0);
      Unchanged(Bytes1(c, x), base, len);
    }
  }

  lemma Unchanged(was: seq<byte>, base: nat, len: nat)
    ensures Changed(was, was, base, len)
  {
  }

  lemma RegionPart(arena: seq<byte>, n: nat, slotBytes: nat, slot: nat, a: nat, len: nat)
    requires |arena| == n * slotBytes && slot < n && a + len <= slotBytes
    ensures var at := CS.At(slot, slotBytes, 0) + a;
            at + len <= |arena| && Region(arena, n, slotBytes, slot)[a..a + len] == arena[at..at + len]
  {
    RegionIs(arena, n, slotBytes, slot);
    hide CS.At;
    SubSlice(arena, CS.At(slot, slotBytes, 0), CS.At(slot, slotBytes, 0) + slotBytes, a, a + len);
  }

  lemma ShardOk(st: Store, slotBytes: nat, t: Slots, x: Work)
    requires StoreOk(st) && Reserved(st, slotBytes, t, x)
    ensures Sound(st.disk, x.e) && x.e.r.shard < |st.disk|
  {
    SoundFacts(st.disk, x.e);
  }

  /** One item of the flattened work list. */
  method ReadItem(c: Cache, x: Work, p: Fetch, ci: nat)
      returns (got: nat, pad: nat, ghost calls: seq<Interleave.Call>)
    requires c.Core() && Reserved(c.st, c.slotBytes, c.Table(), x) && PlanOk(x, p) && ci < Pieces(p)
    modifies c.arena
    ensures c.Core() && ItemOk(c.st, x, p, ci, got, pad, Bytes1(c, x))
    ensures CS.At(x.slot, c.slotBytes, 0) + c.slotBytes <= c.arena.Length
    ensures OnlyWithin(old(c.arena[..]), c.arena[..], CS.At(x.slot, c.slotBytes, 0), c.slotBytes)
    ensures p.Split? ==>
              && ChunkStart(p.win, ci) <= p.win.len
              && Changed(old(Bytes1(c, x)), Bytes1(c, x), ChunkStart(p.win, ci), ChunkLen(p.win, ci))
    ensures Interleave.ByCalls(old(c.arena[..]), c.arena[..], calls, FenceOf(c.slotBytes, x, p, ci))
  {
    hide Consistent, Sound, StoreOk, OnlyWithin, Holding, CS.At, Region, ChunkStart, ChunkLen, Changed, PieceOk,
      PieceFull,
      Covers, Roomed, FenceOf, Interleave.ByCalls;
    c.CoreFacts();
    ShardOk(c.st, c.slotBytes, c.Table(), x);
    match p {
      case Whole => got, pad, calls := ReadWhole(c, x);
      case Split(w) =>
        got, calls := ReadPiece(c, x, w, ci);
        pad := w.pad;
    }
  }

  ghost predicate Sized(v: seq<Work>, plans: seq<Fetch>, gots: seq<seq<nat>>, pads: seq<nat>) {
    && |v| == |plans| == |gots| == |pads|
    && forall i :: 0 <= i < |v| ==> PlanOk(v[i], plans[i]) && |gots[i]| == Pieces(plans[i])
  }

  /** Every item not in todo has left in its slot what it claims. */
  ghost predicate Done(st: Store, n: nat, slotBytes: nat, v: seq<Work>, plans: seq<Fetch>, gots: seq<seq<nat>>,
      pads: seq<nat>,
                       todo: set<(nat, nat)>, arena: seq<byte>)
    requires StoreOk(st) && Sized(v, plans, gots, pads) && |arena| == n * slotBytes
  {
    && (forall i :: 0 <= i < |v| ==> v[i].slot < n)
    && forall i: nat, ci: nat :: i < |v| && ci < Pieces(plans[i]) && (i, ci) !in todo ==>
         ItemOk(st, v[i], plans[i], ci, gots[i][ci], pads[i], Region(arena, n, slotBytes, v[i].slot))
  }

  function Noted(gots: seq<seq<nat>>, i: nat, ci: nat, got: nat): seq<seq<nat>>
    requires i < |gots| && ci < |gots[i]|
  {
    var row: seq<nat> := gots[i][ci := got];
    gots[i := row]
  }

  /** Reading one item keeps all the others as they were. */
  lemma DoneStep(st: Store, n: nat, slotBytes: nat, v: seq<Work>, plans: seq<Fetch>, gots: seq<seq<nat>>,
      pads: seq<nat>,
                 todo: set<(nat, nat)>, was: seq<byte>, i: nat, ci: nat, got: nat, pad: nat, now: seq<byte>)
    requires StoreOk(st) && Sized(v, plans, gots, pads) && |was| == |now| == n * slotBytes
    requires Done(st, n, slotBytes, v, plans, gots, pads, todo, was)
    requires i < |v| && ci < Pieces(plans[i]) && v[i].slot < n && forall a, b :: 0 <= a < b < |v| ==> Differ(v[a], v[b])
    requires ItemOk(st, v[i], plans[i], ci, got, pad, Region(now, n, slotBytes, v[i].slot))
    requires CS.At(v[i].slot, slotBytes, 0) + slotBytes <= n * slotBytes
             && OnlyWithin(was, now, CS.At(v[i].slot, slotBytes, 0), slotBytes)
    requires plans[i].Split? ==>
               && ChunkStart(plans[i].win, ci) <= plans[i].win.len
               && Changed(Region(was, n, slotBytes, v[i].slot), Region(now, n, slotBytes, v[i].slot),
                 ChunkStart(plans[i].win, ci), ChunkLen(plans[i].win, ci))
    ensures Sized(v, plans, Noted(gots, i, ci, got), pads[i := pad])
    ensures Done(st, n, slotBytes, v, plans, Noted(gots, i, ci, got), pads[i := pad], todo - {(i, ci)}, now)
  {
    hide StoreOk, OnlyWithin, CS.At, Region, ChunkStart, ChunkLen, Changed, PieceOk, PieceFull, Covers, Holding, Roomed;
    var gots', pads' := Noted(gots, i, ci, got), pads[i := pad];
    forall j: nat, cj: nat | j < |v| && cj < Pieces(plans[j]) && (j, cj) !in todo - {(i, ci)}
      ensures ItemOk(st, v[j], plans[j], cj, gots'[j][cj], pads'[j], Region(now, n, slotBytes, v[j].slot))
    {
      if j != i {
        assert Differ(v[if i < j then i else j], v[if i < j then j else i]);
        RegionsApart(was, now, n, slotBytes, v[i].slot, v[j].slot);
      } else if cj != ci {
        var w := plans[i].win;
        ItemKept(st, v[i], w, ci, cj, gots[i][cj], Region(was, n, slotBytes, v[i].slot),
            Region(now, n, slotBytes, v[i].slot));
      }
    }
  }

  lemma ItemKept(st: Store, x: Work, w: Window, ci: nat, cj: nat, got: nat, was: seq<byte>, now: seq<byte>)
    requires x.e.r.shard < |st.disk| && Covers(w, x.e.r.off, x.e.r.nbytes) && ci < w.nchunk && cj < w.nchunk && ci != cj
    requires PieceOk(st.disk[x.e.r.shard], w, cj, got, was)
    requires ChunkStart(w, ci) <= w.len && Changed(was, now, ChunkStart(w, ci), ChunkLen(w, ci))
    ensures PieceOk(st.disk[x.e.r.shard], w, cj, got, now)
  {
    hide PieceOk, Covers, ChunkStart, ChunkLen, OnlyWithin;
    if now != was {
      PieceKept(st.disk[x.e.r.shard], w, x.e.r.off, x.e.r.nbytes, ci, cj, got, was, now);
    }
  }

  /** No two items of a batch may write the same byte, so by Interleave.AsIfOneByOne their calls
      may interleave at will. */
  lemma ItemsApart(st: Store, slotBytes: nat, t: Slots, v: seq<Work>, plans: seq<Fetch>, i: nat, ci: nat, j: nat,
      cj: nat)
    requires Pending(st, slotBytes, t, v) && |plans| == |v| && i <= j < |v| && (i, ci) != (j, cj)
    requires PlanOk(v[i], plans[i]) && PlanOk(v[j], plans[j]) && ci < Pieces(plans[i]) && cj < Pieces(plans[j])
    ensures var a, b := FenceOf(slotBytes, v[i], plans[i], ci), FenceOf(slotBytes, v[j], plans[j], cj);
            a.at + a.len <= b.at || b.at + b.len <= a.at
  {
    hide CS.At, Covers;
    if i < j {
      hide FenceOf;
      SlotsInRange(st, slotBytes, t, v);
      assert Differ(v[i], v[j]);
      CS.SlicesApart(|t.keyOf|, slotBytes, v[i].slot, v[j].slot);
    } else {
      var w, x := plans[i].win, v[i];
      PiecesApart(w, x.e.r.off, x.e.r.nbytes, if ci < cj then ci else cj, if ci < cj then cj else ci);
    }
  }

  lemma PiecesApart(w: Window, off: nat, nbytes: nat, ci: nat, cj: nat)
    requires Covers(w, off, nbytes) && ci < cj < w.nchunk
    ensures ChunkStart(w, ci) <= w.len && ChunkStart(w, cj) <= w.len
    ensures ChunkStart(w, ci) + ChunkLen(w, ci) <= ChunkStart(w, cj)
  {
    ChunkInWindow(w, off, nbytes, ci);
    ChunkInWindow(w, off, nbytes, cj);
    MulStep(ci, cj, w.chunk);
    MulGrow(w.chunk, ci + 1, cj);
  }

  /** The fence of every item of the batch. */
  ghost function Fences(slotBytes: nat, v: seq<Work>, plans: seq<Fetch>): map<(nat, nat), Interleave.Fence>
    requires |v| == |plans|
  {
    map x | x in Items(plans) :: FenceOf(slotBytes, v[x.0], plans[x.0], x.1)
  }

  lemma FencesApart(st: Store, slotBytes: nat, t: Slots, v: seq<Work>, plans: seq<Fetch>)
    requires Pending(st, slotBytes, t, v) && |plans| == |v| && forall i :: 0 <= i < |v| ==> PlanOk(v[i], plans[i])
    ensures Interleave.Apart(Fences(slotBytes, v, plans))
  {
    hide Pending, FenceOf, PlanOk;
    var f := Fences(slotBytes, v, plans);
    forall x, y | x in f && y in f && x != y ensures f[x].at + f[x].len <= f[y].at || f[y].at + f[y].len <= f[x].at {
      if x.0 <= y.0 {
        ItemsApart(st, slotBytes, t, v, plans, x.0, x.1, y.0, y.1);
      } else {
        ItemsApart(st, slotBytes, t, v, plans, y.0, y.1, x.0, x.1);
      }
    }
  }

  /** Phase 2: the items in any order at all.  `log` holds their calls; interleaved in any other
      way the same calls leave the same arena. */
  method FetchAll(c: Cache, v: seq<Work>, plans: seq<Fetch>)
      returns (gots: seq<seq<nat>>, pads: seq<nat>, ghost log: seq<Interleave.Write<(nat, nat)>>)
    requires c.Core() && Pending(c.st, c.slotBytes, c.Table(), v) && |plans| == |v|
    requires forall i :: 0 <= i < |v| ==> PlanOk(v[i], plans[i])
    modifies c.arena
    ensures c.Core() && Sized(v, plans, gots, pads)
    ensures Done(c.st, c.nslot, c.slotBytes, v, plans, gots, pads, {}, c.arena[..])
    ensures Interleave.AnySchedule(old(c.arena[..]), log, Fences(c.slotBytes, v, plans), c.arena[..])
  {
    hide Consistent, StoreOk, Holding, OnlyWithin, CS.At, Region, ChunkStart, ChunkLen, Changed, PlanOk, ItemOk,
      Reserved, FenceOf, Interleave.ByCalls, Interleave.AnySchedule, Interleave.Apart, Interleave.LoggedRun;
    SlotsInRange(c.st, c.slotBytes, c.Table(), v);
    FencesApart(c.st, c.slotBytes, c.Table(), v, plans);
    ghost var was0, fences := c.arena[..], Fences(c.slotBytes, v, plans);
    gots := seq(|v|, i requires 0 <= i < |v| => seq(Pieces(plans[i]), _ => 0));
    pads := seq(|v|, _ => 0);
    log := [];
    Interleave.NothingLogged(was0, fences);
    var todo := Items(plans);
    while todo != {}
      invariant c.Core() && Sized(v, plans, gots, pads)
                && Done(c.st, c.nslot, c.slotBytes, v, plans, gots, pads, todo, c.arena[..])
      invariant todo <= Items(plans) && Interleave.LoggedRun(was0, log, fences, c.arena[..])
      decreases todo
    {
      hide Done;
      var item :| item in todo;
      var i, ci := item.0, item.1;
      assert item == (i, ci) && item in Items(plans);
      ghost var was := c.arena[..];
      ghost var calls;
      var got, pad;
      got, pad, calls := ReadItem(c, v[i], plans[i], ci);
      DoneStep(c.st, c.nslot, c.slotBytes, v, plans, gots, pads, todo, was, i, ci, got, pad, c.arena[..]);
      Interleave.ItemRuns(was0, log, fences, item, was, calls, c.arena[..]);
      gots, pads, log := Noted(gots, i, ci, got), pads[i := pad], log + Interleave.Tagged(item, calls);
      todo := todo - {item};
    }
    Interleave.AnyOtherSchedule(was0, log, fences, c.arena[..]);
  }

  function Items(plans: seq<Fetch>): (r: set<(nat, nat)>)
    ensures forall i: nat, ci: nat :: (i, ci) in r <==> i < |plans| && ci < Pieces(plans[i])
  {
    set i: nat, ci: nat | i < |plans| && ci < Pieces(plans[i]) :: (i, ci)
  }

  lemma SlotsInRange(st: Store, slotBytes: nat, t: Slots, v: seq<Work>)
    requires Pending(st, slotBytes, t, v)
    ensures forall i :: 0 <= i < |v| ==> v[i].slot < |t.keyOf| && Reserved(st, slotBytes, t, v[i])
    ensures forall a, b :: 0 <= a < b < |v| ==> Differ(v[a], v[b])
  {
  }

  /* ------------------------------------------------------------ what has arrived */

  /** A byte the pieces cover is the file's byte. */
  lemma ByteArrived(file: seq<byte>, w: Window, off: nat, nbytes: nat, got: seq<nat>, bytes: seq<byte>, y: nat)
    requires Covers(w, off, nbytes) && |got| == w.nchunk && Arrived(w, got, y)
    requires forall ci: nat :: ci < w.nchunk ==> PieceOk(file, w, ci, got[ci], bytes)
    ensures y < |bytes| && w.lo + y < |file| && bytes[y] == file[w.lo + y]
  {
    var ci := y / w.chunk;
    DivFacts(y, w.chunk);
    hide Covers, Arrived;
    ArrivedMeans(w, got, y);
    var start := ChunkStart(w, ci);
    assert PieceOk(file, w, ci, got[ci], bytes);
    hide ChunkStart, ChunkLen, Delivers;
    var k := y - start;
    assert bytes[start..start + got[ci]][k] == file[w.lo + start..w.lo + start + got[ci]][k];
  }

  lemma ArrivedMeans(w: Window, got: seq<nat>, y: nat)
    requires w.chunk > 0 && Arrived(w, got, y)
    ensures y / w.chunk < |got| && ChunkStart(w, y / w.chunk) <= y < ChunkStart(w, y / w.chunk) + got[y / w.chunk]
  {
    DivFacts(y, w.chunk);
  }

  /** When the sum of what the pieces brought reaches the end of the payload, the payload is
      all there. */
  lemma SplitArrived(file: seq<byte>, w: Window, off: nat, nbytes: nat, got: seq<nat>, bytes: seq<byte>)
    requires Covers(w, off, nbytes) && nbytes > 0 && off + nbytes <= |file| && |got| == w.nchunk
    requires forall ci: nat :: ci < w.nchunk ==> PieceOk(file, w, ci, got[ci], bytes)
    requires Sum(got) >= w.pad + nbytes
    ensures w.pad + nbytes <= |bytes| && bytes[w.pad..w.pad + nbytes] == file[off..off + nbytes]
  {
    hide PieceOk, Arrived, Sum, Covers, AllDeliver;
    PiecesDeliver(file, w, got, bytes);
    SummedTestIsExact(w, off, nbytes, |file|, got);
    CoversPad(w, off, nbytes);
    forall y | w.pad <= y < w.pad + nbytes ensures y < |bytes| && bytes[y] == file[y + w.lo] {
      ByteArrived(file, w, off, nbytes, got, bytes, y);
    }
    ByteArrived(file, w, off, nbytes, got, bytes, w.pad + nbytes - 1);
    SameBytes(bytes, w.pad, file, off, nbytes);
  }

  lemma PiecesDeliver(file: seq<byte>, w: Window, got: seq<nat>, bytes: seq<byte>)
    requires |got| == w.nchunk && forall ci: nat :: ci < w.nchunk ==> PieceOk(file, w, ci, got[ci], bytes)
    ensures AllDeliver(w, |file|, got, w.nchunk)
  {
    hide Delivers, Brought, ChunkLen;
    forall ci: nat | ci < w.nchunk ensures ChunkStart(w, ci) <= w.len
        && Delivers(|file|, w.lo + ChunkStart(w, ci), ChunkLen(w, ci), got[ci]) {
      assert PieceOk(file, w, ci, got[ci], bytes);
    }
  }

  lemma CoversPad(w: Window, off: nat, nbytes: nat)
    requires Covers(w, off, nbytes)
    ensures w.lo + w.pad == off && w.chunk > 0
  {
  }

  lemma SameBytes(a: seq<byte>, x: nat, b: seq<byte>, y: nat, n: nat)
    requires x <= y && x + n <= |a| && y + n <= |b| && forall i :: x <= i < x + n ==> a[i] == b[i + (y - x)]
    ensures a[x..x + n] == b[y..y + n]
  {
    var s, t := a[x..x + n], b[y..y + n];
    forall k | 0 <= k < n ensures s[k] == t[k] { assert a[x + k] == b[x + k + (y - x)]; }
  }

  /** The bytes counted for one expert: all of it, or not. */
  function GotOf(p: Fetch, gots: seq<nat>, nbytes: nat): nat
    requires |gots| == Pieces(p)
  {
    match p
    case Whole => gots[0]
    case Split(w) => if Sum(gots) >= w.pad + nbytes then nbytes else 0
  }

  /** An expert counted as read is held by its slot. */
  lemma WorkArrived(st: Store, slotBytes: nat, t: Slots, x: Work, p: Fetch, gots: seq<nat>, pad: nat, bytes: seq<byte>)
    requires StoreOk(st) && Reserved(st, slotBytes, t, x) && PlanOk(x, p) && |gots| == Pieces(p)
    requires forall ci: nat :: ci < Pieces(p) ==> ItemOk(st, x, p, ci, gots[ci], pad, bytes)
    requires GotOf(p, gots, x.e.r.nbytes) == x.e.r.nbytes
    ensures Holding(st, x.key, x.e.r, pad, bytes)
  {
    hide Sound, StoreOk, Covers, PieceOk, Holding, Sum;
    ShardOk(st, slotBytes, t, x);
    match p {
      case Whole => assert ItemOk(st, x, p, 0, gots[0], pad, bytes);
      case Split(w) =>
        if x.e.r.nbytes > 0 {
          SumPositive(gots);
          assert ItemOk(st, x, p, 0, gots[0], pad, bytes);
          forall ci: nat | ci < w.nchunk ensures PieceOk(st.disk[x.e.r.shard], w, ci, gots[ci], bytes) {
            assert ItemOk(st, x, p, ci, gots[ci], pad, bytes);
          }
          RunOf(st.disk, x.e);
          SplitArrived(st.disk[x.e.r.shard], w, x.e.r.off, x.e.r.nbytes, gots, bytes);
        }
        IsHeld(st, x, pad, bytes);
    }
  }

  /** The device is complete and the slots have room for the expert, window and all, however it
      is read. */
  ghost predicate SurelyRead(st: Store, slotBytes: nat, key: int) {
    && st.complete && Fits(st, slotBytes, key)
    && var r := st.keyed[key].value.r; (r.contiguous ==> Touched(true, r.off, r.nbytes) <= slotBytes)
  }

  /** Then it is counted as read. */
  lemma WorkComplete(st: Store, slotBytes: nat, t: Slots, x: Work, p: Fetch, gots: seq<nat>, pad: nat, bytes: seq<byte>)
    requires StoreOk(st) && Reserved(st, slotBytes, t, x) && PlanOk(x, p) && |gots| == Pieces(p) && |bytes| == slotBytes
    requires forall ci: nat :: ci < Pieces(p) ==> ItemOk(st, x, p, ci, gots[ci], pad, bytes)
    requires SurelyRead(st, slotBytes, x.key)
    ensures GotOf(p, gots, x.e.r.nbytes) == x.e.r.nbytes
  {
    hide Sound, StoreOk, Covers, PieceOk, PieceFull, Holding, Sum, Touched, Roomed;
    match p {
      case Whole =>
        assert ItemOk(st, x, p, 0, gots[0], pad, bytes);
        SureIsRoomed(st, slotBytes, x.e);
      case Split(w) =>
        if x.e.r.nbytes > 0 {
          ShardOk(st, slotBytes, t, x);
          RunOf(st.disk, x.e);
          SureWindow(x.e.r, w, slotBytes);
          forall ci: nat | ci < w.nchunk
            ensures PieceOk(st.disk[x.e.r.shard], w, ci, gots[ci], bytes)
                 && PieceFull(true, |st.disk[x.e.r.shard]|, w, ci, gots[ci], slotBytes)
          {
            assert ItemOk(st, x, p, ci, gots[ci], pad, bytes);
          }
          PiecesDeliver(st.disk[x.e.r.shard], w, gots, bytes);
          SplitComplete(|st.disk[x.e.r.shard]|, w, x.e.r.off, x.e.r.nbytes, gots, slotBytes);
        }
    }
  }

  lemma SureIsRoomed(st: Store, slotBytes: nat, e: Expert)
    requires e.r.nbytes <= slotBytes && (e.r.contiguous ==> Touched(true, e.r.off, e.r.nbytes) <= slotBytes)
    ensures Roomed(st, slotBytes, e)
  {
  }

  lemma SureWindow(r: Ref, w: Window, slotBytes: nat)
    requires Covers(w, r.off, r.nbytes) && Touched(true, r.off, r.nbytes) <= slotBytes
    ensures w.len <= slotBytes
  {
    hide Down, Up, Aligned;
    AlignedSum(w.lo, w.len);
    AlignedIs(w.lo);
    AlignedIs(w.lo + w.len);
    WindowIs(w.lo, w.lo + w.len, r.off, r.off + r.nbytes);
  }

  lemma AlignedIs(x: nat)
    ensures Aligned(x) <==> x % ALIGN == 0
  {
  }

  lemma WindowIs(lo: nat, hi: nat, a: nat, b: nat)
    requires Aligned(lo) && Aligned(hi) && lo <= a < lo + ALIGN && b <= hi < b + ALIGN
    ensures Down(a) == lo && Up(b) == hi
  {
  }

  /** Full pieces add up to the payload. */
  lemma SplitComplete(size: nat, w: Window, off: nat, nbytes: nat, got: seq<nat>, room: nat)
    requires Covers(w, off, nbytes) && nbytes > 0 && off + nbytes <= size && |got| == w.nchunk && w.len <= room
    requires AllDeliver(w, size, got, w.nchunk)
    requires forall ci: nat :: ci < w.nchunk ==> PieceFull(true, size, w, ci, got[ci], room)
    ensures Sum(got) >= w.pad + nbytes
  {
    hide PieceFull, Arrived, Sum, Covers, AllDeliver;
    SummedTestIsExact(w, off, nbytes, size, got);
    CoversPad(w, off, nbytes);
    forall y | w.pad <= y < w.pad + nbytes ensures Arrived(w, got, y) { ByteCame(size, w, off, nbytes, got, room, y); }
  }

  lemma ByteCame(size: nat, w: Window, off: nat, nbytes: nat, got: seq<nat>, room: nat, y: nat)
    requires Covers(w, off, nbytes) && |got| == w.nchunk && w.len <= room && y < w.pad + nbytes && off + nbytes <= size
    requires forall ci: nat :: ci < w.nchunk ==> PieceFull(true, size, w, ci, got[ci], room)
    ensures Arrived(w, got, y)
  {
    hide ChunkStart, ChunkLen, PieceFull;
    ChunksTile(w, off, nbytes, y);
    var ci := y / w.chunk;
    assert PieceFull(true, size, w, ci, got[ci], room);
    EndsInside(w, off, nbytes, ci);
    PieceBrings(size, w, ci, got[ci], room, y);
  }

  lemma PieceBrings(size: nat, w: Window, ci: nat, got: nat, room: nat, y: nat)
    requires InChunk(w, ci, y) && PieceFull(true, size, w, ci, got, room) && w.lo + y < size
    requires ChunkStart(w, ci) + ChunkLen(w, ci) <= room
    ensures y < ChunkStart(w, ci) + got
  {
    hide ChunkStart, ChunkLen;
  }

  lemma EndsInside(w: Window, off: nat, nbytes: nat, ci: nat)
    requires Covers(w, off, nbytes) && ci < w.nchunk
    ensures ChunkStart(w, ci) <= w.len && ChunkStart(w, ci) + ChunkLen(w, ci) <= w.len
  {
    ChunkInWindow(w, off, nbytes, ci);
  }

  lemma RunOf(disk: seq<seq<byte>>, e: Expert)
    requires Sound(disk, e)
    ensures e.r.shard < |disk|
    ensures e.r.contiguous ==>
              && e.r.off + e.r.nbytes <= |disk[e.r.shard]|
              && Image(disk, e.r, e.all, e.hi) == disk[e.r.shard][e.r.off..e.r.off + e.r.nbytes]
  {
    hide Describes, InFiles, Image;
    RunFacts(disk, e.r, e.all, e.hi);
  }

  lemma IsHeld(st: Store, x: Work, pad: nat, bytes: seq<byte>)
    requires StoreOk(st) && 0 <= x.key < |st.keyed| && st.keyed[x.key] == Some(x.e) && x.e.r.contiguous
             && x.e.r.shard < |st.disk|
    requires x.e.r.nbytes > 0 ==>
               && x.e.r.off + x.e.r.nbytes <= |st.disk[x.e.r.shard]| && pad + x.e.r.nbytes <= |bytes|
               && bytes[pad..pad + x.e.r.nbytes] == st.disk[x.e.r.shard][x.e.r.off..x.e.r.off + x.e.r.nbytes]
    ensures Holding(st, x.key, x.e.r, pad, bytes)
  {
    hide Describes, InFiles, Image;
    assert Sound(st.disk, x.e);
    hide Sound;
    RunOf(st.disk, x.e);
  }

  lemma SumPositive(s: seq<nat>)
    ensures Sum(s) > 0 ==> s != []
  {
  }

  /** Add up what the pieces of each expert brought. */
  method AddUp(v: seq<Work>, plans: seq<Fetch>, gots: seq<seq<nat>>, ghost pads: seq<nat>) returns (got: seq<nat>)
    requires Sized(v, plans, gots, pads)
    ensures |got| == |v| && forall i :: 0 <= i < |v| ==> got[i] == GotOf(plans[i], gots[i], v[i].e.r.nbytes)
  {
    got := [];
    for i := 0 to |v|
      invariant |got| == i && forall j :: 0 <= j < i ==> got[j] == GotOf(plans[j], gots[j], v[j].e.r.nbytes)
    {
      hide GotOf, Sum;
      var g: nat := AddUpOne(plans[i], gots[i], v[i].e.r.nbytes);
      got := got + [g];
    }
  }

  method AddUpOne(p: Fetch, gots: seq<nat>, nbytes: nat) returns (g: nat)
    requires |gots| == Pieces(p)
    ensures g == GotOf(p, gots, nbytes)
  {
    match p {
      case Whole => g := gots[0];
      case Split(w) =>
        var tot: nat := 0;
        for ci := 0 to |gots|
          invariant tot == Sum(gots[..ci])
        {
          assert gots[..ci + 1][..ci] == gots[..ci];
          tot := tot + gots[ci];
        }
        assert gots[..|gots|] == gots;
        g := if tot >= w.pad + nbytes then nbytes else 0;
    }
  }

  /* ------------------------------------------------------------------ phase 3: publish */

  /** The keys of the first n works that arrived whole, in the order of the list. */
  function Complete(v: seq<Work>, got: seq<nat>, n: nat): seq<int>
    requires n <= |v| == |got|
  {
    if n == 0 then [] else Complete(v, got, n - 1) + if got[n - 1] == v[n - 1].e.r.nbytes then [v[n - 1].key] else []
  }

  lemma SettleState(st: Store, t: Slots, q: seq<int>, refs: seq<Ref>, pads: seq<nat>, arena: seq<byte>,
      slotBytes: nat, x: Work, pad: nat)
    requires Consistent(st, t, q, refs, pads, arena, slotBytes) && Reserved(st, slotBytes, t, x)
    ensures |t.keyOf| == |t.pinned| == |t.usedAt| == |refs| == |pads|
    ensures Consistent(st, Clear(t, x.slot), q, refs, pads, arena, slotBytes)
    ensures Holding(st, x.key, x.e.r, pad, Region(arena, |t.keyOf|, slotBytes, x.slot)) ==>
              Consistent(st, Occupy(t, x.slot, x.key), q + [x.key], refs[x.slot := x.e.r], pads[x.slot := pad],
                  arena, slotBytes)
  {
    hide Inv, Ranks, Count, Holding, Holdings, StoreOk, OnlyWithin, Fits;
    SettleTable(t, q, x.slot, x.key);
    CS.SliceFits(|t.keyOf|, slotBytes, x.slot);
    WithinItself(arena, CS.At(x.slot, slotBytes, 0), slotBytes);
    HoldingsAfter(st, t.keyOf, refs, pads, arena, slotBytes, x.slot, EMPTY, refs[x.slot], pads[x.slot], arena);
    assert refs[x.slot := refs[x.slot]] == refs && pads[x.slot := pads[x.slot]] == pads;
    if Holding(st, x.key, x.e.r, pad, Region(arena, |t.keyOf|, slotBytes, x.slot)) {
      HoldingsAfter(st, t.keyOf, refs, pads, arena, slotBytes, x.slot, x.key, x.e.r, pad, arena);
    }
  }

  /** The other reservations stand. */
  lemma PendingRest(st: Store, slotBytes: nat, t: Slots, v: seq<Work>)
    requires Inv(t) && v != [] && Pending(st, slotBytes, t, v)
    ensures v[0].slot < |t.keyOf| == |t.usedAt| && v[0].key < |t.slotOf| && Reserved(st, slotBytes, t, v[0])
    ensures Pending(st, slotBytes, Clear(t, v[0].slot), v[1..])
            && Pending(st, slotBytes, Occupy(t, v[0].slot, v[0].key), v[1..])
  {
    hide Fits;
    assert Reserved(st, slotBytes, t, v[0]);
    var a, b := Clear(t, v[0].slot), Occupy(t, v[0].slot, v[0].key);
    forall i | 0 <= i < |v[1..]| ensures Reserved(st, slotBytes, a, v[1..][i])
        && Reserved(st, slotBytes, b, v[1..][i]) {
      assert Reserved(st, slotBytes, t, v[i + 1]) && Differ(v[0], v[i + 1]);
    }
    forall i, j | 0 <= i < j < |v[1..]| ensures Differ(v[1..][i], v[1..][j]) { assert Differ(v[i + 1], v[j + 1]); }
  }

  /** Register one expert if it arrived whole, else give its slot back. */
  method PublishOne(c: Cache, ghost v: seq<Work>, x: Work, got: nat, pad: nat)
    requires c.Core() && v != [] && x == v[0] && Pending(c.st, c.slotBytes, c.Table(), v) && x.slot < c.nslot
    requires got == x.e.r.nbytes ==> Holding(c.st, x.key, x.e.r, pad, Bytes1(c, x))
    modifies c`clock, c`bytesRead, c`prefetchReads, c`loads, c`order, c.slotOf, c.keyOf, c.usedAt, c.refs, c.pads
    ensures c.Core() && Pending(c.st, c.slotBytes, c.Table(), v[1..]) && SamePins(old(c.Table()), c.Table())
    ensures Count(c.Table(), Fixed, c.nslot) == old(Count(c.Table(), Fixed, c.nslot))
            && BusySlots(c) == old(BusySlots(c)) - 1
    ensures c.order == old(c.order) + if got == x.e.r.nbytes then [x.key] else []
    ensures c.loads == old(c.loads) + if got == x.e.r.nbytes then 1 else 0
    ensures c.prefetchReads == old(c.prefetchReads) + if got == x.e.r.nbytes then 1 else 0
  {
    hide Inv, Ranks, Count, Consistent, StoreOk, Sound, SamePins, Holding, Pending, Clear, Occupy, Fits, Region;
    ghost var t, q := c.Table(), c.order;
    c.CoreFacts();
    PendingRest(c.st, c.slotBytes, t, v);
    SettleTable(t, q, x.slot, x.key);
    SettleState(c.st, t, q, c.refs[..], c.pads[..], c.arena[..], c.slotBytes, x, pad);
    if got != x.e.r.nbytes {
      c.keyOf[x.slot] := EMPTY;
      IsCleared(t, x.slot, c.Table());
    } else {
      c.order, c.loads := c.order + [x.key], c.loads + 1;
      c.Register(x.slot, x.key, x.e.r, pad);
      IsOccupied(t, x.slot, x.key, c.Table());
      c.bytesRead, c.prefetchReads := c.bytesRead + got, c.prefetchReads + 1;
    }
  }

  lemma IsCleared(t: Slots, slot: nat, s: Slots)
    requires slot < |t.keyOf| && t.keyOf[slot] == INFLIGHT
    requires s == Slots(t.slotOf, t.keyOf[slot := EMPTY], t.usedAt, t.pinned, t.clock)
    ensures s == Clear(t, slot)
  {
  }

  lemma IsOccupied(t: Slots, slot: nat, key: nat, s: Slots)
    requires slot < |t.keyOf| == |t.usedAt| && key < |t.slotOf|
    requires s == Slots(t.slotOf[key := slot], t.keyOf[slot := key], t.usedAt[slot := t.clock + 1], t.pinned,
             t.clock + 1)
    ensures s == Occupy(t, slot, key)
  {
  }

  /** What phases 1 and 2 hand to phase 3: an expert counted as read is held by its slot. */
  ghost predicate Ready(c: Cache, v: seq<Work>, got: seq<nat>, pads: seq<nat>, from: nat)
    requires c.Shape() && |v| == |got| == |pads|
    reads c.arena
  {
    forall i :: from <= i < |v| && v[i].slot < c.nslot && got[i] == v[i].e.r.nbytes ==>
        Holding(c.st, v[i].key, v[i].e.r, pads[i], Bytes1(c, v[i]))
  }

  /** Phases 2 together: plan, read, add up. */
  method ReadAll(c: Cache, v: seq<Work>, chunk: nat) returns (got: seq<nat>, pads: seq<nat>)
    requires c.Core() && Pending(c.st, c.slotBytes, c.Table(), v) && 0 < |v| <= MAX_TOPK && chunk > 0
             && chunk % ALIGN == 0
    modifies c.arena
    ensures c.Core() && |got| == |pads| == |v| && Ready(c, v, got, pads, 0)
    ensures forall i :: 0 <= i < |v| && SurelyRead(c.st, c.slotBytes, v[i].key) ==> got[i] == v[i].e.r.nbytes
  {
    hide Consistent, StoreOk, Holding, PlanOk, ItemOk, Reserved, GotOf, Region, SurelyRead, Interleave.AnySchedule;
    var plans := PlanReads(v, chunk);
    var gots;
    ghost var log;
    gots, pads, log := FetchAll(c, v, plans);
    got := AddUp(v, plans, gots, pads);
    SlotsInRange(c.st, c.slotBytes, c.Table(), v);
    forall i | 0 <= i < |v| && got[i] == v[i].e.r.nbytes
      ensures Holding(c.st, v[i].key, v[i].e.r, pads[i], Bytes1(c, v[i])) {
      WorkArrived(c.st, c.slotBytes, c.Table(), v[i], plans[i], gots[i], pads[i], Bytes1(c, v[i]));
    }
    forall i | 0 <= i < |v| && SurelyRead(c.st, c.slotBytes, v[i].key) ensures got[i] == v[i].e.r.nbytes {
      WorkComplete(c.st, c.slotBytes, c.Table(), v[i], plans[i], gots[i], pads[i], Bytes1(c, v[i]));
    }
  }

  /** Phase 3: publish only what actually arrived. */
  method Publish(c: Cache, v: seq<Work>, got: seq<nat>, pads: seq<nat>) returns (ok: nat)
    requires c.Core() && Pending(c.st, c.slotBytes, c.Table(), v) && BusySlots(c) == |v|
    requires |v| == |got| == |pads| && Ready(c, v, got, pads, 0)
    modifies c`clock, c`bytesRead, c`prefetchReads, c`loads, c`order, c.slotOf, c.keyOf, c.usedAt, c.refs, c.pads
    ensures c.Valid() && SamePins(old(c.Table()), c.Table())
            && Count(c.Table(), Fixed, c.nslot) == old(Count(c.Table(), Fixed, c.nslot))
    ensures c.order == old(c.order) + Complete(v, got, |v|) && ok == |Complete(v, got, |v|)|
    ensures c.loads == old(c.loads) + ok && c.prefetchReads == old(c.prefetchReads) + ok
  {
    hide Count, Consistent, StoreOk, SamePins, Holding, Pending, Region;
    ghost var t0, q0, n := c.Table(), c.order, |v|;
    ok := 0;
    c.CoreFacts();
    SizesOf(t0);
    SamePinsSelf(t0);
    for i := 0 to |v|
      invariant c.Core() && Pending(c.st, c.slotBytes, c.Table(), v[i..]) && BusySlots(c) == n - i
      invariant SamePins(t0, c.Table()) && Count(c.Table(), Fixed, c.nslot) == Count(t0, Fixed, c.nslot)
      invariant Ready(c, v, got, pads, i)
      invariant c.order == q0 + Complete(v, got, i) && ok == |Complete(v, got, i)|
      invariant c.loads == old(c.loads) + ok && c.prefetchReads == old(c.prefetchReads) + ok
    {
      ghost var t := c.Table();
      FirstSlot(c.st, c.slotBytes, t, v[i..]);
      PublishOne(c, v[i..], v[i], got[i], pads[i]);
      SamePinsTrans(t0, t, c.Table());
      assert v[i..][1..] == v[i + 1..];
      assert c.order == q0 + Complete(v, got, i + 1);
      if got[i] == v[i].e.r.nbytes { ok := ok + 1; }
    }
  }

  lemma FirstSlot(st: Store, slotBytes: nat, t: Slots, v: seq<Work>)
    requires Pending(st, slotBytes, t, v) && v != []
    ensures v[0].slot < |t.keyOf|
  {
    assert Reserved(st, slotBytes, t, v[0]);
  }

  lemma {:induction false} CompleteKeys(v: seq<Work>, got: seq<nat>, n: nat)
    requires n <= |v| == |got|
    ensures forall k :: k in Complete(v, got, n) ==>
            exists i :: 0 <= i < n && v[i].key == k && got[i] == v[i].e.r.nbytes
    ensures forall i :: 0 <= i < n && got[i] == v[i].e.r.nbytes ==> v[i].key in Complete(v, got, n)
  {
    if n > 0 { CompleteKeys(v, got, n - 1); }
  }

  /** The expert of k lies before that of l on disk, or at the same place. */
  ghost predicate NoLater(st: Store, k: int, l: int) {
    && 0 <= k < |st.keyed| && st.keyed[k].Some? && 0 <= l < |st.keyed| && st.keyed[l].Some?
    && var a, b := st.keyed[k].value.r, st.keyed[l].value.r;
       a.shard < b.shard || (a.shard == b.shard && a.off <= b.off)
  }

  ghost predicate InDiskOrder(st: Store, ks: seq<int>) {
    forall i, j :: 0 <= i < j < |ks| ==> NoLater(st, ks[i], ks[j])
  }

  /** What is published of a sorted list comes in disk order. */
  lemma {:induction false} CompleteInOrder(st: Store, v: seq<Work>, got: seq<nat>, n: nat)
    requires n <= |v| == |got| && DiskSorted(v)
    requires forall i :: 0 <= i < |v| ==> v[i].key < |st.keyed| && st.keyed[v[i].key] == Some(v[i].e)
    ensures InDiskOrder(st, Complete(v, got, n))
  {
    if n > 0 {
      var init := Complete(v, got, n - 1);
      CompleteInOrder(st, v, got, n - 1);
      CompleteKeys(v, got, n - 1);
      forall i | 0 <= i < |init| ensures NoLater(st, init[i], v[n - 1].key) {
        assert init[i] in init;
        var a :| 0 <= a < n - 1 && v[a].key == init[i] && got[a] == v[a].e.r.nbytes;
        assert !AfterOnDisk(v[a], v[n - 1]);
      }
    }
  }

  /** Phase 1 on a whole batch, from a table and its recency order. */
  ghost function Plan(st: Store, slotBytes: nat, layer: nat, nExperts: nat, ids: seq<int>, t: Slots, q: seq<int>)
      : (seq<int>, nat, seq<int>)
    requires |t.keyOf| == |t.pinned|
  {
    Reserving(st, slotBytes, layer, nExperts, PinnedKeys(t), ids, q, Count(t, Free, |t.keyOf|), [])
  }

  /** The expert can be read into a slot. */
  predicate Loadable(st: Store, slotBytes: nat, layer: nat, expert: int) {
    && layer < |st.experts| && 0 <= expert < |st.experts[layer]| && st.experts[layer][expert].Some?
    && st.experts[layer][expert].value.r.nbytes <= slotBytes
  }

  /** Every expert of the layer the ids name that is there or can be read is there afterwards. */
  ghost predicate BatchThere(st: Store, slotBytes: nat, layer: nat, nExperts: nat, ids: seq<int>, before: Slots,
      after: Slots) {
    forall i :: 0 <= i < |ids| && 0 <= ids[i] < nExperts
                && (Here(before, layer, ids[i], nExperts) || Loadable(st, slotBytes, layer, ids[i])) ==>
        Here(after, layer, ids[i], nExperts)
  }

  /** The same of keys. */
  ghost predicate KeysThere(st: Store, slotBytes: nat, layer: nat, nExperts: nat, ids: seq<int>, before: Slots,
      after: Slots) {
    forall k :: k in Named(layer, nExperts, ids) && (Resident(before, k) || Fits(st, slotBytes, k)) ==>
        Resident(after, k)
  }

  lemma ThereByKeys(st: Store, slotBytes: nat, nLayers: nat, layer: nat, nExperts: nat, ids: seq<int>, before: Slots,
                    after: Slots)
    requires Indexed(st, nLayers, nExperts) && layer < nLayers && Inv(before) && Inv(after)
    requires |before.slotOf| == |after.slotOf| == nLayers * nExperts
    ensures BatchThere(st, slotBytes, layer, nExperts, ids, before, after)
       <==> KeysThere(st, slotBytes, layer, nExperts, ids, before, after)
  {
    hide Inv, Here, KeyOf, Resident, Loadable, Fits, Indexed;
    forall i | 0 <= i < |ids| && 0 <= ids[i] < nExperts
      ensures var k := KeyOf(layer, ids[i], nExperts);
              && k in Named(layer, nExperts, ids)
              && (Here(before, layer, ids[i], nExperts) <==> Resident(before, k))
              && (Here(after, layer, ids[i], nExperts) <==> Resident(after, k))
              && (Loadable(st, slotBytes, layer, ids[i]) <==> Fits(st, slotBytes, k))
    {
      HereIs(before, layer, ids[i], nLayers, nExperts);
      HereIs(after, layer, ids[i], nLayers, nExperts);
      LoadableIs(st, slotBytes, nLayers, layer, nExperts, ids[i]);
    }
  }

  lemma LoadableIs(st: Store, slotBytes: nat, nLayers: nat, layer: nat, nExperts: nat, expert: int)
    requires Indexed(st, nLayers, nExperts) && layer < nLayers && 0 <= expert < nExperts
    ensures Loadable(st, slotBytes, layer, expert) <==> Fits(st, slotBytes, KeyOf(layer, expert, nExperts))
  {
    hide Listed, KeyOf;
    ListedAt(st.experts, nExperts, layer, expert);
  }

  /** What phase 1 reserves are experts of this layer that the ids name. */
  ghost predicate OfTheBatch(layer: nat, nExperts: nat, ids: seq<int>, ks: seq<int>) {
    forall k :: k in ks ==> NamedBy(layer, nExperts, ids, k)
  }

  ghost predicate NamedBy(layer: nat, nExperts: nat, ids: seq<int>, k: int) {
    exists i :: 0 <= i < |ids| && 0 <= ids[i] < nExperts && Names(k, layer, ids[i], nExperts)
  }

  lemma PlanIsNamed(st: Store, slotBytes: nat, nLayers: nat, layer: nat, nExperts: nat, ids: seq<int>, t: Slots,
      q: seq<int>)
    requires layer < nLayers && |t.keyOf| == |t.pinned|
    ensures OfTheBatch(layer, nExperts, ids, Plan(st, slotBytes, layer, nExperts, ids, t, q).2)
  {
    hide Reserving, Fits, PinnedKeys, KeyOf, Names, Count, StillIn;
    var free, r := Count(t, Free, |t.keyOf|), Plan(st, slotBytes, layer, nExperts, ids, t, q);
    assert ids[..|ids|] == ids;
    forall k | k in r.2 ensures NamedBy(layer, nExperts, ids, k) {
      ReservedWhen(st, slotBytes, layer, nExperts, PinnedKeys(t), ids, q, free, |ids|, k);
      var i: nat :| i < |ids| && AsksInTime(st, slotBytes, layer, nExperts, PinnedKeys(t), ids, q, free, i, k);
      KeyNames(k, layer, ids[i], nLayers, nExperts);
    }
  }

  /** What becomes of a batch asked for in table t0 with order q0 when all phase 1 reserves is
      published: exactly the keys that arrive are resident in t, so that the batch is there
      exactly when all of it arrives; and no resident member of it was pushed out exactly when
      the free slots and the keys older than the oldest of them covered what had to be read. */
  ghost predicate BatchOutcome(st: Store, slotBytes: nat, layer: nat, nExperts: nat, ids: seq<int>, t0: Slots,
      q0: seq<int>, t: Slots, published: nat)
    requires |t0.keyOf| == |t0.pinned|
  {
    var plan, pins, free := Plan(st, slotBytes, layer, nExperts, ids, t0, q0), PinnedKeys(t0),
        Count(t0, Free, |t0.keyOf|);
    var missing := |Missing(st, slotBytes, layer, nExperts, pins, ids, q0, [])|;
    && (AllStay(q0, Named(layer, nExperts, ids), plan.0)
        <==> Spares(q0, Named(layer, nExperts, ids), missing, free, MAX_TOPK))
    && (published == |plan.2| ==>
      && (forall k :: Resident(t, k) <==> Arrives(st, slotBytes, layer, nExperts, pins, ids, q0, free, k))
      && (BatchThere(st, slotBytes, layer, nExperts, ids, t0, t)
          <==> AllArrive(st, slotBytes, layer, nExperts, pins, ids, q0, free)))
  }

  lemma BatchSettled(st: Store, slotBytes: nat, nLayers: nat, layer: nat, nExperts: nat, ids: seq<int>, t0: Slots,
                     q0: seq<int>, t: Slots, q: seq<int>, published: seq<int>)
    requires |t0.keyOf| == |t0.pinned| && Ranks(t0, q0) && Ranks(t, q) && PinnedKeys(t0) == PinnedKeys(t)
    requires Indexed(st, nLayers, nExperts) && layer < nLayers && Inv(t0) && Inv(t)
    requires |t0.slotOf| == |t.slotOf| == nLayers * nExperts
    requires NoDup(published)
    requires var plan := Plan(st, slotBytes, layer, nExperts, ids, t0, q0);
             q == plan.0 + published && forall k :: k in published ==> k in plan.2
    ensures BatchOutcome(st, slotBytes, layer, nExperts, ids, t0, q0, t, |published|)
  {
    hide Missing, Spares, AllStay, Named, Reserving, Fits, NoDup, PinnedKeys, PinnedKey, Loose, Ranks, Arrives, Count,
      AllArrive, BatchThere, KeysThere, Inv, Indexed;
    var plan, pins, free := Plan(st, slotBytes, layer, nExperts, ids, t0, q0), PinnedKeys(t0),
        Count(t0, Free, |t0.keyOf|);
    RanksNoDup(t0, q0);
    MembersStayWhen(st, slotBytes, layer, nExperts, pins, ids, q0, free, [], Named(layer, nExperts, ids));
    if |published| == |plan.2| {
      AllPublished(published, plan.2);
      forall k ensures Resident(t, k) <==> Arrives(st, slotBytes, layer, nExperts, pins, ids, q0, free, k) {
        ArrivesExactly(st, slotBytes, layer, nExperts, pins, ids, q0, free, k);
        ResidentIs(t, q, k);
        PinnedIs(t, k);
      }
      WholeIs(st, slotBytes, layer, nExperts, ids, t0, q0, free, t);
      ThereByKeys(st, slotBytes, nLayers, layer, nExperts, ids, t0, t);
    }
  }

  lemma WholeIs(st: Store, slotBytes: nat, layer: nat, nExperts: nat, ids: seq<int>, t0: Slots, q0: seq<int>, free: nat,
                t: Slots)
    requires Ranks(t0, q0)
    requires forall k ::
               Resident(t, k) <==> Arrives(st, slotBytes, layer, nExperts, PinnedKeys(t0), ids, q0, free, k)
    ensures KeysThere(st, slotBytes, layer, nExperts, ids, t0, t)
       <==> AllArrive(st, slotBytes, layer, nExperts, PinnedKeys(t0), ids, q0, free)
  {
    hide Named, Fits, PinnedKeys, PinnedKey, Ranks, Arrives, Resident;
    forall k ensures Resident(t0, k) <==> k in q0 || k in PinnedKeys(t0) {
      ResidentIs(t0, q0, k);
      PinnedIs(t0, k);
    }
  }

  lemma RanksNoDup(t: Slots, q: seq<int>)
    requires Ranks(t, q)
    ensures NoDup(q)
  {
  }

  lemma AllPublished(a: seq<int>, b: seq<int>)
    requires NoDup(a) && |a| == |b| && forall k :: k in a ==> k in b
    ensures forall k :: k in b ==> k in a
  {
    NoDupIsSet(a);
    KeysAtMost(b);
    SubsetFull(Keys(a), Keys(b));
    assert forall k :: k in b ==> k in Keys(b);
  }

  lemma SubsetFull<T>(a: set<T>, b: set<T>)
    requires a <= b && |b| <= |a|
    ensures a == b
  {
    assert b == a + (b - a);
  }

  lemma {:induction false} KeysAtMost(s: seq<int>)
    ensures |Keys(s)| <= |s|
  {
    if s != [] {
      var t, l := s[..|s| - 1], s[|s| - 1];
      KeysAtMost(t);
      KeysSnoc(t, l);
      assert s == t + [l];
    }
  }

  /** Phases 2 and 3. */
  method ReadAndPublish(c: Cache, w: seq<Work>, chunkSetting: int, ghost pins: set<int>)
      returns (ok: nat, ghost published: seq<int>)
    requires Reserved1(c, pins, w)
    modifies c`clock, c`bytesRead, c`prefetchReads, c`loads, c`order, c.arena, c.slotOf, c.keyOf, c.usedAt, c.refs,
             c.pads
    ensures c.Valid() && SamePins(old(c.Table()), c.Table())
            && Count(c.Table(), Fixed, c.nslot) == old(Count(c.Table(), Fixed, c.nslot))
    ensures c.order == old(c.order) + published && ok == |published| && c.loads == old(c.loads) + ok
            && c.prefetchReads == old(c.prefetchReads) + ok
    ensures NoDup(published) && (forall k :: k in published ==> Loose(c.Table(), k) && k in KeysIn(w))
    ensures forall k :: k in KeysIn(w) && SurelyRead(c.st, c.slotBytes, k) ==> k in published
    ensures InDiskOrder(c.st, published)
  {
    hide Consistent, StoreOk, SamePins, Pending, Holding, PinnedKeys, PinnedKey, Region, KeysIn, SurelyRead, DiskSorted,
      NoLater;
    ok, published := 0, [];
    if w == [] {
      SamePinsSelf(c.Table());
      assert c.order == c.order + [] && KeysIn(w) == [];
      return;
    }
    var v := SortWork(w);
    PendingPermuted(c.st, c.slotBytes, c.Table(), w, v);
    var got, pads := ReadAll(c, v, ChunkBytes(chunkSetting));
    ghost var q1 := c.order;
    WorksListed(c.st, c.slotBytes, c.Table(), v);
    CompleteInOrder(c.st, v, got, |v|);
    ok := Publish(c, v, got, pads);
    published := Complete(v, got, |v|);
    c.CoreFacts();
    PublishedFacts(c.Table(), q1, c.order, published, w, v, got);
    forall k | k in KeysIn(w) && SurelyRead(c.st, c.slotBytes, k) ensures k in published {
      var j :| 0 <= j < |w| && KeysIn(w)[j] == k;
      KeyAt(w, j);
      assert w[j] in v;
      var i :| 0 <= i < |v| && v[i] == w[j];
      CompleteKeys(v, got, |v|);
    }
  }

  lemma WorksListed(st: Store, slotBytes: nat, t: Slots, v: seq<Work>)
    requires Pending(st, slotBytes, t, v)
    ensures forall i :: 0 <= i < |v| ==> v[i].key < |st.keyed| && st.keyed[v[i].key] == Some(v[i].e)
  {
    forall i | 0 <= i < |v| ensures v[i].key < |st.keyed| && st.keyed[v[i].key] == Some(v[i].e) {
      assert Reserved(st, slotBytes, t, v[i]);
    }
  }

  lemma KeyAt(w: seq<Work>, j: nat)
    requires j < |w|
    ensures KeysIn(w)[j] == w[j].key
  {
  }

  /** `cache_getmany`: afterwards no slot is in flight, pinned keys are where they were, the keys
      dropped are those phase 1 drops, and what was published -- some of what phase 1 reserved,
      all of it that a complete device can read, the rest of whose slots are free -- is the
      youngest of all, the later on disk the younger. */
  method GetMany(c: Cache, layer: nat, ids: seq<int>, chunkSetting: int) returns (ok: nat, ghost published: seq<int>)
    requires c.Valid() && layer < c.nLayers
    modifies c`clock, c`evictions, c`bytesRead, c`prefetchReads, c`loads, c`order, c.arena, c.slotOf, c.keyOf,
             c.usedAt, c.refs, c.pads
    ensures c.Valid() && SamePins(old(c.Table()), c.Table()) && Room(c.Table()) == old(Room(c.Table()))
    ensures var plan := Plan(c.st, c.slotBytes, layer, c.nExperts, ids, old(c.Table()), old(c.order));
            && c.order == plan.0 + published && (forall k :: k in published ==> k in plan.2)
            && (forall k :: k in plan.2 && SurelyRead(c.st, c.slotBytes, k) ==> k in published)
            && c.evictions == old(c.evictions) + (|old(c.order)| - |plan.0|)
            && FreeSlots(c) == plan.1 + (|plan.2| - ok)
    ensures NoDup(published) && ok == |published| && c.loads == old(c.loads) + ok
            && c.prefetchReads == old(c.prefetchReads) + ok
    ensures forall k :: k in published ==> Loose(c.Table(), k)
    ensures InDiskOrder(c.st, published) && OfTheBatch(layer, c.nExperts, ids, published)
    ensures BatchOutcome(c.st, c.slotBytes, layer, c.nExperts, ids, old(c.Table()), old(c.order), c.Table(), ok)
  {
    hide Consistent, StoreOk, SamePins, Pending, Reserving, PinnedKeys, PinnedKey, KeysIn, SurelyRead, BatchOutcome,
      Count, Loose, Ranks, Inv, NoDup, InDiskOrder, NamedBy, Indexed;
    ghost var t0, q0 := c.Table(), c.order;
    c.CoreFacts();
    assert KeysIn([]) == [];
    var w := ReserveSlots(c, layer, ids);
    ghost var t1 := c.Table();
    SlotsAddUp(c);
    ok, published := ReadAndPublish(c, w, chunkSetting, PinnedKeys(t0));
    SamePinsTrans(t0, t1, c.Table());
    c.CoreFacts();
    SlotsAddUp(c);
    SamePinnedSet(t0, c.Table());
    PlanIsNamed(c.st, c.slotBytes, c.nLayers, layer, c.nExperts, ids, t0, q0);
    BatchSettled(c.st, c.slotBytes, c.nLayers, layer, c.nExperts, ids, t0, q0, c.Table(), c.order, published);
  }

  /** Every slot is free, being read into, pinned, or holds a key of the order. */
  lemma SlotsAddUp(c: Cache)
    requires c.Core()
    ensures FreeSlots(c) + BusySlots(c) + Count(c.Table(), Fixed, c.nslot) + |c.order| == c.nslot
  {
    hide Consistent, Count, StoreOk;
    c.CoreFacts();
    CountAll(c.Table(), c.nslot);
    RanksCount(c.Table(), c.order);
  }

  lemma PublishedFacts(t: Slots, q1: seq<int>, q: seq<int>, published: seq<int>, w: seq<Work>, v: seq<Work>,
      got: seq<nat>)
    requires Ranks(t, q) && q == q1 + published && |v| == |got| && published == Complete(v, got, |v|)
             && multiset(v) == multiset(w)
    ensures NoDup(published) && (forall k :: k in published ==> Loose(t, k)) && forall k :: k in published ==>
            k in KeysIn(w)
  {
    NoDupSuffix(q1, published);
    CompleteKeys(v, got, |v|);
    forall k | k in published ensures Loose(t, k) && k in KeysIn(w) {
      var i :| 0 <= i < |v| && v[i].key == k && got[i] == v[i].e.r.nbytes;
      assert v[i] in multiset(v);
      var j :| 0 <= j < |w| && w[j] == v[i];
      assert KeysIn(w)[j] == k;
      assert k in q;
    }
  }
}
