/** Which slots a batch prefetch takes, and which resident experts that costs
    (`cache_getmany` of src/cache/k3_cache.c, phase 1). */
module Reservation {
  import CS = CarriedState
  import opened Common
  import opened ExpertCache
  import opened LruOrder
  import opened ReadPlan

  predicate Fits(st: Store, slotBytes: nat, key: int) {
    0 <= key < |st.keyed| && st.keyed[key].Some? && st.keyed[key].value.r.nbytes <= slotBytes
  }

  /** The id is passed over: it names nothing, is resident at its turn, is already reserved, or
      cannot be read. */
  ghost predicate Passed(st: Store, slotBytes: nat, nExperts: nat, pins: set<int>, id: int, key: int, q: seq<int>,
      work: seq<int>) {
    !(0 <= id < nExperts) || key in q || key in pins || key in work || !Fits(st, slotBytes, key)
  }

  /** Phase 1 on the recency order q, the number of free slots and the keys reserved so far.
      The ids that are not passed over take a free slot or the oldest key's, until neither is
      left or the work list is full. */
  ghost function Reserving(st: Store, slotBytes: nat, layer: nat, nExperts: nat, pins: set<int>, ids: seq<int>,
                           q: seq<int>, free: nat, work: seq<int>): (r: (seq<int>, nat, seq<int>))
    decreases |ids|
  {
    if ids == [] || |work| >= MAX_TOPK then (q, free, work)
    else
      var key := KeyOf(layer, ids[0], nExperts);
      if Passed(st, slotBytes, nExperts, pins, ids[0], key, q, work) then
        Reserving(st, slotBytes, layer, nExperts, pins, ids[1..], q, free, work)
      else if free > 0 then Reserving(st, slotBytes, layer, nExperts, pins, ids[1..], q, free - 1, work + [key])
      else if q != [] then Reserving(st, slotBytes, layer, nExperts, pins, ids[1..], q[1..], 0, work + [key])
      else (q, free, work)
  }

  /** One id of phase 1, unfolded. */
  lemma ReservingOne(st: Store, slotBytes: nat, layer: nat, nExperts: nat, pins: set<int>, ids: seq<int>,
      q: seq<int>, free: nat, work: seq<int>)
    requires ids != [] && |work| < MAX_TOPK
    ensures var key := KeyOf(layer, ids[0], nExperts);
            Reserving(st, slotBytes, layer, nExperts, pins, ids, q, free, work)
            == if Passed(st, slotBytes, nExperts, pins, ids[0], key, q, work)
              then Reserving(st, slotBytes, layer, nExperts, pins, ids[1..], q, free, work)
               else if free > 0 then Reserving(st, slotBytes, layer, nExperts, pins, ids[1..], q, free - 1,
                 work + [key])
               else if q != [] then Reserving(st, slotBytes, layer, nExperts, pins, ids[1..], q[1..], 0, work + [key])
               else (q, free, work)
  {
  }

  lemma ReservingStops(st: Store, slotBytes: nat, layer: nat, nExperts: nat, pins: set<int>, ids: seq<int>,
      q: seq<int>, free: nat, work: seq<int>)
    requires ids == [] || |work| >= MAX_TOPK
    ensures Reserving(st, slotBytes, layer, nExperts, pins, ids, q, free, work) == (q, free, work)
  {
  }

  /** r was reached from order q, `free` free slots and the list `work` by taking free slots first
      and then dropping keys from the old end, one per slot. */
  ghost predicate TakenFrom(q: seq<int>, free: nat, work: seq<int>, r: (seq<int>, nat, seq<int>)) {
    && |r.0| <= |q| && r.0 == q[|q| - |r.0|..] && r.1 <= free && work <= r.2 && |r.2| <= MAX_TOPK
    && |r.2| - |work| == (free - r.1) + (|q| - |r.0|)
    && (r.1 > 0 ==> r.0 == q)
  }

  lemma NothingTaken(q: seq<int>, free: nat, work: seq<int>)
    requires |work| <= MAX_TOPK
    ensures TakenFrom(q, free, work, (q, free, work))
  {
  }

  lemma FreeTaken(q: seq<int>, free: nat, work: seq<int>, key: int, r: (seq<int>, nat, seq<int>))
    requires free > 0 && TakenFrom(q, free - 1, work + [key], r)
    ensures TakenFrom(q, free, work, r)
  {
    assert work <= work + [key];
  }

  lemma OldestTaken(q: seq<int>, work: seq<int>, key: int, r: (seq<int>, nat, seq<int>))
    requires q != [] && TakenFrom(q[1..], 0, work + [key], r)
    ensures TakenFrom(q, 0, work, r)
  {
    assert work <= work + [key];
    SubSlice(q, 1, |q|, |q| - 1 - |r.0|, |q| - 1);
  }

  /** Reserving takes slots in this way. */
  lemma {:induction false} ReservingTakes(st: Store, slotBytes: nat, layer: nat, nExperts: nat, pins: set<int>,
      ids: seq<int>,
                                          q: seq<int>, free: nat, work: seq<int>)
    requires |work| <= MAX_TOPK
    ensures TakenFrom(q, free, work, Reserving(st, slotBytes, layer, nExperts, pins, ids, q, free, work))
    decreases |ids|
  {
    hide Passed, KeyOf, Reserving, TakenFrom;
    NothingTaken(q, free, work);
    if ids == [] || |work| >= MAX_TOPK {
      ReservingStops(st, slotBytes, layer, nExperts, pins, ids, q, free, work);
    } else {
      ReservingOne(st, slotBytes, layer, nExperts, pins, ids, q, free, work);
      var key, r := KeyOf(layer, ids[0], nExperts), Reserving(st, slotBytes, layer, nExperts, pins, ids, q, free, work);
      if Passed(st, slotBytes, nExperts, pins, ids[0], key, q, work) {
        ReservingTakes(st, slotBytes, layer, nExperts, pins, ids[1..], q, free, work);
      } else if free > 0 {
        ReservingTakes(st, slotBytes, layer, nExperts, pins, ids[1..], q, free - 1, work + [key]);
        FreeTaken(q, free, work, key, r);
      } else if q != [] {
        ReservingTakes(st, slotBytes, layer, nExperts, pins, ids[1..], q[1..], 0, work + [key]);
        OldestTaken(q, work, key, r);
      }
    }
  }

  /** A batch never evicts when there are at least as many free slots as ids. */
  lemma EnoughFreeSlots(st: Store, slotBytes: nat, layer: nat, nExperts: nat, pins: set<int>, ids: seq<int>,
      q: seq<int>, free: nat)
    requires |ids| <= free
    ensures Reserving(st, slotBytes, layer, nExperts, pins, ids, q, free, []).0 == q
  {
    ReservingAtMost(st, slotBytes, layer, nExperts, pins, ids, q, free, []);
  }

  lemma {:induction false} ReservingAtMost(st: Store, slotBytes: nat, layer: nat, nExperts: nat, pins: set<int>,
      ids: seq<int>,
                                           q: seq<int>, free: nat, work: seq<int>)
    requires |ids| <= free
    ensures Reserving(st, slotBytes, layer, nExperts, pins, ids, q, free, work).0 == q
    decreases |ids|
  {
    if ids != [] {
      ReservingAtMost(st, slotBytes, layer, nExperts, pins, ids[1..], q, free, work);
      ReservingAtMost(st, slotBytes, layer, nExperts, pins, ids[1..], q, free - 1,
          work + [KeyOf(layer, ids[0], nExperts)]);
    }
  }

  /* ------------------------------------------------------------------ what stays */

  /** The keys the ids name. */
  ghost function Named(layer: nat, nExperts: nat, ids: seq<int>): set<int> {
    set i | 0 <= i < |ids| && 0 <= ids[i] < nExperts :: KeyOf(layer, ids[i], nExperts)
  }

  /** The keys among them that are not there yet and can be read. */
  ghost function Missing(st: Store, slotBytes: nat, layer: nat, nExperts: nat, pins: set<int>, ids: seq<int>,
                         q: seq<int>, work: seq<int>): set<int> {
    set k | k in Named(layer, nExperts, ids) && k !in q && k !in pins && k !in work && Fits(st, slotBytes, k)
  }

  function Least(a: nat, b: int): int {
    if a <= b then a else b
  }

  /** Every member of the batch in the order q is old by no more than the slots phase 1 has to
      take from it: with the free ones they suffice for what it can reserve. */
  ghost predicate Spares(q: seq<int>, members: set<int>, missing: nat, free: nat, room: int) {
    forall i :: 0 <= i < |q| && q[i] in members ==> Least(missing, room) <= free + i
  }

  ghost predicate AllStay(q: seq<int>, members: set<int>, left: seq<int>) {
    forall i :: 0 <= i < |q| && q[i] in members ==> q[i] in left
  }

  lemma NamedStep(layer: nat, nExperts: nat, ids: seq<int>)
    requires ids != []
    ensures Named(layer, nExperts, ids)
         == Named(layer, nExperts, ids[1..]) + if 0 <= ids[0] < nExperts then {KeyOf(layer, ids[0], nExperts)} else {}
  {
    hide KeyOf;
    var a, b := Named(layer, nExperts, ids), Named(layer, nExperts, ids[1..]);
    forall k | k in a ensures k in b || (0 <= ids[0] < nExperts && k == KeyOf(layer, ids[0], nExperts)) {
      var i :| 0 <= i < |ids| && 0 <= ids[i] < nExperts && k == KeyOf(layer, ids[i], nExperts);
      if i > 0 { assert ids[1..][i - 1] == ids[i]; }
    }
    forall k | k in b ensures k in a {
      var i :| 0 <= i < |ids[1..]| && 0 <= ids[1..][i] < nExperts && k == KeyOf(layer, ids[1..][i], nExperts);
      assert ids[i + 1] == ids[1..][i];
    }
  }

  /** One id on: passing it over changes nothing, reserving it takes it off. */
  lemma MissingStep(st: Store, slotBytes: nat, layer: nat, nExperts: nat, pins: set<int>, ids: seq<int>, q: seq<int>,
      work: seq<int>)
    requires ids != []
    ensures var key, m := KeyOf(layer, ids[0], nExperts), Missing(st, slotBytes, layer, nExperts, pins, ids, q, work);
            if Passed(st, slotBytes, nExperts, pins, ids[0], key, q, work) then
              Missing(st, slotBytes, layer, nExperts, pins, ids[1..], q, work) == m
            else
              && key in m && Missing(st, slotBytes, layer, nExperts, pins, ids[1..], q, work + [key]) == m - {key}
              && (q != [] && q[0] !in Named(layer, nExperts, ids) ==>
                    Missing(st, slotBytes, layer, nExperts, pins, ids[1..], q[1..], work + [key]) == m - {key})
  {
    hide KeyOf, Named;
    NamedStep(layer, nExperts, ids);
  }

  /** Dropping the oldest key when it is no member of the batch. */
  lemma SparesDropped(q: seq<int>, members: set<int>, missing: nat, room: int)
    requires q != [] && q[0] !in members && missing >= 1 && room >= 1
    ensures Spares(q, members, missing, 0, room) <==> Spares(q[1..], members, missing - 1, 0, room - 1)
  {
    if Spares(q[1..], members, missing - 1, 0, room - 1) {
      forall i | 0 <= i < |q| && q[i] in members ensures Least(missing, room) <= i {
        assert q[1..][i - 1] == q[i];
      }
    }
  }

  lemma StayDropped(q: seq<int>, members: set<int>, left: seq<int>)
    requires q != [] && q[0] !in members
    ensures AllStay(q, members, left) <==> AllStay(q[1..], members, left)
  {
    if AllStay(q[1..], members, left) {
      forall i | 0 <= i < |q| && q[i] in members ensures q[i] in left { assert q[1..][i - 1] == q[i]; }
    }
  }

  /** No resident member of a batch is pushed out exactly when the reservations it needs, as far
      as the work list has room, are covered by the free slots and the keys older than its
      oldest resident member. */
  lemma {:induction false} MembersStayWhen(st: Store, slotBytes: nat, layer: nat, nExperts: nat, pins: set<int>,
      ids: seq<int>,
                                           q: seq<int>, free: nat, work: seq<int>, members: set<int>)
    requires |work| <= MAX_TOPK && NoDup(q) && Named(layer, nExperts, ids) <= members
    ensures AllStay(q, members, Reserving(st, slotBytes, layer, nExperts, pins, ids, q, free, work).0)
       <==> Spares(q, members, |Missing(st, slotBytes, layer, nExperts, pins, ids, q, work)|, free, MAX_TOPK - |work|)
    decreases |ids|
  {
    hide KeyOf, Named, Missing, Passed, AllStay, Spares, NoDup, Reserving;
    NoneMissing(st, slotBytes, layer, nExperts, pins, q, work);
    var m := Missing(st, slotBytes, layer, nExperts, pins, ids, q, work);
    if ids == [] || |work| >= MAX_TOPK {
      ReservingStops(st, slotBytes, layer, nExperts, pins, ids, q, free, work);
      AllStayAndSpare(q, members, |m|, free, MAX_TOPK - |work|);
    } else {
      ReservingOne(st, slotBytes, layer, nExperts, pins, ids, q, free, work);
      var key, rest := KeyOf(layer, ids[0], nExperts), ids[1..];
      NamedStep(layer, nExperts, ids);
      MissingStep(st, slotBytes, layer, nExperts, pins, ids, q, work);
      if Passed(st, slotBytes, nExperts, pins, ids[0], key, q, work) {
        MembersStayWhen(st, slotBytes, layer, nExperts, pins, rest, q, free, work, members);
      } else if free > 0 {
        MembersStayWhen(st, slotBytes, layer, nExperts, pins, rest, q, free - 1, work + [key], members);
        SparesTaken(q, members, |m|, free, MAX_TOPK - |work|);
      } else if q == [] {
        NothingToLose(members, |m|, MAX_TOPK - |work|);
      } else if q[0] !in members {
        NoDupTail(q);
        MembersStayWhen(st, slotBytes, layer, nExperts, pins, rest, q[1..], 0, work + [key], members);
        SparesDropped(q, members, |m|, MAX_TOPK - |work|);
        StayDropped(q, members, Reserving(st, slotBytes, layer, nExperts, pins, rest, q[1..], 0, work + [key]).0);
      } else {
        ReservingTakes(st, slotBytes, layer, nExperts, pins, rest, q[1..], 0, work + [key]);
        OldestIsLost(q, members, Reserving(st, slotBytes, layer, nExperts, pins, rest, q[1..], 0, work + [key]).0,
            |m|, MAX_TOPK - |work|);
      }
    }
  }

  lemma NoneMissing(st: Store, slotBytes: nat, layer: nat, nExperts: nat, pins: set<int>, q: seq<int>, work: seq<int>)
    ensures |Missing(st, slotBytes, layer, nExperts, pins, [], q, work)| == 0
  {
    assert Missing(st, slotBytes, layer, nExperts, pins, [], q, work) == {};
  }

  lemma AllStayAndSpare(q: seq<int>, members: set<int>, missing: nat, free: nat, room: int)
    requires missing == 0 || room <= 0
    ensures AllStay(q, members, q) && Spares(q, members, missing, free, room)
  {
  }

  lemma SparesTaken(q: seq<int>, members: set<int>, missing: nat, free: nat, room: int)
    requires missing >= 1 && free >= 1
    ensures Spares(q, members, missing, free, room) <==> Spares(q, members, missing - 1, free - 1, room - 1)
  {
  }

  lemma NothingToLose(members: set<int>, missing: nat, room: int)
    ensures AllStay([], members, []) && Spares([], members, missing, 0, room)
  {
  }

  lemma OldestIsLost(q: seq<int>, members: set<int>, left: seq<int>, missing: nat, room: int)
    requires q != [] && NoDup(q) && q[0] in members && missing >= 1 && room >= 1
    requires |left| <= |q| - 1 && left == q[1..][|q| - 1 - |left|..]
    ensures !AllStay(q, members, left) && !Spares(q, members, missing, 0, room)
  {
    forall i | 0 <= i < |left| ensures left[i] != q[0] { assert left[i] == q[|q| - |left| + i]; }
  }

  /** A reservation of a batch that is spared leaves it spared. */
  lemma SparesNext(q: seq<int>, members: set<int>, missing: nat, free: nat, room: int)
    requires NoDup(q) && missing >= 1 && room >= 1 && missing <= free + |q| && Spares(q, members, missing, free, room)
    ensures free > 0 ==> Spares(q, members, missing - 1, free - 1, room - 1)
    ensures free == 0 ==>
            q != [] && q[0] !in members && NoDup(q[1..]) && Spares(q[1..], members, missing - 1, 0, room - 1)
  {
    hide NoDup;
    if free > 0 {
      SparesTaken(q, members, missing, free, room);
    } else {
      assert q[0] !in members;
      SparesDropped(q, members, missing, room);
      NoDupTail(q);
    }
  }

  /** If besides the work list and the order have room for all that is missing, the whole batch
      is pinned, still in the order, or reserved. */
  lemma {:induction false} BatchIsCovered(st: Store, slotBytes: nat, layer: nat, nExperts: nat, pins: set<int>,
      ids: seq<int>,
                                          q: seq<int>, free: nat, work: seq<int>, members: set<int>, k: int)
    requires |work| <= MAX_TOPK && NoDup(q) && Named(layer, nExperts, ids) <= members
             && k in Named(layer, nExperts, ids)
    requires k in q || k in pins || k in work || Fits(st, slotBytes, k)
    requires var missing := |Missing(st, slotBytes, layer, nExperts, pins, ids, q, work)|;
             missing <= MAX_TOPK - |work| && missing <= free + |q|
               && Spares(q, members, missing, free, MAX_TOPK - |work|)
    ensures var r := Reserving(st, slotBytes, layer, nExperts, pins, ids, q, free, work);
            k in r.0 || k in pins || k in r.2
    decreases |ids|
  {
    hide KeyOf, Named, Missing, Spares, AllStay, NoDup, Passed, Reserving, Fits;
    MembersStayWhen(st, slotBytes, layer, nExperts, pins, ids, q, free, work, members);
    ReservingTakes(st, slotBytes, layer, nExperts, pins, ids, q, free, work);
    if k in q {
      StaysIn(q, members, Reserving(st, slotBytes, layer, nExperts, pins, ids, q, free, work).0, k);
    } else if k !in pins && k !in work {
      InMissing(st, slotBytes, layer, nExperts, pins, ids, q, work, k);
      var m, key, rest := Missing(st, slotBytes, layer, nExperts, pins, ids, q, work),
          KeyOf(layer, ids[0], nExperts), ids[1..];
      NamedStep(layer, nExperts, ids);
      MissingStep(st, slotBytes, layer, nExperts, pins, ids, q, work);
      ReservingOne(st, slotBytes, layer, nExperts, pins, ids, q, free, work);
      if Passed(st, slotBytes, nExperts, pins, ids[0], key, q, work) {
        PassedNot(st, slotBytes, nExperts, pins, ids[0], key, q, work);
        InMissing(st, slotBytes, layer, nExperts, pins, rest, q, work, k);
        BatchIsCovered(st, slotBytes, layer, nExperts, pins, rest, q, free, work, members, k);
      } else {
        SparesNext(q, members, |m|, free, MAX_TOPK - |work|);
        var q', free' := if free > 0 then q else q[1..], if free > 0 then free - 1 else 0;
        ReservingTakes(st, slotBytes, layer, nExperts, pins, rest, q', free', work + [key]);
        InWork(work, key, Reserving(st, slotBytes, layer, nExperts, pins, rest, q', free', work + [key]).2);
        if k != key { BatchIsCovered(st, slotBytes, layer, nExperts, pins, rest, q', free', work + [key], members, k); }
      }
    }
  }

  lemma PassedNot(st: Store, slotBytes: nat, nExperts: nat, pins: set<int>, id: int, key: int, q: seq<int>,
      work: seq<int>)
    requires Passed(st, slotBytes, nExperts, pins, id, key, q, work)
    ensures 0 <= id < nExperts && key !in q && key !in pins && key !in work ==> !Fits(st, slotBytes, key)
  {
  }

  lemma InWork(work: seq<int>, key: int, more: seq<int>)
    requires work + [key] <= more
    ensures key in more
  {
    assert more[|work|] == (work + [key])[|work|] == key;
  }

  lemma StaysIn(q: seq<int>, members: set<int>, left: seq<int>, k: int)
    requires AllStay(q, members, left) && k in q && k in members
    ensures k in left
  {
  }

  lemma NoDupTail(q: seq<int>)
    requires q != [] && NoDup(q)
    ensures NoDup(q[1..])
  {
  }

  lemma InMissing(st: Store, slotBytes: nat, layer: nat, nExperts: nat, pins: set<int>, ids: seq<int>, q: seq<int>,
      work: seq<int>, k: int)
    requires k !in q && k !in pins && k !in work && Fits(st, slotBytes, k)
    ensures k in Missing(st, slotBytes, layer, nExperts, pins, ids, q, work) <==> k in Named(layer, nExperts, ids)
    ensures ids == [] ==> k !in Named(layer, nExperts, ids)
    ensures k in Named(layer, nExperts, ids) ==> |Missing(st, slotBytes, layer, nExperts, pins, ids, q, work)| >= 1
  {
    hide Fits, KeyOf;
    var m := Missing(st, slotBytes, layer, nExperts, pins, ids, q, work);
    if k in m { assert m == (m - {k}) + {k}; }
  }

  /* ------------------------------------------------------------------ what arrives */

  /** Phase 1 of a ++ b is phase 1 of a, then of b on what a left. */
  lemma {:induction false} ReservingAppend(st: Store, slotBytes: nat, layer: nat, nExperts: nat, pins: set<int>,
      a: seq<int>, b: seq<int>, q: seq<int>, free: nat, work: seq<int>)
    ensures var r := Reserving(st, slotBytes, layer, nExperts, pins, a, q, free, work);
            Reserving(st, slotBytes, layer, nExperts, pins, a + b, q, free, work)
            == Reserving(st, slotBytes, layer, nExperts, pins, b, r.0, r.1, r.2)
    decreases |a|
  {
    hide Passed, KeyOf, Reserving;
    if a == [] || |work| >= MAX_TOPK {
      ReservingStops(st, slotBytes, layer, nExperts, pins, a, q, free, work);
      assert a == [] ==> a + b == b;
      if |work| >= MAX_TOPK {
        ReservingStops(st, slotBytes, layer, nExperts, pins, a + b, q, free, work);
        ReservingStops(st, slotBytes, layer, nExperts, pins, b, q, free, work);
      }
    } else {
      ReservingOne(st, slotBytes, layer, nExperts, pins, a, q, free, work);
      ReservingOne(st, slotBytes, layer, nExperts, pins, a + b, q, free, work);
      assert (a + b)[0] == a[0] && (a + b)[1..] == a[1..] + b;
      var key := KeyOf(layer, a[0], nExperts);
      if Passed(st, slotBytes, nExperts, pins, a[0], key, q, work) {
        ReservingAppend(st, slotBytes, layer, nExperts, pins, a[1..], b, q, free, work);
      } else if free > 0 {
        ReservingAppend(st, slotBytes, layer, nExperts, pins, a[1..], b, q, free - 1, work + [key]);
      } else if q != [] {
        ReservingAppend(st, slotBytes, layer, nExperts, pins, a[1..], b, q[1..], 0, work + [key]);
      } else {
        NoSlotLeft(st, slotBytes, layer, nExperts, pins, b, work);
      }
    }
  }

  lemma {:induction false} NoSlotLeft(st: Store, slotBytes: nat, layer: nat, nExperts: nat, pins: set<int>,
      ids: seq<int>, work: seq<int>)
    ensures Reserving(st, slotBytes, layer, nExperts, pins, ids, [], 0, work) == ([], 0, work)
    decreases |ids|
  {
    hide Passed, KeyOf;
    if ids != [] { NoSlotLeft(st, slotBytes, layer, nExperts, pins, ids[1..], work); }
  }

  /** How many slots the first n ids take. */
  ghost function Taken(st: Store, slotBytes: nat, layer: nat, nExperts: nat, pins: set<int>, ids: seq<int>,
                       q: seq<int>, free: nat, n: nat): nat
    requires n <= |ids|
  {
    |Reserving(st, slotBytes, layer, nExperts, pins, ids[..n], q, free, []).2|
  }

  /** k is in the order, and `taken` slots leave it there: the free ones go first, then the
      oldest keys. */
  ghost predicate StillIn(q: seq<int>, free: nat, taken: nat, k: int) {
    exists p :: 0 <= p < |q| && q[p] == k && taken <= free + p
  }

  /** Id t asks for k when k is not in the order, or no longer, and there is a slot to take. */
  ghost predicate AsksInTime(st: Store, slotBytes: nat, layer: nat, nExperts: nat, pins: set<int>, ids: seq<int>,
                             q: seq<int>, free: nat, t: nat, k: int)
    requires t < |ids|
  {
    var taken := Taken(st, slotBytes, layer, nExperts, pins, ids, q, free, t);
    && 0 <= ids[t] < nExperts && KeyOf(layer, ids[t], nExperts) == k
    && taken < MAX_TOPK && taken < free + |q| && !StillIn(q, free, taken, k)
  }

  /** The key is pinned, or never pushed out, or asked for in time. */
  ghost predicate Arrives(st: Store, slotBytes: nat, layer: nat, nExperts: nat, pins: set<int>, ids: seq<int>,
                          q: seq<int>, free: nat, k: int) {
    || k in pins
    || StillIn(q, free, Taken(st, slotBytes, layer, nExperts, pins, ids, q, free, |ids|), k)
    || (Fits(st, slotBytes, k)
      && exists t: nat :: t < |ids| && AsksInTime(st, slotBytes, layer, nExperts, pins, ids, q, free, t, k))
  }

  lemma StillThere(st: Store, slotBytes: nat, layer: nat, nExperts: nat, pins: set<int>, ids: seq<int>, q: seq<int>,
      free: nat, k: int)
    ensures var r := Reserving(st, slotBytes, layer, nExperts, pins, ids, q, free, []);
            && (k in r.0 <==> StillIn(q, free, |r.2|, k))
            && |r.2| <= MAX_TOPK && |r.2| + r.1 + |r.0| == free + |q|
  {
    hide Reserving, TakenFrom, StillIn;
    ReservingTakes(st, slotBytes, layer, nExperts, pins, ids, q, free, []);
    InWhatIsLeft(q, free, Reserving(st, slotBytes, layer, nExperts, pins, ids, q, free, []), k);
  }

  lemma InWhatIsLeft(q: seq<int>, free: nat, r: (seq<int>, nat, seq<int>), k: int)
    requires TakenFrom(q, free, [], r)
    ensures (k in r.0 <==> StillIn(q, free, |r.2|, k)) && |r.2| <= MAX_TOPK && |r.2| + r.1 + |r.0| == free + |q|
  {
    var d := |q| - |r.0|;
    if k in r.0 {
      var i :| 0 <= i < |r.0| && r.0[i] == k;
      assert q[d + i] == k;
    }
    if StillIn(q, free, |r.2|, k) {
      var p :| 0 <= p < |q| && q[p] == k && |r.2| <= free + p;
      assert r.0[p - d] == k;
    }
  }

  /** One id more: what it adds to the work list. */
  lemma OneMoreTaken(st: Store, slotBytes: nat, layer: nat, nExperts: nat, pins: set<int>, id: int, q: seq<int>,
      free: nat, work: seq<int>, k: int)
    requires |work| <= MAX_TOPK
    ensures var r := Reserving(st, slotBytes, layer, nExperts, pins, [id], q, free, work);
            k in r.2 <==>
              || k in work
              || (&& 0 <= id < nExperts && KeyOf(layer, id, nExperts) == k && k !in q && k !in pins
                && Fits(st, slotBytes, k)
                  && |work| < MAX_TOPK && free + |q| > 0)
  {
    hide KeyOf, Fits, Reserving;
    if |work| >= MAX_TOPK {
      ReservingStops(st, slotBytes, layer, nExperts, pins, [id], q, free, work);
    } else {
      ReservingOne(st, slotBytes, layer, nExperts, pins, [id], q, free, work);
      var key := KeyOf(layer, id, nExperts);
      ReservingStops(st, slotBytes, layer, nExperts, pins, [id][1..], q, free, work);
      if free > 0 { ReservingStops(st, slotBytes, layer, nExperts, pins, [id][1..], q, free - 1, work + [key]); }
      if q != [] { ReservingStops(st, slotBytes, layer, nExperts, pins, [id][1..], q[1..], 0, work + [key]); }
    }
  }

  lemma AskedAt(st: Store, slotBytes: nat, layer: nat, nExperts: nat, pins: set<int>, ids: seq<int>, q: seq<int>,
      free: nat, t: nat, k: int)
    requires t < |ids|
    ensures var r := Reserving(st, slotBytes, layer, nExperts, pins, ids[..t], q, free, []);
            AsksInTime(st, slotBytes, layer, nExperts, pins, ids, q, free, t, k) <==>
              && 0 <= ids[t] < nExperts && KeyOf(layer, ids[t], nExperts) == k && k !in r.0
              && |r.2| < MAX_TOPK && r.1 + |r.0| > 0
  {
    hide KeyOf, Fits, Reserving, StillIn;
    StillThere(st, slotBytes, layer, nExperts, pins, ids[..t], q, free, k);
  }

  /** A key is reserved exactly when an id asks for it in time. */
  lemma {:induction false} ReservedWhen(st: Store, slotBytes: nat, layer: nat, nExperts: nat, pins: set<int>,
      ids: seq<int>, q: seq<int>, free: nat, n: nat, k: int)
    requires n <= |ids|
    ensures k in Reserving(st, slotBytes, layer, nExperts, pins, ids[..n], q, free, []).2 <==>
              && k !in pins && Fits(st, slotBytes, k)
              && exists t: nat :: t < n && AsksInTime(st, slotBytes, layer, nExperts, pins, ids, q, free, t, k)
    decreases n
  {
    hide KeyOf, Fits, Reserving, AsksInTime, StillIn;
    if n == 0 {
      ReservingStops(st, slotBytes, layer, nExperts, pins, ids[..0], q, free, []);
    } else {
      var t := n - 1;
      ReservedWhen(st, slotBytes, layer, nExperts, pins, ids, q, free, t, k);
      AskedAt(st, slotBytes, layer, nExperts, pins, ids, q, free, t, k);
      var r := Reserving(st, slotBytes, layer, nExperts, pins, ids[..t], q, free, []);
      StillThere(st, slotBytes, layer, nExperts, pins, ids[..t], q, free, k);
      CS.TakeSnoc(ids, t);
      ReservingAppend(st, slotBytes, layer, nExperts, pins, ids[..t], [ids[t]], q, free, []);
      OneMoreTaken(st, slotBytes, layer, nExperts, pins, ids[t], r.0, r.1, r.2, k);
    }
  }

  /** Exactly when a key is pinned, still in place, or reserved after phase 1. */
  lemma ArrivesExactly(st: Store, slotBytes: nat, layer: nat, nExperts: nat, pins: set<int>, ids: seq<int>,
      q: seq<int>, free: nat, k: int)
    ensures var r := Reserving(st, slotBytes, layer, nExperts, pins, ids, q, free, []);
            k in pins || k in r.0 || k in r.2 <==> Arrives(st, slotBytes, layer, nExperts, pins, ids, q, free, k)
  {
    hide AsksInTime, Fits, Reserving, StillIn;
    assert ids[..|ids|] == ids;
    StillThere(st, slotBytes, layer, nExperts, pins, ids, q, free, k);
    ReservedWhen(st, slotBytes, layer, nExperts, pins, ids, q, free, |ids|, k);
  }

  /** Every member of the batch that is there or can be read arrives. */
  ghost predicate AllArrive(st: Store, slotBytes: nat, layer: nat, nExperts: nat, pins: set<int>, ids: seq<int>,
                            q: seq<int>, free: nat) {
    forall k :: k in Named(layer, nExperts, ids) && (k in q || k in pins || Fits(st, slotBytes, k)) ==>
        Arrives(st, slotBytes, layer, nExperts, pins, ids, q, free, k)
  }

  /** So it does when no resident member is pushed out and there is room for all that is missing. */
  lemma SparedArrive(st: Store, slotBytes: nat, layer: nat, nExperts: nat, pins: set<int>, ids: seq<int>, q: seq<int>,
      free: nat)
    requires var missing := |Missing(st, slotBytes, layer, nExperts, pins, ids, q, [])|;
             missing <= MAX_TOPK && missing <= free + |q|
               && Spares(q, Named(layer, nExperts, ids), missing, free, MAX_TOPK)
    requires NoDup(q)
    ensures AllArrive(st, slotBytes, layer, nExperts, pins, ids, q, free)
  {
    hide Missing, Spares, Named, Reserving, Fits, NoDup, Arrives;
    forall k | k in Named(layer, nExperts, ids) && (k in q || k in pins || Fits(st, slotBytes, k))
      ensures Arrives(st, slotBytes, layer, nExperts, pins, ids, q, free, k)
    {
      BatchIsCovered(st, slotBytes, layer, nExperts, pins, ids, q, free, [], Named(layer, nExperts, ids), k);
      ArrivesExactly(st, slotBytes, layer, nExperts, pins, ids, q, free, k);
    }
  }

  /** Without free slots it can push out a member of the same batch, even in a cache with a slot
      for every member: the resident member is passed over, and a later one takes its slot. */
  lemma ResidentMemberCanBeLost(st: Store, slotBytes: nat)
    requires Fits(st, slotBytes, 1)
    ensures Reserving(st, slotBytes, 0, 3, {}, [0, 1], [0, 2], 0, []) == ([2], 0, [1])
  {
    assert [0, 1][1..] == [1] && [1][1..] == [] && [0, 2][1..] == [2];
    assert [] + [1] == [1];
  }

  /** With the ids in the other order it is pushed out and reserved again at its own turn, so the
      whole batch arrives although a resident member did not stay. */
  lemma LostMemberCanReturn(st: Store, slotBytes: nat)
    requires Fits(st, slotBytes, 0) && Fits(st, slotBytes, 1)
    ensures var r := Reserving(st, slotBytes, 0, 3, {}, [1, 0], [0, 2], 0, []);
            r == ([], 0, [1, 0]) && !AllStay([0, 2], Named(0, 3, [1, 0]), r.0)
    ensures AllArrive(st, slotBytes, 0, 3, {}, [1, 0], [0, 2], 0)
  {
    hide *;
    ReturnReserved(st, slotBytes);
    BothNamed();
    LostOne(Named(0, 3, [1, 0]));
    BothArrive(st, slotBytes);
  }

  lemma BothArrive(st: Store, slotBytes: nat)
    requires Reserving(st, slotBytes, 0, 3, {}, [1, 0], [0, 2], 0, []) == ([], 0, [1, 0])
    requires Named(0, 3, [1, 0]) == {0, 1}
    ensures AllArrive(st, slotBytes, 0, 3, {}, [1, 0], [0, 2], 0)
  {
    hide Reserving, Arrives, Named;
    forall k | k in Named(0, 3, [1, 0]) ensures Arrives(st, slotBytes, 0, 3, {}, [1, 0], [0, 2], 0, k) {
      ArrivesExactly(st, slotBytes, 0, 3, {}, [1, 0], [0, 2], 0, k);
    }
  }

  lemma LostOne(members: set<int>)
    requires members == {0, 1}
    ensures !AllStay([0, 2], members, [])
  {
    assert [0, 2][0] in members;
  }

  lemma ReturnReserved(st: Store, slotBytes: nat)
    requires Fits(st, slotBytes, 0) && Fits(st, slotBytes, 1)
    ensures Reserving(st, slotBytes, 0, 3, {}, [1, 0], [0, 2], 0, []) == ([], 0, [1, 0])
  {
    hide Reserving, Fits;
    assert [1, 0][1..] == [0] && [0][1..] == [] && [0, 2][1..] == [2] && [2][1..] == [];
    assert [] + [1] == [1] && [1] + [0] == [1, 0];
    ReservingOne(st, slotBytes, 0, 3, {}, [1, 0], [0, 2], 0, []);
    ReservingOne(st, slotBytes, 0, 3, {}, [0], [2], 0, [1]);
    ReservingStops(st, slotBytes, 0, 3, {}, [], [], 0, [1, 0]);
  }

  lemma BothNamed()
    ensures Named(0, 3, [1, 0]) == {0, 1}
  {
    var s := [1, 0];
    assert KeyOf(0, s[0], 3) == 1 && KeyOf(0, s[1], 3) == 0;
  }
}
