/** The expert cache of src/cache/k3_cache.c, one request at a time: a fixed arena of slots,
    least-recently-used replacement by scanning time stamps, and pins. */
module ExpertCache {
  import opened Common
  import opened LruOrder
  import opened SlotTable
  import opened ExpertLoad
  import opened ReadPlan
  import CS = CarriedState
  import Interleave

  /** What the checkpoint says about one expert; `hi` is where its run ends. */
  datatype Expert = Expert(r: Ref, all: seq<Tensor>, hi: nat)

  /** The shard files, whether they open with O_DIRECT, whether every read brings all there is,
      and the experts, layer by layer; `keyed` lists them in the order of their keys. */
  datatype Store = Store(disk: seq<seq<byte>>, direct: bool, complete: bool, experts: seq<seq<Option<Expert>>>,
    keyed: seq<Option<Expert>>)

  /** The experts of one layer after the other. */
  function Listed(layers: seq<seq<Option<Expert>>>): seq<Option<Expert>> {
    if layers == [] then [] else Listed(layers[..|layers| - 1]) + layers[|layers| - 1]
  }

  /** Every layer has nExperts places, and the keys count through all of them. */
  ghost predicate Indexed(st: Store, nLayers: nat, nExperts: nat) {
    && |st.experts| == nLayers && (forall l :: 0 <= l < nLayers ==> |st.experts[l]| == nExperts)
    && st.keyed == Listed(st.experts)
  }

  ghost predicate Sound(disk: seq<seq<byte>>, e: Expert) {
    |e.all| == 6 && InFiles(disk, e.all) && Describes(e.r, e.all, e.hi)
  }

  ghost predicate StoreOk(st: Store) {
    forall k :: 0 <= k < |st.keyed| && st.keyed[k].Some? ==> Sound(st.disk, st.keyed[k].value)
  }

  /** A slot has room for the expert and for all that a read of it touches. */
  ghost predicate Roomed(st: Store, slotBytes: nat, e: Expert) {
    e.r.nbytes <= slotBytes && (e.r.contiguous ==> Touched(st.direct, e.r.off, e.r.nbytes) <= slotBytes)
  }

  /** The device is complete and the key's expert, if it names one, fits: its read must succeed. */
  ghost predicate Readable(st: Store, slotBytes: nat, key: int) {
    st.complete && 0 <= key < |st.keyed| && st.keyed[key].Some? && Roomed(st, slotBytes, st.keyed[key].value)
  }

  /** The bytes behind `pad` are the expert's bytes on disk. */
  ghost predicate HeldAt(disk: seq<seq<byte>>, e: Expert, pad: nat, bytes: seq<byte>)
    requires Sound(disk, e)
  {
    e.r.nbytes > 0 ==> pad + e.r.nbytes <= |bytes| && bytes[pad..pad + e.r.nbytes] == Image(disk, e.r, e.all, e.hi)
  }

  /** The slot's bytes, geometry and pad are those of key k. */
  ghost predicate Holding(st: Store, k: int, ref: Ref, pad: nat, bytes: seq<byte>)
    requires StoreOk(st)
  {
    && 0 <= k < |st.keyed| && st.keyed[k].Some?
    && ref == st.keyed[k].value.r && HeldAt(st.disk, st.keyed[k].value, pad, bytes)
  }

  /** The bytes of slot i. */
  function Region(arena: seq<byte>, n: nat, slotBytes: nat, i: nat): (r: seq<byte>)
    requires |arena| == n * slotBytes && i < n
    ensures |r| == slotBytes
  {
    CS.Slice(arena, n, slotBytes, i, slotBytes)
  }

  /** Every slot that claims a key holds it. */
  ghost predicate Holdings(st: Store, keyOf: seq<int>, refs: seq<Ref>, pads: seq<nat>, arena: seq<byte>, slotBytes: nat)
    requires StoreOk(st) && |keyOf| == |refs| == |pads| && |arena| == |keyOf| * slotBytes
  {
    forall i :: 0 <= i < |keyOf| && keyOf[i] >= 0 ==>
        Holding(st, keyOf[i], refs[i], pads[i], Region(arena, |keyOf|, slotBytes, i))
  }

  /** Writing inside one slot leaves the bytes of the others. */
  lemma RegionsApart(was: seq<byte>, now: seq<byte>, n: nat, slotBytes: nat, slot: nat, i: nat)
    requires |was| == |now| == n * slotBytes && slot < n && i < n && i != slot
    requires CS.At(slot, slotBytes, 0) + slotBytes <= n * slotBytes
             && OnlyWithin(was, now, CS.At(slot, slotBytes, 0), slotBytes)
    ensures Region(now, n, slotBytes, i) == Region(was, n, slotBytes, i)
  {
    var a, b := CS.At(slot, slotBytes, 0), CS.At(i, slotBytes, 0);
    CS.SliceFits(n, slotBytes, i);
    CS.SlicesApart(n, slotBytes, slot, i);
    hide CS.At, Region, CS.Slice;
    if b + slotBytes <= a {
      SubSlice(was, 0, a, b, b + slotBytes);
      SubSlice(now, 0, a, b, b + slotBytes);
    } else {
      SubSlice(was, a + slotBytes, |was|, b - (a + slotBytes), b - a);
      SubSlice(now, a + slotBytes, |now|, b - (a + slotBytes), b - a);
    }
    RegionIs(was, n, slotBytes, i);
    RegionIs(now, n, slotBytes, i);
  }

  lemma RegionIs(arena: seq<byte>, n: nat, slotBytes: nat, i: nat)
    requires |arena| == n * slotBytes && i < n
    ensures CS.At(i, slotBytes, 0) + slotBytes <= n * slotBytes
    ensures Region(arena, n, slotBytes, i) == arena[CS.At(i, slotBytes, 0)..CS.At(i, slotBytes, 0) + slotBytes]
  {
    CS.SliceFits(n, slotBytes, i);
  }

  /** Changing one slot, to hold nothing or to hold what it claims, keeps the holdings. */
  lemma HoldingsAfter(st: Store, keyOf: seq<int>, refs: seq<Ref>, pads: seq<nat>, arena: seq<byte>, slotBytes: nat,
      slot: nat,
                      k: int, ref: Ref, pad: nat, arena': seq<byte>)
    requires StoreOk(st) && |keyOf| == |refs| == |pads| && |arena| == |arena'| == |keyOf| * slotBytes && slot < |keyOf|
    requires CS.At(slot, slotBytes, 0) + slotBytes <= |arena|
             && OnlyWithin(arena, arena', CS.At(slot, slotBytes, 0), slotBytes)
    requires Holdings(st, keyOf, refs, pads, arena, slotBytes)
    requires k >= 0 ==> Holding(st, k, ref, pad, Region(arena', |keyOf|, slotBytes, slot))
    ensures Holdings(st, keyOf[slot := k], refs[slot := ref], pads[slot := pad], arena', slotBytes)
  {
    hide Holding;
    var keys := keyOf[slot := k];
    forall i | 0 <= i < |keyOf| && keys[i] >= 0
      ensures Holding(st, keys[i], refs[slot := ref][i], pads[slot := pad][i], Region(arena', |keyOf|, slotBytes, i))
    {
      if i != slot { RegionsApart(arena, arena', |keyOf|, slotBytes, slot, i); }
    }
  }

  /* ------------------------------------------------------------ what one miss does */

  /** Room for keys that are not pinned. */
  function Room(t: Slots): int
    requires |t.keyOf| == |t.pinned|
  {
    |t.keyOf| - Count(t, Fixed, |t.keyOf|)
  }

  /** The keys left once there is room for one more. */
  function Older(q: seq<int>, room: int): seq<int> {
    if |q| >= room && q != [] then q[1..] else q
  }

  ghost predicate SamePins(t: Slots, t': Slots) {
    && |t.keyOf| == |t'.keyOf| == |t.pinned| && t'.pinned == t.pinned
    && forall i :: 0 <= i < |t.keyOf| && t.pinned[i] ==> t'.keyOf[i] == t.keyOf[i]
  }

  datatype Tally = Tally(hits: nat, misses: nat, evictions: nat, loads: nat)

  /** One request for `key`, from table t, order q and counts c to order q' and counts c'.  A hit
      makes the key the youngest, unless it is pinned; a miss makes room, then appends it.  A
      miss that fails has cost nothing, or the key that made room. */
  ghost predicate Requested(t: Slots, q: seq<int>, c: Tally, key: int, q': seq<int>, c': Tally, ok: bool)
    requires |t.keyOf| == |t.pinned|
  {
    var evicts := if |q| >= Room(t) then 1 else 0;
    if Resident(t, key) then
      ok && q' == (if PinnedKey(t, key) then q else Touch(q, key)) && c' == c.(hits := c.hits + 1)
    else if ok then
      q' == Older(q, Room(t)) + [key] && c' == Tally(c.hits, c.misses + 1, c.evictions + evicts, c.loads + 1)
    else
      || (q' == q && c' == c.(misses := c.misses + 1))
      || (q' == Older(q, Room(t)) && c' == c.(misses := c.misses + 1, evictions := c.evictions + evicts))
  }

  /** For a key that is not pinned, a request that succeeds is one step of LRU at the capacity
      the pins leave, and counts a hit exactly when that cache would. */
  lemma RequestIsStep(t: Slots, q: seq<int>, c: Tally, key: int, q': seq<int>, c': Tally)
    requires Inv(t) && Ranks(t, q) && Requested(t, q, c, key, q', c', true) && !PinnedKey(t, key) && Room(t) >= 1
    ensures q' == Step(q, key, Room(t)) && c'.hits == c.hits + if key in q then 1 else 0
  {
    assert key in q <==> Loose(t, key);
  }

  lemma RequestCounts(t: Slots, q: seq<int>, c: Tally, key: int, q': seq<int>, c': Tally, ok: bool)
    requires |t.keyOf| == |t.pinned| && Requested(t, q, c, key, q', c', ok)
    ensures c'.hits == c.hits + (if Resident(t, key) then 1 else 0) && c'.hits + c'.misses == c.hits + c.misses + 1
  {
  }

  /** The table, the recency order and the bytes agree. */
  ghost predicate Consistent(st: Store, t: Slots, q: seq<int>, refs: seq<Ref>, pads: seq<nat>, arena: seq<byte>,
      slotBytes: nat) {
    && StoreOk(st) && Inv(t) && Ranks(t, q)
    && |t.keyOf| == |t.usedAt| == |t.pinned| == |refs| == |pads| && |arena| == |t.keyOf| * slotBytes
    && Holdings(st, t.keyOf, refs, pads, arena, slotBytes)
  }

  /** The slots after a key that was not resident has been read into the victim's slot, or
      after that read failed: the victim is gone either way. */
  lemma MissTable(t: Slots, q: seq<int>, slot: nat, key: nat)
    requires Inv(t) && Ranks(t, q) && Victim(t, slot) && slot < |t.keyOf| && key < |t.slotOf| && t.slotOf[key] == -1
    requires Count(t, Busy, |t.keyOf|) == 0
    ensures var t0, q0 := Clear(t, slot), Older(q, Room(t));
            var t1 := Occupy(t0, slot, key);
            && t.keyOf[slot] < |t.slotOf| && (|q| >= Room(t) <==> t.keyOf[slot] >= 0)
            && |q0| == |q| - (if t.keyOf[slot] >= 0 then 1 else 0)
            && Inv(t0) && Ranks(t0, q0) && Inv(t1) && Ranks(t1, q0 + [key])
            && SamePins(t, t0) && SamePins(t, t1)
            && Count(t0, Fixed, |t.keyOf|) == Count(t1, Fixed, |t.keyOf|) == Count(t, Fixed, |t.keyOf|)
            && Room(t0) == Room(t1) == Room(t)
            && Count(t0, Busy, |t.keyOf|) == Count(t1, Busy, |t.keyOf|) == 0
  {
    hide Inv, Ranks, Victim, Count, Remove;
    var n := |t.keyOf|;
    SizesOf(t);
    RanksCount(t, q);
    CountAll(t, n);
    VictimIsOldest(t, q, slot);
    ClearRanks(t, q, slot);
    ClearInv(t, slot);
    var t0 := Clear(t, slot);
    var t1 := Occupy(t0, slot, key);
    var q0 := Older(q, Room(t));
    NotThere(t, slot, key);
    if |q| >= Room(t) { HeadIsThere(t, q); }
    OccupyInv(t0, slot, key);
    OccupyRanks(t0, q0, slot, key);
    CountChange(t, t0, slot, Fixed, n);
    CountChange(t, t0, slot, Busy, n);
    CountChange(t0, t1, slot, Fixed, n);
    CountChange(t0, t1, slot, Busy, n);
  }

  lemma HeadIsThere(t: Slots, q: seq<int>)
    requires Ranks(t, q) && q != []
    ensures 0 <= q[0] < |t.slotOf|
  {
    assert q[0] in q;
  }

  /** What a miss leaves behind, bytes included. */
  lemma MissFails(st: Store, t: Slots, q: seq<int>, refs: seq<Ref>, pads: seq<nat>, arena: seq<byte>, slotBytes: nat,
                  slot: nat, key: nat, arena': seq<byte>)
    requires Consistent(st, t, q, refs, pads, arena, slotBytes) && Count(t, Busy, |t.keyOf|) == 0
    requires Victim(t, slot) && slot < |t.keyOf| && key < |t.slotOf| && t.slotOf[key] == -1
    requires |arena'| == |arena| && CS.At(slot, slotBytes, 0) + slotBytes <= |arena|
             && OnlyWithin(arena, arena', CS.At(slot, slotBytes, 0), slotBytes)
    ensures Consistent(st, Clear(t, slot), Older(q, Room(t)), refs, pads, arena', slotBytes)
  {
    hide Inv, Ranks, Victim, Count, Holding, Holdings, StoreOk, OnlyWithin, Room, Older;
    MissTable(t, q, slot, key);
    HoldingsAfter(st, t.keyOf, refs, pads, arena, slotBytes, slot, EMPTY, refs[slot], pads[slot], arena');
    assert refs[slot := refs[slot]] == refs && pads[slot := pads[slot]] == pads;
  }

  lemma MissSucceeds(st: Store, t: Slots, q: seq<int>, refs: seq<Ref>, pads: seq<nat>, arena: seq<byte>, slotBytes: nat,
                     slot: nat, key: nat, ref: Ref, pad: nat, arena': seq<byte>)
    requires Consistent(st, t, q, refs, pads, arena, slotBytes) && Count(t, Busy, |t.keyOf|) == 0
    requires Victim(t, slot) && slot < |t.keyOf| && key < |t.slotOf| && t.slotOf[key] == -1
    requires |arena'| == |arena| && CS.At(slot, slotBytes, 0) + slotBytes <= |arena|
             && OnlyWithin(arena, arena', CS.At(slot, slotBytes, 0), slotBytes)
    requires Holding(st, key, ref, pad, Region(arena', |t.keyOf|, slotBytes, slot))
    ensures Consistent(st, Occupy(Clear(t, slot), slot, key), Older(q, Room(t)) + [key], refs[slot := ref],
            pads[slot := pad], arena', slotBytes)
  {
    hide Inv, Ranks, Victim, Count, Holding, Holdings, StoreOk, OnlyWithin, Room, Older;
    MissTable(t, q, slot, key);
    HoldingsAfter(st, t.keyOf, refs, pads, arena, slotBytes, slot, key, ref, pad, arena');
    assert t.keyOf[slot := EMPTY][slot := key] == t.keyOf[slot := key];
  }

  lemma MissEvicts(t: Slots, q: seq<int>, slot: nat, key: nat)
    requires Inv(t) && Ranks(t, q) && Victim(t, slot) && slot < |t.keyOf| && key < |t.slotOf| && t.slotOf[key] == -1
    requires Count(t, Busy, |t.keyOf|) == 0
    ensures |t.keyOf| == |t.usedAt| == |t.pinned| && t.keyOf[slot] < |t.slotOf|
    ensures |q| >= Room(t) <==> t.keyOf[slot] >= 0
    ensures |Older(q, Room(t))| == |q| - (if t.keyOf[slot] >= 0 then 1 else 0)
  {
    hide Inv, Ranks, Victim, Count, Room, Older;
    SizesOf(t);
    MissTable(t, q, slot, key);
  }

  /** The victim's key as the code takes it out of the table. */
  function TakenOut(t: Slots, slot: nat): seq<int>
    requires slot < |t.keyOf| && t.keyOf[slot] < |t.slotOf|
  {
    if t.keyOf[slot] >= 0 then t.slotOf[t.keyOf[slot] := -1] else t.slotOf
  }

  lemma MissFilled(st: Store, t: Slots, q: seq<int>, refs: seq<Ref>, pads: seq<nat>, arena: seq<byte>, slotBytes: nat,
                   slot: nat, key: nat, ref: Ref, pad: nat, arena': seq<byte>, s: Slots)
    requires Consistent(st, t, q, refs, pads, arena, slotBytes) && Count(t, Busy, |t.keyOf|) == 0
    requires Victim(t, slot) && slot < |t.keyOf| && key < |t.slotOf| && t.slotOf[key] == -1
    requires |arena'| == |arena| && CS.At(slot, slotBytes, 0) + slotBytes <= |arena|
             && OnlyWithin(arena, arena', CS.At(slot, slotBytes, 0), slotBytes)
    requires Holding(st, key, ref, pad, Region(arena', |t.keyOf|, slotBytes, slot)) && t.keyOf[slot] < |t.slotOf|
    requires s == Slots(TakenOut(t, slot)[key := slot], t.keyOf[slot := key], t.usedAt[slot := t.clock + 1], t.pinned,
             t.clock + 1)
    ensures Consistent(st, s, Older(q, Room(t)) + [key], refs[slot := ref], pads[slot := pad], arena', slotBytes)
    ensures SamePins(t, s) && Room(s) == Room(t) && Count(s, Busy, |t.keyOf|) == 0
    ensures Count(s, Fixed, |t.keyOf|) == Count(t, Fixed, |t.keyOf|)
  {
    hide Inv, Ranks, Victim, Count, Holding, Holdings, StoreOk, OnlyWithin, Room, Older;
    MissTable(t, q, slot, key);
    MissSucceeds(st, t, q, refs, pads, arena, slotBytes, slot, key, ref, pad, arena');
    Unlinked(t, slot, TakenOut(t, slot));
    Occupied(t, slot, key, s);
  }

  lemma MissEmptied(st: Store, t: Slots, q: seq<int>, refs: seq<Ref>, pads: seq<nat>, arena: seq<byte>, slotBytes: nat,
                    slot: nat, key: nat, arena': seq<byte>, s: Slots)
    requires Consistent(st, t, q, refs, pads, arena, slotBytes) && Count(t, Busy, |t.keyOf|) == 0
    requires Victim(t, slot) && slot < |t.keyOf| && key < |t.slotOf| && t.slotOf[key] == -1
    requires |arena'| == |arena| && CS.At(slot, slotBytes, 0) + slotBytes <= |arena|
             && OnlyWithin(arena, arena', CS.At(slot, slotBytes, 0), slotBytes)
    requires t.keyOf[slot] < |t.slotOf|
    requires s == Slots(TakenOut(t, slot), t.keyOf[slot := EMPTY], t.usedAt, t.pinned, t.clock)
    ensures Consistent(st, s, Older(q, Room(t)), refs, pads, arena', slotBytes)
    ensures SamePins(t, s) && Room(s) == Room(t) && Count(s, Busy, |t.keyOf|) == 0
    ensures Count(s, Fixed, |t.keyOf|) == Count(t, Fixed, |t.keyOf|)
  {
    hide Inv, Ranks, Victim, Count, Holding, Holdings, StoreOk, OnlyWithin, Room, Older;
    MissTable(t, q, slot, key);
    MissFails(st, t, q, refs, pads, arena, slotBytes, slot, key, arena');
    Unlinked(t, slot, TakenOut(t, slot));
    Cleared(t, slot, s);
  }

  lemma SizesOf(t: Slots)
    requires Inv(t)
    ensures |t.keyOf| == |t.usedAt| == |t.pinned|
  {
  }

  lemma NotThere(t: Slots, slot: nat, key: nat)
    requires Inv(t) && slot < |t.keyOf| && key < |t.slotOf| && t.slotOf[key] == -1
    ensures Clear(t, slot).slotOf[key] == -1 && t.keyOf[slot] != key
  {
    assert SlotOk(t, slot);
  }

  lemma SamePinsSelf(t: Slots)
    requires |t.keyOf| == |t.pinned|
    ensures SamePins(t, t)
  {
  }

  lemma MissIsFree(t: Slots, key: nat)
    requires Inv(t) && key < |t.slotOf| && t.slotOf[key] < 0
    ensures t.slotOf[key] == -1
  {
    assert KeyOk(t, key);
  }

  /** While nothing is in flight and some slot is not pinned there is a victim. */
  lemma SomeVictim(t: Slots, r: int)
    requires Inv(t) && Victim(t, r) && |t.keyOf| == |t.pinned| && Count(t, Busy, |t.keyOf|) == 0
    ensures Room(t) >= 1 ==> r >= 0
  {
    CountNone(t, Free, |t.keyOf|);
    CountNone(t, Open, |t.keyOf|);
    CountAll(t, |t.keyOf|);
  }

  lemma VictimInRange(t: Slots, r: int)
    requires |t.keyOf| == |t.usedAt| == |t.pinned| && Victim(t, r) && r >= 0
    ensures r < |t.keyOf|
  {
  }

  ghost function HitOrder(q: seq<int>, key: int): (r: seq<int>)
    requires NoDup(q) && key in q
    ensures r == Touch(q, key) && |r| == |q|
  {
    TouchNoDup(q, key);
    Touch(q, key)
  }

  lemma HitTable(t: Slots, q: seq<int>, key: nat)
    requires Inv(t) && Ranks(t, q) && key < |t.slotOf| && t.slotOf[key] >= 0
    ensures t.slotOf[key] < |t.keyOf| && |t.usedAt| == |t.keyOf| == |t.pinned|
    ensures NoDup(q) && t.keyOf[t.slotOf[key]] == key && (key in q <==> !PinnedKey(t, key))
    ensures var t' := Hit(t, t.slotOf[key]);
            && Inv(t') && Ranks(t', if PinnedKey(t, key) then q else Touch(q, key)) && SamePins(t, t')
            && forall kind :: Count(t', kind, |t.keyOf|) == Count(t, kind, |t.keyOf|)
  {
    hide Count, Touch;
    StampsPast(t, key);
    HitInv(t, t.slotOf[key]);
    HitRanks(t, q, key);
    var t' := Hit(t, t.slotOf[key]);
    forall kind ensures Count(t', kind, |t.keyOf|) == Count(t, kind, |t.keyOf|) {
      CountChange(t, t', t.slotOf[key], kind, |t.keyOf|);
    }
  }

  /** Where the six matrices of a held expert are, and that they are the bytes on disk. */
  lemma HeldParts(st: Store, k: int, ref: Ref, pad: nat, arena: seq<byte>, n: nat, slotBytes: nat, slot: nat, i: nat)
    requires StoreOk(st) && |arena| == n * slotBytes && slot < n
             && Holding(st, k, ref, pad, Region(arena, n, slotBytes, slot))
    requires i < 6 && ref.nbytes > 0
    ensures Sound(st.disk, st.keyed[k].value) && |ref.m| == 3
    ensures PartAt(st.disk, st.keyed[k].value.all[i], arena, CS.At(slot, slotBytes, 0) + pad + Place(ref, i))
  {
    hide *;
    HoldingFacts(st, k, ref, pad, Region(arena, n, slotBytes, slot));
    var e := st.keyed[k].value;
    ImagePlaces(st.disk, e.r, e.all, e.hi, i);
    RegionIs(arena, n, slotBytes, slot);
    PartOfRegion(arena, CS.At(slot, slotBytes, 0), slotBytes, pad, ref.nbytes, Place(ref, i), e.all[i].nbytes);
    IsPartAt(st.disk, e.all[i], arena, CS.At(slot, slotBytes, 0) + pad + Place(ref, i));
  }

  lemma IsPartAt(disk: seq<seq<byte>>, t: Tensor, arena: seq<byte>, at: nat)
    requires t.shard < |disk| && t.off + t.nbytes <= |disk[t.shard]| && at + t.nbytes <= |arena|
    requires arena[at..at + t.nbytes] == Bytes(disk, t)
    ensures PartAt(disk, t, arena, at)
  {
  }

  lemma HoldingFacts(st: Store, k: int, ref: Ref, pad: nat, bytes: seq<byte>)
    requires StoreOk(st) && Holding(st, k, ref, pad, bytes) && ref.nbytes > 0
    ensures 0 <= k < |st.keyed| && st.keyed[k].Some? && Sound(st.disk, st.keyed[k].value)
    ensures var e := st.keyed[k].value;
            && |e.all| == 6 && InFiles(st.disk, e.all) && Describes(e.r, e.all, e.hi) && |e.r.m| == 3 && ref == e.r
            && (forall j :: 0 <= j < 6 ==>
              e.all[j].shard < |st.disk| && e.all[j].off + e.all[j].nbytes <= |st.disk[e.all[j].shard]|)
            && pad + ref.nbytes <= |bytes| && bytes[pad..pad + ref.nbytes] == Image(st.disk, e.r, e.all, e.hi)
  {
    hide Describes, InFiles, Image;
    var e := st.keyed[k].value;
    assert Sound(st.disk, e);
    SoundFacts(st.disk, e);
  }

  lemma SoundFacts(disk: seq<seq<byte>>, e: Expert)
    requires Sound(disk, e)
    ensures |e.all| == 6 && InFiles(disk, e.all) && Describes(e.r, e.all, e.hi) && |e.r.m| == 3 && e.r.shard < |disk|
    ensures forall j :: 0 <= j < 6 ==>
            e.all[j].shard < |disk| && e.all[j].off + e.all[j].nbytes <= |disk[e.all[j].shard]|
  {
    hide Describes, InFiles;
    RunFacts(disk, e.r, e.all, e.hi);
    PlaceOf(e.r, e.all, e.hi, 0);
  }

  lemma PartOfRegion(arena: seq<byte>, a: nat, slotBytes: nat, pad: nat, nbytes: nat, p: nat, len: nat)
    requires a + slotBytes <= |arena| && pad + nbytes <= slotBytes && p + len <= nbytes
    ensures arena[a..a + slotBytes][pad..pad + nbytes][p..p + len] == arena[a + pad + p..a + pad + p + len]
  {
    SubSlice(arena, a, a + slotBytes, pad, pad + nbytes);
    SubSlice(arena, a + pad, a + pad + nbytes, p, p + len);
  }

  lemma Unlinked(t: Slots, slot: nat, slotOf: seq<int>)
    requires slot < |t.keyOf| && t.keyOf[slot] < |t.slotOf|
    requires slotOf == if t.keyOf[slot] >= 0 then t.slotOf[t.keyOf[slot] := -1] else t.slotOf
    ensures slotOf == Unlink(t, slot)
  {
  }

  lemma Occupied(t: Slots, slot: nat, key: nat, s: Slots)
    requires slot < |t.keyOf| == |t.usedAt| && key < |t.slotOf|
    requires s == Slots(Unlink(t, slot)[key := slot], t.keyOf[slot := key], t.usedAt[slot := t.clock + 1], t.pinned,
             t.clock + 1)
    ensures s == Occupy(Clear(t, slot), slot, key)
  {
    assert t.keyOf[slot := EMPTY][slot := key] == t.keyOf[slot := key];
  }

  lemma Cleared(t: Slots, slot: nat, s: Slots)
    requires slot < |t.keyOf|
    requires s == Slots(Unlink(t, slot), t.keyOf[slot := EMPTY], t.usedAt, t.pinned, t.clock)
    ensures s == Clear(t, slot)
  {
  }

  ghost predicate PartAt(disk: seq<seq<byte>>, t: Tensor, arena: seq<byte>, at: nat) {
    && t.shard < |disk| && t.off + t.nbytes <= |disk[t.shard]| && at + t.nbytes <= |arena|
    && arena[at..at + t.nbytes] == Bytes(disk, t)
  }

  function KeyOf(layer: int, expert: int, nExperts: nat): int {
    layer * nExperts + expert
  }

  ghost predicate KeyInRange(layer: int, expert: int, nLayers: nat, nExperts: nat) {
    0 <= KeyOf(layer, expert, nExperts) < nLayers * nExperts
  }

  lemma KeyFits(layer: int, expert: int, nLayers: nat, nExperts: nat)
    requires 0 <= layer < nLayers && 0 <= expert < nExperts
    ensures KeyInRange(layer, expert, nLayers, nExperts)
  {
    assert (layer + 1) * nExperts <= nLayers * nExperts;
    assert layer * nExperts >= 0;
  }

  /** The place of an expert in the list is its key. */
  lemma {:induction false} ListedAt(layers: seq<seq<Option<Expert>>>, n: nat, layer: nat, expert: nat)
    requires (forall l :: 0 <= l < |layers| ==> |layers[l]| == n) && layer < |layers| && expert < n
    ensures |Listed(layers)| == |layers| * n
    ensures 0 <= KeyOf(layer, expert, n) < |Listed(layers)|
    ensures Listed(layers)[KeyOf(layer, expert, n)] == layers[layer][expert]
  {
    KeyFits(layer, expert, |layers|, n);
    ListedLength(layers, n);
    var init := layers[..|layers| - 1];
    ListedLength(init, n);
    if layer < |init| { ListedAt(init, n, layer, expert); }
  }

  lemma {:induction false} ListedLength(layers: seq<seq<Option<Expert>>>, n: nat)
    requires forall l :: 0 <= l < |layers| ==> |layers[l]| == n
    ensures |Listed(layers)| == |layers| * n
  {
    if layers != [] { ListedLength(layers[..|layers| - 1], n); }
  }

  /** The key stands for this expert of this layer. */
  predicate Names(key: int, layer: int, expert: int, n: nat) {
    n > 0 && key / n == layer && key % n == expert
  }

  /** In range, a pair has one key and a key one pair. */
  lemma KeyNames(key: int, layer: int, expert: int, nLayers: nat, nExperts: nat)
    requires 0 <= layer < nLayers && 0 <= expert < nExperts
    ensures Names(key, layer, expert, nExperts) <==> key == KeyOf(layer, expert, nExperts)
  {
    QuotientIs(KeyOf(layer, expert, nExperts), layer, expert, nExperts);
    if Names(key, layer, expert, nExperts) { assert key == key / nExperts * nExperts + key % nExperts; }
  }

  /** Different pairs have different keys. */
  lemma OtherPair(layer: int, expert: int, l: int, e: int, nLayers: nat, nExperts: nat)
    requires 0 <= layer < nLayers && 0 <= expert < nExperts && 0 <= l < nLayers && 0 <= e < nExperts
    requires l != layer || e != expert
    ensures KeyOf(l, e, nExperts) != KeyOf(layer, expert, nExperts)
  {
    hide KeyOf;
    KeyNames(KeyOf(l, e, nExperts), l, e, nLayers, nExperts);
    KeyNames(KeyOf(layer, expert, nExperts), layer, expert, nLayers, nExperts);
  }

  /** Some slot holds this expert of this layer. */
  ghost predicate Here(t: Slots, layer: int, expert: int, n: nat) {
    exists i :: 0 <= i < |t.keyOf| && t.keyOf[i] >= 0 && Names(t.keyOf[i], layer, expert, n)
  }

  /** ... and is pinned. */
  ghost predicate HerePinned(t: Slots, layer: int, expert: int, n: nat) {
    exists i :: 0 <= i < |t.keyOf| && t.keyOf[i] >= 0 && Names(t.keyOf[i], layer, expert, n)
                && i < |t.pinned| && t.pinned[i]
  }

  lemma HereIs(t: Slots, layer: int, expert: int, nLayers: nat, nExperts: nat)
    requires Inv(t) && 0 <= layer < nLayers && 0 <= expert < nExperts && |t.slotOf| == nLayers * nExperts
    ensures Here(t, layer, expert, nExperts) <==> Resident(t, KeyOf(layer, expert, nExperts))
    ensures HerePinned(t, layer, expert, nExperts) <==> PinnedKey(t, KeyOf(layer, expert, nExperts))
  {
    hide KeyOf, Names;
    var key := KeyOf(layer, expert, nExperts);
    KeyFits(layer, expert, nLayers, nExperts);
    forall k ensures Names(k, layer, expert, nExperts) <==> k == key { KeyNames(k, layer, expert, nLayers, nExperts); }
    assert KeyOk(t, key);
    if Resident(t, key) { assert Names(t.keyOf[t.slotOf[key]], layer, expert, nExperts); }
    forall i | 0 <= i < |t.keyOf| && t.keyOf[i] == key ensures t.slotOf[key] == i { assert SlotOk(t, i); }
  }

  /** The table and the order after a pin changes. */
  lemma PinOrder(t: Slots, q: seq<int>, key: nat, pin: bool) returns (r: seq<int>)
    requires Inv(t) && Ranks(t, q) && Resident(t, key)
    ensures t.slotOf[key] < |t.keyOf| == |t.pinned|
    ensures var t' := SetPin(t, t.slotOf[key], pin);
            && Inv(t') && Ranks(t', r)
            && (if pin then r == Remove(q, key) else key in r && Remove(r, key) == Remove(q, key))
            && (PinnedKey(t', key) <==> pin)
            && |r| + Count(t', Fixed, |t.keyOf|) == |q| + Count(t, Fixed, |t.keyOf|)
            && Count(t', Busy, |t.keyOf|) == Count(t, Busy, |t.keyOf|)
            && forall k :: k != key ==> (PinnedKey(t', k) <==> PinnedKey(t, k))
  {
    StampsPast(t, key);
    var slot, n := t.slotOf[key], |t.keyOf|;
    var t' := SetPin(t, slot, pin);
    SetPinInv(t, slot, pin);
    if pin {
      PinRanks(t, q, key);
      r := Remove(q, key);
    } else {
      r := UnpinRanks(t, q, key);
    }
    hide Ranks, Remove, Count;
    LooseIsIn(t', r, key);
    RanksCount(t, q);
    RanksCount(t', r);
    CountAll(t, n);
    CountAll(t', n);
    CountChange(t, t', slot, Busy, n);
    CountChange(t, t', slot, Free, n);
    forall k | k != key && Resident(t, k) ensures t.slotOf[k] != slot { StampsPast(t, k); }
  }

  lemma LooseIsIn(t: Slots, q: seq<int>, key: int)
    requires Ranks(t, q)
    ensures key in q <==> Loose(t, key)
  {
  }

  class Cache {
    const st: Store
    const nLayers: nat
    const nExperts: nat
    const slotBytes: nat
    const nslot: nat
    const traced: bool

    const arena: array<byte>
    const slotOf: array<int>
    const keyOf: array<int>
    const usedAt: array<nat>
    const pinned: array<bool>
    const refs: array<Ref>
    const pads: array<nat>
    const hist: array<nat>

    var clock: nat
    var hits: nat
    var misses: nat
    var evictions: nat
    var bytesRead: nat
    var prefetchReads: nat
    var trace: seq<int>

    /** Reads that succeeded, evictions up to the last reset of the counters, and the unpinned
        resident keys, least recently used first. */
    ghost var loads: nat
    ghost var evictedBefore: nat
    ghost var order: seq<int>

    ghost function Table(): (t: Slots)
      reads this, slotOf, keyOf, usedAt, pinned
      ensures |t.slotOf| == slotOf.Length && |t.keyOf| == keyOf.Length && |t.usedAt| == usedAt.Length
              && |t.pinned| == pinned.Length
    {
      Slots(slotOf[..], keyOf[..], usedAt[..], pinned[..], clock)
    }

    ghost predicate Shape() {
      && slotOf.Length == nLayers * nExperts == |st.keyed| == hist.Length && Indexed(st, nLayers, nExperts)
      && keyOf.Length == usedAt.Length == pinned.Length == refs.Length == pads.Length == nslot
      && arena.Length == nslot * slotBytes
      && slotOf != keyOf && usedAt != pads && usedAt != hist && pads != hist
      && StoreOk(st)
    }

    /** What holds even in the middle of a batch. */
    ghost predicate Core()
      reads this, slotOf, keyOf, usedAt, pinned, refs, pads, arena
    {
      && Shape() && Consistent(st, Table(), order, refs[..], pads[..], arena[..], slotBytes)
      && loads == |order| + Count(Table(), Fixed, nslot) + evictedBefore + evictions
    }

    /** Between calls no slot is being read into. */
    ghost predicate Valid()
      reads this, slotOf, keyOf, usedAt, pinned, refs, pads, arena
    {
      Core() && Count(Table(), Busy, nslot) == 0
    }

    /** `traced`: there is memory for the request trace. */
    constructor (st: Store, nLayers: nat, nExperts: nat, slotBytes: nat, nslot: nat, traced: bool)
      requires StoreOk(st) && Indexed(st, nLayers, nExperts)
      ensures Valid() && order == [] && Room(Table()) == nslot && Tallies() == Tally(0, 0, 0, 0) && trace == []
      ensures this.st == st && this.nLayers == nLayers && this.nExperts == nExperts && this.slotBytes == slotBytes
              && this.nslot == nslot && this.traced == traced
      ensures fresh(arena) && fresh(slotOf) && fresh(keyOf) && fresh(usedAt) && fresh(pinned) && fresh(refs)
              && fresh(pads) && fresh(hist)
    {
      this.st, this.nLayers, this.nExperts, this.slotBytes, this.nslot := st, nLayers, nExperts, slotBytes, nslot;
      this.traced := traced;
      arena := new byte[nslot * slotBytes](_ => 0);
      slotOf := new int[|st.keyed|](_ => -1);
      keyOf := new int[nslot](_ => EMPTY);
      usedAt := new nat[nslot](_ => 0);
      pinned := new bool[nslot](_ => false);
      refs := new Ref[nslot](_ => Ref(0, 0, 0, false, []));
      pads := new nat[nslot](_ => 0);
      hist := new nat[|st.keyed|](_ => 0);
      clock, hits, misses, evictions, bytesRead, prefetchReads, trace := 0, 0, 0, 0, 0, 0, [];
      loads, evictedBefore, order := 0, 0, [];
      new;
      hide *;
      IndexedLength(st, nLayers, nExperts);
      StartsValid();
    }

    static lemma IndexedLength(st: Store, nLayers: nat, nExperts: nat)
      requires Indexed(st, nLayers, nExperts)
      ensures |st.keyed| == nLayers * nExperts
    {
      ListedLength(st.experts, nExperts);
    }

    lemma StartsValid()
      requires Shape() && order == [] && loads == evictedBefore == evictions == hits == misses == 0 && clock == 0
      requires (forall k :: 0 <= k < slotOf.Length ==> slotOf[k] == -1) && StoreOk(st)
      requires forall i :: 0 <= i < nslot ==> keyOf[i] == EMPTY && usedAt[i] == 0 && !pinned[i]
      ensures Valid() && Room(Table()) == nslot && Tallies() == Tally(0, 0, 0, 0)
    {
      hide Consistent, Count, StoreOk, Room, Blank;
      IsBlank(slotOf[..], keyOf[..], usedAt[..], pinned[..]);
      FreshCache(st, Table(), refs[..], pads[..], arena[..], slotBytes);
    }

    /** Read one expert into a slot and register it.  The victim's slot is given up before the
        read; if that falls short the slot is left empty and the victim is lost. */
    method Fill(slot: nat, key: nat, e: Expert) returns (ok: bool)
      requires Valid() && slot < nslot && key < slotOf.Length && slotOf[key] == -1 && Victim(Table(), slot)
      requires st.keyed[key] == Some(e) && e.r.nbytes <= slotBytes
      modifies this`clock, this`evictions, this`bytesRead, this`loads, this`order, arena, slotOf, keyOf, usedAt,
               refs, pads
      ensures Valid() && SamePins(old(Table()), Table()) && Room(Table()) == old(Room(Table()))
      ensures order == Older(old(order), old(Room(Table()))) + if ok then [key] else []
      ensures evictions == old(evictions) + if |old(order)| >= old(Room(Table())) then 1 else 0
      ensures loads == old(loads) + if ok then 1 else 0
      ensures ok ==> keyOf[slot] == key && slotOf[key] == slot
      ensures Readable(st, slotBytes, key) ==> ok
    {
      hide Inv, Ranks, Victim, Count, Consistent, Holding, Sound, StoreOk, OnlyWithin, Older, Room, SamePins, Roomed,
        Region,
        CS.At, Interleave.ByCalls;
      ghost var t, q, bytes, rs, ps := Table(), order, arena[..], refs[..], pads[..];
      CoreFacts();
      MissEvicts(t, q, slot, key);
      if keyOf[slot] >= 0 {
        slotOf[keyOf[slot]] := -1;
        evictions := evictions + 1;
      }
      order := Older(q, Room(t));
      ghost var calls;
      var got, pad;
      got, pad, calls := ReadInto(slot, e);
      ok := got == e.r.nbytes;
      if ok { Enter(slot, key, e.r, pad, t, q, rs, ps, bytes); } else { Vacate(slot, key, t, q, rs, ps, bytes); }
    }

    /** The slot was given up and read into, all else is as in table t with order q. */
    ghost predicate GivenUp(slot: nat, key: nat, t: Slots, q: seq<int>, rs: seq<Ref>, ps: seq<nat>, bytes: seq<byte>)
      reads this, slotOf, keyOf, usedAt, pinned, refs, pads, arena
    {
      && Shape() && Consistent(st, t, q, rs, ps, bytes, slotBytes)
      && |t.keyOf| == |t.usedAt| == |t.pinned| == nslot && |t.slotOf| == slotOf.Length
      && Count(t, Busy, nslot) == 0 && Victim(t, slot)
      && slot < nslot && key < |t.slotOf| && t.slotOf[key] == -1 && t.keyOf[slot] < |t.slotOf|
      && slotOf[..] == TakenOut(t, slot) && keyOf[..] == t.keyOf && usedAt[..] == t.usedAt && pinned[..] == t.pinned
      && clock == t.clock && refs[..] == rs && pads[..] == ps && order == Older(q, Room(t))
      && CS.At(slot, slotBytes, 0) + slotBytes <= |bytes| == arena.Length
      && OnlyWithin(bytes, arena[..], CS.At(slot, slotBytes, 0), slotBytes)
      && loads == |order| + Count(t, Fixed, nslot) + evictedBefore + evictions
    }

    method Enter(slot: nat, key: nat, ref: Ref, pad: nat, ghost t: Slots, ghost q: seq<int>, ghost rs: seq<Ref>,
        ghost ps: seq<nat>, ghost bytes: seq<byte>)
      requires GivenUp(slot, key, t, q, rs, ps, bytes)
      requires Holding(st, key, ref, pad, Region(arena[..], nslot, slotBytes, slot))
      modifies this`clock, this`bytesRead, this`loads, this`order, slotOf, keyOf, usedAt, refs, pads
      ensures Valid() && SamePins(t, Table()) && Room(Table()) == Room(t)
      ensures order == old(order) + [key] && loads == old(loads) + 1 && keyOf[slot] == key && slotOf[key] == slot
    {
      hide Inv, Ranks, Victim, Count, Consistent, Holding, StoreOk, OnlyWithin, Older, Room, SamePins, Region, CS.At,
        TakenOut;
      bytesRead, loads, order := bytesRead + ref.nbytes, loads + 1, order + [key];
      Register(slot, key, ref, pad);
      MissFilled(st, t, q, rs, ps, bytes, slotBytes, slot, key, ref, pad, arena[..], Table());
    }

    method Vacate(slot: nat, key: nat, ghost t: Slots, ghost q: seq<int>, ghost rs: seq<Ref>, ghost ps: seq<nat>,
        ghost bytes: seq<byte>)
      requires GivenUp(slot, key, t, q, rs, ps, bytes)
      modifies keyOf
      ensures Valid() && SamePins(t, Table()) && Room(Table()) == Room(t)
    {
      hide Inv, Ranks, Victim, Count, Consistent, Holding, StoreOk, OnlyWithin, Older, Room, SamePins, CS.At, TakenOut;
      keyOf[slot] := EMPTY;
      MissEmptied(st, t, q, rs, ps, bytes, slotBytes, slot, key, arena[..], Table());
    }

    lemma CoreFacts()
      requires Core()
      ensures Inv(Table()) && Ranks(Table(), order) && StoreOk(st)
      ensures forall k :: 0 <= k < |st.keyed| && st.keyed[k].Some? ==> Sound(st.disk, st.keyed[k].value)
    {
    }

    /** `k3_cache_reset_stats`, before every decode step: the counters, and nothing else. */
    method ResetStats()
      requires Valid()
      modifies this`hits, this`misses, this`evictions, this`bytesRead, this`prefetchReads, this`evictedBefore
      ensures Valid() && hits == misses == evictions == bytesRead == prefetchReads == 0
      ensures Evicted() == old(Evicted())
    {
      hide Consistent, Count;
      evictedBefore := evictedBefore + evictions;
      hits, misses, evictions, bytesRead, prefetchReads := 0, 0, 0, 0, 0;
    }

    /** All evictions so far, whenever the counters were reset. */
    ghost function Evicted(): nat
      reads this
    {
      evictedBefore + evictions
    }

    /** The number of experts held is the number of reads that succeeded less the evictions. */
    lemma ResidentCount()
      requires Valid()
      ensures Count(Table(), Open, nslot) + Count(Table(), Fixed, nslot) == loads - Evicted()
      ensures Count(Table(), Free, nslot) == nslot - (loads - Evicted())
    {
      hide Count;
      RanksCount(Table(), order);
      CountAll(Table(), nslot);
    }

    /** Enter a key and its geometry for a slot, and stamp it. */
    method Register(slot: nat, key: nat, ref: Ref, pad: nat)
      requires Shape() && slot < nslot && key < slotOf.Length
      modifies this`clock, slotOf, keyOf, usedAt, refs, pads
      ensures refs[..] == old(refs[..])[slot := ref] && pads[..] == old(pads[..])[slot := pad]
      ensures slotOf[..] == old(slotOf[..])[key := slot] && keyOf[..] == old(keyOf[..])[slot := key]
      ensures clock == old(clock) + 1 && usedAt[..] == old(usedAt[..])[slot := clock]
    {
      refs[slot] := ref;
      pads[slot] := pad;
      keyOf[slot] := key;
      slotOf[key] := slot;
      clock := clock + 1;
      usedAt[slot] := clock;
    }

    ghost function Tallies(): Tally
      reads this
    {
      Tally(hits, misses, evictions, loads)
    }

    /** `admit`: bring an expert in and return its slot, or -1.  A pair out of range may share its
        key with an expert of another layer but names none itself.  With a complete device and a
        slot that is not pinned an expert that fits is brought in. */
    method Admit(layer: int, expert: int) returns (slot: int)
      requires Valid() && KeyInRange(layer, expert, nLayers, nExperts)
      modifies this`clock, this`hits, this`misses, this`evictions, this`bytesRead, this`loads, this`order, arena,
               slotOf, keyOf, usedAt, refs, pads
      ensures Valid() && SamePins(old(Table()), Table()) && Room(Table()) == old(Room(Table()))
      ensures var key := KeyOf(layer, expert, nExperts);
              && Requested(old(Table()), old(order), old(Tallies()), key, order, Tallies(), slot >= 0)
              && (slot >= 0 ==> slot < nslot && keyOf[slot] == key && slotOf[key] == slot)
              && (if InRange(layer, expert) then Readable(st, slotBytes, key) && Room(Table()) >= 1 ==> slot >= 0
                else slot >= 0 <==> old(Resident(Table(), key)))
    {
      hide Inv, Ranks, Victim, Count, Consistent, Sound, StoreOk, Older, Room, SamePins, Touch, Touched, KeyOf, Listed;
      var key := KeyOf(layer, expert, nExperts);
      CoreFacts();
      SizesOf(Table());
      SamePinsSelf(Table());
      slot := slotOf[key];
      if slot >= 0 {
        AdmitHit(key);
        return;
      }
      MissIsFree(Table(), key);
      misses := misses + 1;
      if layer < 0 || layer >= nLayers || expert < 0 || expert >= nExperts { return -1; }
      ListedAt(st.experts, nExperts, layer, expert);
      if st.experts[layer][expert].None? { return -1; }
      var e := st.experts[layer][expert].value;
      if e.r.nbytes > slotBytes { return -1; }
      slot := PickVictim();
      SomeVictim(Table(), slot);
      if slot < 0 { return -1; }
      VictimInRange(Table(), slot);
      var ok := Fill(slot, key, e);
      if !ok { slot := -1; }
    }

    method AdmitHit(key: nat)
      requires Valid() && key < slotOf.Length && slotOf[key] >= 0
      modifies this`clock, this`hits, this`order, usedAt
      ensures Valid() && SamePins(old(Table()), Table()) && Room(Table()) == old(Room(Table()))
      ensures Requested(old(Table()), old(order), old(Tallies()), key, order, Tallies(), true)
      ensures slotOf[key] < nslot && keyOf[slotOf[key]] == key
    {
      hide Inv, Ranks, Count, StoreOk, Holdings, Touch;
      ghost var t := Table();
      HitTable(t, order, key);
      if !PinnedKey(t, key) { order := HitOrder(order, key); }
      hits := hits + 1;
      clock := clock + 1;
      usedAt[slotOf[key]] := clock;
      assert Table() == Hit(t, slotOf[key]);
    }

    /** `parts` are the addresses in the arena of the expert's six matrices, in the order w1, w2,
        w3, weights before scales, and what is there is what is on disk. */
    ghost predicate Placed(x: Option<Expert>, parts: seq<nat>)
      reads arena
    {
      && x.Some? && Sound(st.disk, x.value) && |parts| == 6
      && (x.value.r.nbytes > 0 ==> forall i :: 0 <= i < 6 ==>
        PartAt(st.disk, x.value.all[i], arena[..], parts[i]))
    }

    /** That is so for this expert of this layer. */
    ghost predicate Delivered(layer: int, expert: int, parts: seq<nat>)
      reads arena
    {
      0 <= layer < |st.experts| && 0 <= expert < |st.experts[layer]| && Placed(st.experts[layer][expert], parts)
    }

    method FillQ(slot: nat) returns (parts: seq<nat>)
      requires Core() && slot < nslot && keyOf[slot] >= 0
      ensures 0 <= keyOf[slot] < |st.keyed| && Placed(st.keyed[keyOf[slot]], parts)
    {
      hide Inv, Ranks, Count, HeldAt, Describes, InFiles, Image, PartAt, CS.At;
      ghost var k := keyOf[slot];
      assert Holding(st, keyOf[..][slot], refs[..][slot], pads[..][slot], Region(arena[..], nslot, slotBytes, slot));
      SoundFacts(st.disk, st.keyed[k].value);
      ghost var e := st.keyed[k].value;
      var r, base := refs[slot], CS.At(slot, slotBytes, 0) + pads[slot];
      parts := [base + r.m[0].pOff, base + r.m[0].sOff, base + r.m[1].pOff, base + r.m[1].sOff, base + r.m[2].pOff,
        base + r.m[2].sOff];
      if e.r.nbytes > 0 {
        forall i | 0 <= i < 6 ensures PartAt(st.disk, e.all[i], arena[..], parts[i]) {
          HeldParts(st, k, r, pads[slot], arena[..], nslot, slotBytes, slot, i);
          assert parts[i] == base + Place(r, i) by { assert i == 0 || i == 1 || i == 2 || i == 3 || i == 4 || i == 5; }
        }
      }
    }

    predicate InRange(layer: int, expert: int) {
      0 <= layer < nLayers && 0 <= expert < nExperts
    }

    /** `get`: what was asked for is noted, brought in, and handed back. */
    method Get(layer: int, expert: int) returns (ok: bool, parts: seq<nat>)
      requires Valid()
      modifies this`clock, this`hits, this`misses, this`evictions, this`bytesRead, this`loads, this`order, this`trace,
               arena, slotOf, keyOf, usedAt, refs, pads, hist
      ensures Valid() && SamePins(old(Table()), Table()) && Room(Table()) == old(Room(Table()))
      ensures !InRange(layer, expert) ==>
              !ok && Table() == old(Table()) && order == old(order) && Tallies() == old(Tallies())
                && trace == old(trace)
      ensures InRange(layer, expert) ==>
                && Requested(old(Table()), old(order), old(Tallies()), KeyOf(layer, expert, nExperts), order,
                  Tallies(), ok)
                && hits == old(hits) + (if old(Here(Table(), layer, expert, nExperts)) then 1 else 0)
                && hits + misses == old(hits + misses) + 1
                && trace == old(trace) + (if traced then [layer, expert] else [])
                && KeyInRange(layer, expert, nLayers, nExperts)
                && hist[KeyOf(layer, expert, nExperts)] == old(hist[KeyOf(layer, expert, nExperts)]) + 1
      ensures ok ==> InRange(layer, expert) && Delivered(layer, expert, parts)
      ensures ok ==> Here(Table(), layer, expert, nExperts) && Resident(Table(), KeyOf(layer, expert, nExperts))
      ensures InRange(layer, expert) ==>
                Readable(st, slotBytes, KeyOf(layer, expert, nExperts)) && Room(Table()) >= 1 ==> ok
    {
      hide Readable, Consistent, Count, StoreOk, Room, SamePins, Requested, Placed, PartAt, KeyOf, Here, Inv, Listed;
      ok, parts := false, [];
      SamePinsSelf(Table());
      if layer < 0 || layer >= nLayers || expert < 0 || expert >= nExperts { return; }
      KeyFits(layer, expert, nLayers, nExperts);
      CoreFacts();
      HereIs(Table(), layer, expert, nLayers, nExperts);
      var key := KeyOf(layer, expert, nExperts);
      hist[key] := hist[key] + 1;
      if traced { trace := trace + [layer, expert]; }
      ghost var was, q, n := Table(), order, Tallies();
      var slot := Admit(layer, expert);
      RequestCounts(was, q, n, key, order, Tallies(), slot >= 0);
      if slot < 0 { return; }
      CoreFacts();
      HereIs(Table(), layer, expert, nLayers, nExperts);
      ListedAt(st.experts, nExperts, layer, expert);
      parts := FillQ(slot);
      ok := true;
    }

    /** `resident`: the bytes `get` would hand back, when that needs no read. */
    method IsResident(layer: int, expert: int) returns (hit: bool, parts: seq<nat>)
      requires Valid()
      ensures hit <==> InRange(layer, expert) && Here(Table(), layer, expert, nExperts)
      ensures hit ==> Delivered(layer, expert, parts)
    {
      hide Room, Count, PartAt, Holdings, KeyOf, Here, Listed, Placed;
      hit, parts := false, [];
      if layer < 0 || layer >= nLayers || expert < 0 || expert >= nExperts { return; }
      KeyFits(layer, expert, nLayers, nExperts);
      var key := KeyOf(layer, expert, nExperts);
      HereIs(Table(), layer, expert, nLayers, nExperts);
      var slot := slotOf[key];
      if slot < 0 { return; }
      assert KeyOk(Table(), key);
      ListedAt(st.experts, nExperts, layer, expert);
      parts := FillQ(slot);
      hit := true;
    }

    /** `k3_cache_prefetch` is `admit` with the slot dropped: only the combined key must be in
        range. */
    method Prefetch(layer: int, expert: int) returns (ok: bool)
      requires Valid() && KeyInRange(layer, expert, nLayers, nExperts)
      modifies this`clock, this`hits, this`misses, this`evictions, this`bytesRead, this`loads, this`order, arena,
               slotOf, keyOf, usedAt, refs, pads
      ensures Valid() && SamePins(old(Table()), Table()) && Room(Table()) == old(Room(Table()))
      ensures Requested(old(Table()), old(order), old(Tallies()), KeyOf(layer, expert, nExperts), order, Tallies(), ok)
      ensures InRange(layer, expert) ==>
                Readable(st, slotBytes, KeyOf(layer, expert, nExperts)) && Room(Table()) >= 1 ==> ok
      ensures !InRange(layer, expert) ==> (ok <==> old(Resident(Table(), KeyOf(layer, expert, nExperts))))
      ensures InRange(layer, expert) && ok ==> Here(Table(), layer, expert, nExperts)
    {
      hide Readable, Consistent, Room, Older, SamePins, Inv, KeyOf, Here, StoreOk;
      var slot := Admit(layer, expert);
      ok := slot >= 0;
      if ok && InRange(layer, expert) {
        CoreFacts();
        HereIs(Table(), layer, expert, nLayers, nExperts);
      }
    }

    /** `k3_cache_pin`: pin or release a resident expert.  Only the combined key is checked, so
        an expert index past the layer's last names one of the next layer. */
    method Pin(layer: int, expert: int, pin: bool) returns (done: bool)
      requires Valid()
      modifies pinned, this`order
      ensures Valid()
      ensures var key := KeyOf(layer, expert, nExperts);
              && (done <==> old(Resident(Table(), key)))
              && (done && pin ==> order == Remove(old(order), key) && PinnedKey(Table(), key))
              && (done && !pin ==>
                key in order && Remove(order, key) == Remove(old(order), key) && !PinnedKey(Table(), key))
              && (!done ==> order == old(order) && Table() == old(Table()))
              && (forall k :: k != key ==>
                && (Resident(Table(), k) <==> old(Resident(Table(), k)))
                && (PinnedKey(Table(), k) <==> old(PinnedKey(Table(), k))))
      ensures PairPinned(old(Table()), Table(), layer, expert, pin, done)
    {
      hide Room, Count, Ranks, Inv, Holdings, StoreOk, Remove, PairPinned;
      var key := KeyOf(layer, expert, nExperts);
      ghost var t, q := Table(), order;
      done := 0 <= key < nLayers * nExperts && slotOf[key] >= 0;
      if done {
        order := PinOrder(t, q, key, pin);
        pinned[slotOf[key]] := pin;
        assert Table() == SetPin(t, slotOf[key], pin);
      }
      CoreFacts();
      PairsAfterPin(t, Table(), layer, expert, pin, done);
    }

    /** The same of pairs in range: this one is pinned or released, if it is there, and no other
        pair comes, goes or changes. */
    ghost predicate PairPinned(t: Slots, t': Slots, layer: int, expert: int, pin: bool, done: bool) {
      InRange(layer, expert) ==>
        && (done <==> Here(t, layer, expert, nExperts))
        && (done ==> Here(t', layer, expert, nExperts) && (HerePinned(t', layer, expert, nExperts) <==> pin))
        && forall l, e :: InRange(l, e) && (l != layer || e != expert) ==>
             && (Here(t', l, e, nExperts) <==> Here(t, l, e, nExperts))
             && (HerePinned(t', l, e, nExperts) <==> HerePinned(t, l, e, nExperts))
    }

    lemma PairsAfterPin(t: Slots, t': Slots, layer: int, expert: int, pin: bool, done: bool)
      requires Inv(t) && Inv(t') && |t.slotOf| == |t'.slotOf| == nLayers * nExperts && t'.slotOf == t.slotOf
      requires var key := KeyOf(layer, expert, nExperts);
               && (done <==> Resident(t, key)) && (done ==> (PinnedKey(t', key) <==> pin))
               && forall k :: k != key ==> (PinnedKey(t', k) <==> PinnedKey(t, k))
      ensures PairPinned(t, t', layer, expert, pin, done)
    {
      hide Inv, KeyOf, Here, HerePinned, PinnedKey;
      if InRange(layer, expert) {
        HereIs(t, layer, expert, nLayers, nExperts);
        HereIs(t', layer, expert, nLayers, nExperts);
        forall l, e | InRange(l, e) && (l != layer || e != expert)
          ensures Here(t', l, e, nExperts) <==> Here(t, l, e, nExperts)
          ensures HerePinned(t', l, e, nExperts) <==> HerePinned(t, l, e, nExperts)
        {
          HereIs(t, l, e, nLayers, nExperts);
          HereIs(t', l, e, nLayers, nExperts);
          OtherPair(layer, expert, l, e, nLayers, nExperts);
        }
      }
    }

    /** The read itself: only this slot's bytes change. */
    method ReadInto(slot: nat, e: Expert) returns (got: nat, pad: nat, ghost calls: seq<Interleave.Call>)
      requires Shape() && slot < nslot && Sound(st.disk, e) && e.r.nbytes <= slotBytes
      modifies arena
      ensures CS.At(slot, slotBytes, 0) + slotBytes <= arena.Length
      ensures OnlyWithin(old(arena[..]), arena[..], CS.At(slot, slotBytes, 0), slotBytes)
      ensures got == e.r.nbytes ==> forall k :: 0 <= k < |st.keyed| && st.keyed[k] == Some(e) ==>
                Holding(st, k, e.r, pad, Region(arena[..], nslot, slotBytes, slot))
      ensures st.complete && Roomed(st, slotBytes, e) ==> got == e.r.nbytes
      ensures Interleave.ByCalls(old(arena[..]), arena[..], calls,
              Interleave.Fence(CS.At(slot, slotBytes, 0), slotBytes))
    {
      hide Describes, Image, InFiles, OnlyWithin, Touched, Interleave.ByCalls;
      CS.SliceFits(nslot, slotBytes, slot);
      got, pad, calls := LoadDirect(st.disk, st.direct, st.complete, e.r, e.all, e.hi, arena,
        CS.At(slot, slotBytes, 0), slotBytes);
      if got == e.r.nbytes > 0 {
        SubSlice(arena[..], CS.At(slot, slotBytes, 0), CS.At(slot, slotBytes, 0) + slotBytes, pad, pad + e.r.nbytes);
      }
    }

    /** `pick_victim`: the first free slot if there is one, else the unpinned slot used longest ago. */
    method PickVictim() returns (best: int)
      requires Shape() && Inv(Table())
      ensures Victim(Table(), best)
    {
      best := -1;
      var oldest := 0;
      for i := 0 to nslot
        invariant forall j :: 0 <= j < i ==> KindOf(Table(), j) != Free
        invariant best == -1 ==> forall j :: 0 <= j < i ==> KindOf(Table(), j) != Open
        invariant best != -1 ==> 0 <= best < i && KindOf(Table(), best) == Open && oldest == usedAt[best]
        invariant best != -1 ==> forall j :: 0 <= j < i && KindOf(Table(), j) == Open ==> oldest <= usedAt[j]
      {
        if keyOf[i] == INFLIGHT { continue; }
        if keyOf[i] == EMPTY { return i; }
        if pinned[i] { continue; }
        if best == -1 || usedAt[i] < oldest { oldest, best := usedAt[i], i; }
      }
    }
  }

  /** Nothing held, nothing used, nothing pinned. */
  ghost predicate Blank(t: Slots) {
    && |t.keyOf| == |t.usedAt| == |t.pinned| && t.clock == 0
    && (forall k :: 0 <= k < |t.slotOf| ==> t.slotOf[k] == -1)
    && (forall i :: 0 <= i < |t.keyOf| ==> t.keyOf[i] == EMPTY && t.usedAt[i] == 0 && !t.pinned[i])
  }

  lemma IsBlank(slotOf: seq<int>, keyOf: seq<int>, usedAt: seq<nat>, pinned: seq<bool>)
    requires |keyOf| == |usedAt| == |pinned| && forall k :: 0 <= k < |slotOf| ==> slotOf[k] == -1
    requires forall i :: 0 <= i < |keyOf| ==> keyOf[i] == EMPTY && usedAt[i] == 0 && !pinned[i]
    ensures Blank(Slots(slotOf, keyOf, usedAt, pinned, 0))
  {
  }

  lemma FreshCache(st: Store, t: Slots, refs: seq<Ref>, pads: seq<nat>, arena: seq<byte>, slotBytes: nat)
    requires StoreOk(st) && Blank(t) && |t.keyOf| == |refs| == |pads| && |arena| == |t.keyOf| * slotBytes
    ensures Consistent(st, t, [], refs, pads, arena, slotBytes)
    ensures Count(t, Fixed, |t.keyOf|) == Count(t, Busy, |t.keyOf|) == 0 && Room(t) == |t.keyOf|
  {
    CountNone(t, Fixed, |t.keyOf|);
    CountNone(t, Busy, |t.keyOf|);
  }

  /* ------------------------------------------------------------------ setting it up */

  /** An expert no larger than the one slots were sized by fits a slot, O_DIRECT window and all. */
  ghost predicate Roomy(st: Store, slotBytes: nat) {
    slotBytes % ALIGN == 0 && forall k :: 0 <= k < |st.keyed| && st.keyed[k].Some? ==>
      var r := st.keyed[k].value.r;
      r.nbytes + 2 * ALIGN <= slotBytes ==> Touched(st.direct, r.off, r.nbytes) <= slotBytes
  }

  lemma SlotIsRoomy(st: Store, nbytes: nat)
    ensures Roomy(st, Up(nbytes + 2 * ALIGN)) && Up(nbytes + 2 * ALIGN) >= nbytes + 2 * ALIGN
  {
    AlignFacts(nbytes + 2 * ALIGN);
    forall k | 0 <= k < |st.keyed| && st.keyed[k].Some?
      ensures Touched(st.direct, st.keyed[k].value.r.off,
              st.keyed[k].value.r.nbytes) <= st.keyed[k].value.r.nbytes + 2 * ALIGN
    {
      WindowAround(st.keyed[k].value.r.off, st.keyed[k].value.r.nbytes);
    }
  }

  /** A layer the slots can be sized by: routed, and its expert 0 can be read. */
  predicate Probes(st: Store, dense: seq<bool>, l: nat)
    requires l < |dense|
  {
    !dense[l] && l < |st.experts| && st.experts[l] != [] && st.experts[l][0].Some?
  }

  /** Room for an expert of n bytes and the aligned window around it. */
  function SlotFor(n: nat): (s: nat)
    ensures n + 2 * ALIGN <= s < n + 3 * ALIGN && s % ALIGN == 0
  {
    AlignFacts(n + 2 * ALIGN);
    Up(n + 2 * ALIGN)
  }

  /** As many slots as the budget holds. */
  function SlotsIn(budget: nat, slotBytes: nat): (n: nat)
    requires slotBytes > 0
    ensures n * slotBytes <= budget < n * slotBytes + slotBytes
  {
    DivFacts(budget, slotBytes);
    budget / slotBytes
  }

  /** `k3_cache_init`: slots sized by the first routed layer's expert 0 that is there, the bytes of
      it, the window around them and no more than a block; as many as the budget holds; refused
      exactly when there is no such layer, when they cannot hold one token's
      experts and one more, or when memory is refused. */
  method Init(st: Store, dense: seq<bool>, nExperts: nat, topk: nat, budget: nat, memory: bool) returns (c: Cache?)
    requires StoreOk(st) && Indexed(st, |dense|, nExperts)
    ensures c != null ==>
              && fresh(c) && fresh(c.arena) && fresh(c.slotOf) && fresh(c.keyOf) && fresh(c.usedAt) && fresh(c.pinned)
              && fresh(c.refs) && fresh(c.pads) && fresh(c.hist)
              && c.Valid() && c.order == [] && c.st == st && c.nLayers == |dense| && c.nExperts == nExperts
              && Room(c.Table()) == c.nslot > topk && c.nslot * c.slotBytes <= budget && Roomy(st, c.slotBytes)
    ensures c != null <==>
              && memory
              && exists l: nat :: First(st, dense, l) && SlotsIn(budget, SlotBytesOf(st, l)) > topk
    ensures c != null ==>
              c.slotBytes > 0 && c.nslot * c.slotBytes <= budget < c.nslot * c.slotBytes + c.slotBytes
              && exists l: nat :: First(st, dense, l) && Sizes(st, l, c.slotBytes)
  {
    hide Roomy, StoreOk, Room, Count, Consistent, Listed;
    for l := 0 to |dense|
      invariant forall j: nat :: j < l ==> !Probes(st, dense, j)
    {
      if !dense[l] && st.experts[l] != [] && st.experts[l][0].Some? {
        var slotBytes := SlotBytesOf(st, l);
        assert First(st, dense, l);
        FirstUnique(st, dense, l);
        SlotIsRoomy(st, st.experts[l][0].value.r.nbytes);
        var nslot := SlotsIn(budget, slotBytes);
        if nslot < topk + 1 || !memory { return null; }
        c := new Cache(st, |dense|, nExperts, slotBytes, nslot, true);
        return c;
      }
    }
    c := null;
  }

  /** A slot of this size holds the layer's expert 0 and two blocks, and less than one more. */
  ghost predicate Sizes(st: Store, l: nat, slotBytes: nat) {
    && l < |st.experts| && st.experts[l] != [] && st.experts[l][0].Some? && slotBytes % ALIGN == 0
    && var n := st.experts[l][0].value.r.nbytes; n + 2 * ALIGN <= slotBytes < n + 3 * ALIGN
  }

  ghost predicate First(st: Store, dense: seq<bool>, l: nat) {
    l < |dense| && Probes(st, dense, l) && forall j: nat :: j < l ==> !Probes(st, dense, j)
  }

  lemma NotBefore(st: Store, dense: seq<bool>, l: nat, k: nat)
    requires First(st, dense, l) && k < l
    ensures k < |dense| && !Probes(st, dense, k)
  {
  }

  lemma FirstUnique(st: Store, dense: seq<bool>, l: nat)
    requires First(st, dense, l)
    ensures forall k: nat :: First(st, dense, k) ==> k == l
  {
    forall k: nat | First(st, dense, k) ensures k == l {
      if k < l { NotBefore(st, dense, l, k); }
      if l < k { NotBefore(st, dense, k, l); }
    }
  }

  function SlotBytesOf(st: Store, l: nat): (s: nat)
    ensures s > 0
  {
    SlotFor(if l < |st.experts| && st.experts[l] != [] && st.experts[l][0].Some? then st.experts[l][0].value.r.nbytes
            else 0)
  }

  /* ------------------------------------------------------------------ runs of requests */

  function KeysOf(reqs: seq<(nat, nat)>, nExperts: nat): (ks: seq<int>)
    ensures |ks| == |reqs|
  {
    seq(|reqs|, i requires 0 <= i < |reqs| => KeyOf(reqs[i].0, reqs[i].1, nExperts))
  }

  /** Pinned keys are pinned before and after alike. */
  lemma SamePinnedKeys(t: Slots, t': Slots, k: int)
    requires Inv(t) && Inv(t') && SamePins(t, t') && |t.slotOf| == |t'.slotOf|
    ensures PinnedKey(t, k) <==> PinnedKey(t', k)
  {
    if PinnedKey(t, k) {
      StampsPast(t, k);
      assert SlotOk(t', t.slotOf[k]);
    }
    if PinnedKey(t', k) {
      StampsPast(t', k);
      assert SlotOk(t, t'.slotOf[k]);
    }
  }

  lemma SamePinsTrans(a: Slots, b: Slots, c: Slots)
    requires |a.pinned| == |b.pinned| && SamePins(a, b) && SamePins(b, c)
    ensures SamePins(a, c)
  {
  }

  lemma RunOneMore(s: seq<int>, keys: seq<int>, i: nat, cap: nat)
    requires i < |keys| && cap >= 1
    ensures Run(s, keys[..i + 1], cap) == Step(Run(s, keys[..i], cap), keys[i], cap)
    ensures RunHits(s, keys[..i + 1], cap) == RunHits(s, keys[..i], cap) + if keys[i] in Run(s, keys[..i], cap)
            then 1 else 0
  {
    assert keys[..i + 1] == keys[..i] + [keys[i]];
    RunSnoc(s, keys[..i], keys[i], cap);
  }

  /** A run of requests for experts that are not pinned is, hit by hit and key by key, the LRU
      of the cache simulator at the capacity the pins leave; if it names no more experts than
      that, every one of them is still resident at its end. */
  method Serve(c: Cache, reqs: seq<(nat, nat)>) returns (ok: bool)
    requires c.Valid() && Room(c.Table()) >= 1
    requires forall i :: 0 <= i < |reqs| ==>
             c.InRange(reqs[i].0, reqs[i].1) && !PinnedKey(c.Table(), KeysOf(reqs, c.nExperts)[i])
    modifies c`clock, c`hits, c`misses, c`evictions, c`bytesRead, c`loads, c`order, c`trace,
             c.arena, c.slotOf, c.keyOf, c.usedAt, c.refs, c.pads, c.hist
    ensures c.Valid() && Room(c.Table()) == old(Room(c.Table()))
    ensures ok ==> c.order == Run(old(c.order), KeysOf(reqs, c.nExperts), old(Room(c.Table())))
    ensures ok ==> c.hits == old(c.hits) + RunHits(old(c.order), KeysOf(reqs, c.nExperts), old(Room(c.Table())))
    ensures ok && |Keys(KeysOf(reqs, c.nExperts))| <= Room(c.Table()) ==>
              forall i :: 0 <= i < |reqs| ==> Here(c.Table(), reqs[i].0, reqs[i].1, c.nExperts)
    ensures (forall i :: 0 <= i < |reqs| ==> Readable(c.st, c.slotBytes, KeysOf(reqs, c.nExperts)[i])) ==> ok
  {
    hide Readable, Inv, Ranks, Room, SamePins, Requested, Consistent, Run, RunHits, Cache.Delivered, PinnedKey;
    ghost var keys, t0, q0, room := KeysOf(reqs, c.nExperts), c.Table(), c.order, Room(c.Table());
    SamePinsSelf(t0);
    RunNothing(q0, keys, room);
    c.CoreFacts();
    ok := true;
    for i := 0 to |reqs|
      invariant ok && c.Valid() && SamePins(t0, c.Table()) && Room(c.Table()) == room
      invariant c.order == Run(q0, keys[..i], room) && c.hits == old(c.hits) + RunHits(q0, keys[..i], room)
    {
      ghost var t, q, n := c.Table(), c.order, c.Tallies();
      c.CoreFacts();
      SamePinnedKeys(t0, t, keys[i]);
      var parts;
      ok, parts := c.Get(reqs[i].0, reqs[i].1);
      SamePinsTrans(t0, t, c.Table());
      if !ok { assert !Readable(c.st, c.slotBytes, keys[i]); return; }
      RequestIsStep(t, q, n, keys[i], c.order, c.Tallies());
      RunOneMore(q0, keys, i, room);
    }
    assert keys[..|reqs|] == keys;
    c.CoreFacts();
    if |Keys(keys)| <= room {
      StillResident(t0, c.Table(), q0, c.order, keys, room);
      forall i | 0 <= i < |reqs| ensures Here(c.Table(), reqs[i].0, reqs[i].1, c.nExperts) {
        HereIs(c.Table(), reqs[i].0, reqs[i].1, c.nLayers, c.nExperts);
      }
    }
  }

  lemma RunNothing(s: seq<int>, keys: seq<int>, cap: nat)
    requires cap >= 1
    ensures Run(s, keys[..0], cap) == s && RunHits(s, keys[..0], cap) == 0
  {
  }

  lemma StillResident(t: Slots, t': Slots, q: seq<int>, q': seq<int>, keys: seq<int>, room: nat)
    requires Inv(t) && Ranks(t, q) && Ranks(t', q') && room >= 1 && q' == Run(q, keys, room) && room == Room(t)
    requires |Keys(keys)| <= room
    ensures forall i :: 0 <= i < |keys| ==> Resident(t', keys[i])
  {
    RanksCount(t, q);
    CountAll(t, |t.keyOf|);
    RunKeepsItsKeys(q, keys, room);
    forall i | 0 <= i < |keys| ensures Resident(t', keys[i]) { assert keys[i] in keys; }
  }
}
