/** Why phase 2 of the batch prefetch (src/cache/k3_cache.c, `cache_getmany`) may be told one item
    at a time: the threads' system calls interleave at will, but each item writes its own bytes
    only, so the arena ends as if every item had been read whole before the next began. */
module Interleave {
  import opened Common

  /* ------------------------------------------------------------ the calls of one item */

  /** `was` with `bytes` written at `at`. */
  function Splice(was: seq<byte>, at: nat, bytes: seq<byte>): (r: seq<byte>)
    requires at + |bytes| <= |was|
    ensures |r| == |was|
  {
    was[..at] + bytes + was[at + |bytes|..]
  }

  lemma SpliceTwice(was: seq<byte>, at: nat, a: seq<byte>, b: seq<byte>)
    requires at + |a| + |b| <= |was|
    ensures Splice(Splice(was, at, a), at + |a|, b) == Splice(was, at, a + b)
  {
  }

  /** One system call: the bytes it brought and where it put them. */
  datatype Call = Call(at: nat, bytes: seq<byte>)

  /** The stretch of the arena an item may write. */
  datatype Fence = Fence(at: nat, len: nat)

  predicate Inside(c: Call, f: Fence) {
    f.at <= c.at && c.at + |c.bytes| <= f.at + f.len
  }

  ghost predicate InArena(calls: seq<Call>, size: nat) {
    forall k :: 0 <= k < |calls| ==> calls[k].at + |calls[k].bytes| <= size
  }

  /** The arena after these calls, in their order. */
  function Run(arena: seq<byte>, calls: seq<Call>): (r: seq<byte>)
    requires InArena(calls, |arena|)
    ensures |r| == |arena|
  {
    if calls == [] then arena
    else Splice(Run(arena, calls[..|calls| - 1]), calls[|calls| - 1].at, calls[|calls| - 1].bytes)
  }

  /** These calls, none of them outside the fence, made `now` of `was`. */
  ghost predicate ByCalls(was: seq<byte>, now: seq<byte>, calls: seq<Call>, f: Fence) {
    && f.at + f.len <= |was| && (forall k :: 0 <= k < |calls| ==> Inside(calls[k], f))
    && InArena(calls, |was|) && now == Run(was, calls)
  }

  lemma NoCalls(was: seq<byte>, f: Fence)
    requires f.at + f.len <= |was|
    ensures ByCalls(was, was, [], f)
  {
  }

  lemma OneCall(was: seq<byte>, at: nat, bytes: seq<byte>)
    requires at + |bytes| <= |was|
    ensures ByCalls(was, Splice(was, at, bytes), [Call(at, bytes)], Fence(at, |bytes|))
  {
    var calls := [Call(at, bytes)];
    assert calls[..0] == [] && Run(was, []) == was;
  }

  lemma {:induction false} RunMore(was: seq<byte>, a: seq<Call>, b: seq<Call>)
    requires InArena(a, |was|) && InArena(b, |was|)
    ensures InArena(a + b, |was|) && Run(was, a + b) == Run(Run(was, a), b)
  {
    if b == [] {
      assert a + b == a;
    } else {
      var c := b[..|b| - 1];
      RunMore(was, a, c);
      assert (a + b)[..|a + b| - 1] == a + c;
    }
  }

  lemma MoreCalls(was: seq<byte>, mid: seq<byte>, now: seq<byte>, a: seq<Call>, b: seq<Call>, f: Fence)
    requires ByCalls(was, mid, a, f) && ByCalls(mid, now, b, f)
    ensures ByCalls(was, now, a + b, f)
  {
    RunMore(was, a, b);
  }

  lemma WiderFence(was: seq<byte>, now: seq<byte>, calls: seq<Call>, f: Fence, g: Fence)
    requires ByCalls(was, now, calls, f) && g.at <= f.at && f.at + f.len <= g.at + g.len <= |was|
    ensures ByCalls(was, now, calls, g)
  {
  }

  /* ------------------------------------------------------------ the calls of many */

  datatype Write<I> = Write(item: I, call: Call)

  ghost predicate Apart<I>(fences: map<I, Fence>) {
    forall i, j :: i in fences && j in fences && i != j ==>
      fences[i].at + fences[i].len <= fences[j].at || fences[j].at + fences[j].len <= fences[i].at
  }

  /** Every call stays inside its item's fence, and that inside the arena. */
  ghost predicate Keeps<I>(w: Write<I>, fences: map<I, Fence>, size: nat) {
    w.item in fences && Inside(w.call, fences[w.item]) && fences[w.item].at + fences[w.item].len <= size
  }

  ghost predicate Fenced<I>(log: seq<Write<I>>, fences: map<I, Fence>, size: nat) {
    forall k :: 0 <= k < |log| ==> Keeps(log[k], fences, size)
  }

  function Calls<I>(log: seq<Write<I>>): (r: seq<Call>)
    ensures |r| == |log|
  {
    seq(|log|, k requires 0 <= k < |log| => log[k].call)
  }

  lemma FencedInArena<I>(log: seq<Write<I>>, fences: map<I, Fence>, size: nat)
    requires Fenced(log, fences, size)
    ensures InArena(Calls(log), size)
  {
    forall k | 0 <= k < |log| ensures Calls(log)[k].at + |Calls(log)[k].bytes| <= size {
      assert Keeps(log[k], fences, size);
    }
  }

  /** The calls of one item, in the order it made them. */
  ghost function Own<I>(log: seq<Write<I>>, item: I): seq<Write<I>> {
    if log == [] then []
    else Own(log[..|log| - 1], item) + if log[|log| - 1].item == item then [log[|log| - 1]] else []
  }

  predicate Writes(c: Call, y: nat) {
    c.at <= y < c.at + |c.bytes|
  }

  /** What byte y is after the log: the last call that covers it decides. */
  function ByteAfter<I>(log: seq<Write<I>>, y: nat, was: byte): byte {
    if log == [] then was
    else
      var c := log[|log| - 1].call;
      if Writes(c, y) then c.bytes[y - c.at] else ByteAfter(log[..|log| - 1], y, was)
  }

  lemma {:induction false} RunByte<I>(arena: seq<byte>, log: seq<Write<I>>, y: nat)
    requires y < |arena| && InArena(Calls(log), |arena|)
    ensures Run(arena, Calls(log))[y] == ByteAfter(log, y, arena[y])
  {
    if log != [] {
      var init := log[..|log| - 1];
      assert Calls(log)[..|log| - 1] == Calls(init);
      RunByte(arena, init, y);
    }
  }

  /** A byte inside an item's fence is that item's affair alone. */
  lemma {:induction false} ByteIsOwn<I>(log: seq<Write<I>>, fences: map<I, Fence>, size: nat, item: I, y: nat,
      was: byte)
    requires Fenced(log, fences, size) && Apart(fences) && item in fences
    requires fences[item].at <= y < fences[item].at + fences[item].len
    ensures ByteAfter(log, y, was) == ByteAfter(Own(log, item), y, was)
  {
    if log != [] {
      var init, last := log[..|log| - 1], log[|log| - 1];
      assert log == init + [last];
      assert Keeps(last, fences, size);
      ByteIsOwn(init, fences, size, item, y, was);
      if last.item == item {
        assert Own(log, item) == Own(init, item) + [last];
        assert Own(log, item)[..|Own(init, item)|] == Own(init, item);
      } else {
        assert !Writes(last.call, y);
        assert Own(log, item) == Own(init, item);
      }
    }
  }

  /** A byte outside all fences is nobody's. */
  lemma {:induction false} ByteIsNobodys<I>(log: seq<Write<I>>, fences: map<I, Fence>, size: nat, y: nat, was: byte)
    requires Fenced(log, fences, size)
    requires forall i :: i in fences ==> !(fences[i].at <= y < fences[i].at + fences[i].len)
    ensures ByteAfter(log, y, was) == was
  {
    if log != [] {
      var init, last := log[..|log| - 1], log[|log| - 1];
      assert Keeps(last, fences, size);
      ByteIsNobodys(init, fences, size, y, was);
    }
  }

  /** In both logs every item makes the same calls in the same order. */
  ghost predicate SameCalls<I(!new)>(a: seq<Write<I>>, b: seq<Write<I>>, fences: map<I, Fence>) {
    forall i :: i in fences ==> Own(a, i) == Own(b, i)
  }

  /** Two schedules in which every item makes the same calls in the same order leave the same
      arena, however the calls of different items are interleaved. */
  lemma ScheduleIsFree<I(!new)>(arena: seq<byte>, a: seq<Write<I>>, b: seq<Write<I>>, fences: map<I, Fence>)
    requires Fenced(a, fences, |arena|) && Fenced(b, fences, |arena|) && Apart(fences) && SameCalls(a, b, fences)
    ensures InArena(Calls(a), |arena|) && InArena(Calls(b), |arena|) && Run(arena, Calls(a)) == Run(arena, Calls(b))
  {
    hide Run, Apart, Own, Calls;
    FencedInArena(a, fences, |arena|);
    FencedInArena(b, fences, |arena|);
    forall y: nat | y < |arena| ensures Run(arena, Calls(a))[y] == Run(arena, Calls(b))[y] {
      RunByte(arena, a, y);
      RunByte(arena, b, y);
      if i :| i in fences && fences[i].at <= y < fences[i].at + fences[i].len {
        ByteIsOwn(a, fences, |arena|, i, y, arena[y]);
        ByteIsOwn(b, fences, |arena|, i, y, arena[y]);
      } else {
        ByteIsNobodys(a, fences, |arena|, y, arena[y]);
        ByteIsNobodys(b, fences, |arena|, y, arena[y]);
      }
    }
  }

  /* ------------------------------------------------------------ one item after the other */

  function Tagged<I>(item: I, calls: seq<Call>): (r: seq<Write<I>>)
    ensures |r| == |calls|
  {
    seq(|calls|, k requires 0 <= k < |calls| => Write(item, calls[k]))
  }

  /** The log, inside its fences, made `now` of the arena. */
  ghost predicate LoggedRun<I(!new)>(arena: seq<byte>, log: seq<Write<I>>, fences: map<I, Fence>, now: seq<byte>) {
    Fenced(log, fences, |arena|) && InArena(Calls(log), |arena|) && now == Run(arena, Calls(log))
  }

  lemma NothingLogged<I(!new)>(arena: seq<byte>, fences: map<I, Fence>)
    ensures LoggedRun(arena, [], fences, arena)
  {
  }

  /** An item that runs whole appends its calls to the log. */
  lemma ItemRuns<I(!new)>(arena: seq<byte>, log: seq<Write<I>>, fences: map<I, Fence>, item: I, mid: seq<byte>,
      calls: seq<Call>, now: seq<byte>)
    requires LoggedRun(arena, log, fences, mid) && item in fences && ByCalls(mid, now, calls, fences[item])
    ensures LoggedRun(arena, log + Tagged(item, calls), fences, now)
  {
    hide Run;
    var more := log + Tagged(item, calls);
    forall k | 0 <= k < |more| ensures Keeps(more[k], fences, |arena|) {
      if k < |log| { assert Keeps(log[k], fences, |arena|); }
    }
    assert Calls(more) == Calls(log) + calls;
    RunMore(arena, Calls(log), calls);
  }

  /** The calls of the log, however interleaved, make `now` of the arena. */
  ghost predicate AnySchedule<I(!new)>(arena: seq<byte>, log: seq<Write<I>>, fences: map<I, Fence>, now: seq<byte>) {
    && LoggedRun(arena, log, fences, now) && Apart(fences)
    && forall b: seq<Write<I>> :: Fenced(b, fences, |arena|) && SameCalls(log, b, fences) ==>
         LoggedRun(arena, b, fences, now)
  }

  lemma AnyOtherSchedule<I(!new)>(arena: seq<byte>, log: seq<Write<I>>, fences: map<I, Fence>, now: seq<byte>)
    requires LoggedRun(arena, log, fences, now) && Apart(fences)
    ensures AnySchedule(arena, log, fences, now)
  {
    hide Run, Apart, Own, Calls, Fenced, InArena, SameCalls;
    forall b: seq<Write<I>> | Fenced(b, fences, |arena|) && SameCalls(log, b, fences)
      ensures LoggedRun(arena, b, fences, now)
    {
      ScheduleIsFree(arena, log, b, fences);
    }
  }

  /** The items of the list, each run whole before the next. */
  ghost function OneByOne<I>(log: seq<Write<I>>, items: seq<I>): seq<Write<I>> {
    if items == [] then [] else OneByOne(log, items[..|items| - 1]) + Own(log, items[|items| - 1])
  }

  lemma {:induction false} OwnAppend<I>(a: seq<Write<I>>, b: seq<Write<I>>, i: I)
    ensures Own(a + b, i) == Own(a, i) + Own(b, i)
  {
    if b == [] {
      assert a + b == a;
    } else {
      OwnAppend(a, b[..|b| - 1], i);
      assert (a + b)[..|a + b| - 1] == a + b[..|b| - 1];
    }
  }

  lemma {:induction false} OwnOfOwn<I>(log: seq<Write<I>>, i: I, j: I)
    ensures Own(Own(log, i), j) == if i == j then Own(log, i) else []
  {
    if log != [] {
      OwnOfOwn(log[..|log| - 1], i, j);
      OwnAppend(Own(log[..|log| - 1], i), if log[|log| - 1].item == i then [log[|log| - 1]] else [], j);
    }
  }

  lemma {:induction false} OwnOfOneByOne<I>(log: seq<Write<I>>, items: seq<I>, i: I)
    requires forall a, b :: 0 <= a < b < |items| ==> items[a] != items[b]
    ensures Own(OneByOne(log, items), i) == if i in items then Own(log, i) else []
  {
    if items != [] {
      var init, last := items[..|items| - 1], items[|items| - 1];
      assert items == init + [last];
      OwnOfOneByOne(log, init, i);
      OwnAppend(OneByOne(log, init), Own(log, last), i);
      OwnOfOwn(log, last, i);
    }
  }

  lemma {:induction false} OwnFenced<I>(log: seq<Write<I>>, fences: map<I, Fence>, size: nat, i: I)
    requires Fenced(log, fences, size)
    ensures Fenced(Own(log, i), fences, size)
  {
    if log != [] { OwnFenced(log[..|log| - 1], fences, size, i); }
  }

  lemma {:induction false} OneByOneFenced<I>(log: seq<Write<I>>, fences: map<I, Fence>, size: nat, items: seq<I>)
    requires Fenced(log, fences, size)
    ensures Fenced(OneByOne(log, items), fences, size)
  {
    if items != [] {
      OneByOneFenced(log, fences, size, items[..|items| - 1]);
      OwnFenced(log, fences, size, items[|items| - 1]);
    }
  }

  /** Any interleaving of the parallel loop ends like running its items one by one, in whatever
      order they are listed. */
  lemma AsIfOneByOne<I(!new)>(arena: seq<byte>, log: seq<Write<I>>, fences: map<I, Fence>, items: seq<I>)
    requires Fenced(log, fences, |arena|) && Apart(fences)
    requires (forall a, b :: 0 <= a < b < |items| ==> items[a] != items[b]) && forall i :: i in fences ==> i in items
    ensures InArena(Calls(log), |arena|) && InArena(Calls(OneByOne(log, items)), |arena|)
    ensures Run(arena, Calls(log)) == Run(arena, Calls(OneByOne(log, items)))
  {
    hide Run, Apart, Own, Calls, OneByOne;
    OneByOneFenced(log, fences, |arena|, items);
    forall i | i in fences ensures Own(log, i) == Own(OneByOne(log, items), i) { OwnOfOneByOne(log, items, i); }
    ScheduleIsFree(arena, log, OneByOne(log, items), fences);
  }
}
