/** The Redis queue: a list popped at the head and pushed at the tail, and its agreement with the other queue. */
module RedisQueue {
  import opened Common
  import opened Fifo

  datatype Error = NilItem | QueueFull | QueueEmpty

  /** The age at which a popped item is discarded. */
  predicate Stale(x: Item, ttl: real, now: real) {
    x.enqueueTime.None? || now - x.enqueueTime.value > ttl
  }

  predicate Servable(x: Item, ttl: real, now: real) {
    !Stale(x, ttl, now) && Ready(x, now)
  }

  /** An item that Dequeue passes over: not expired, and not to be processed yet. */
  predicate Deferred(x: Item, ttl: real, now: real) {
    !Stale(x, ttl, now) && !Ready(x, now)
  }

  function FirstServable(q: seq<Item>, ttl: real, now: real): (i: nat)
    ensures i <= |q|
    ensures i < |q| ==> Servable(q[i], ttl, now)
    ensures forall k :: 0 <= k < i ==> !Servable(q[k], ttl, now)
    ensures i < |q| ==> q[i].enqueueTime.Some? && now - q[i].enqueueTime.value <= ttl
    ensures i < |q| ==> q[i].processAfter.None? || q[i].processAfter.value <= now
    ensures forall k :: 0 <= k < i ==>
      || q[k].enqueueTime.None? || ttl < now - q[k].enqueueTime.value
      || (q[k].processAfter.Some? && now < q[k].processAfter.value)
  {
    if q == [] || Servable(q[0], ttl, now) then 0 else
    var i := FirstServable(q[1..], ttl, now) + 1;
    assert forall k :: 1 <= k < i ==> q[k] == q[1..][k - 1];
    i
  }

  function AllDeferred(q: seq<Item>, ttl: real, now: real): seq<Item> {
    if q == [] then [] else (if Deferred(q[0], ttl, now) then [q[0]] else []) + AllDeferred(q[1..], ttl, now)
  }

  function AllStale(q: seq<Item>, ttl: real, now: real): seq<Item> {
    if q == [] then [] else (if Stale(q[0], ttl, now) then [q[0]] else []) + AllStale(q[1..], ttl, now)
  }

  lemma {:induction false} DeferredConcat(p: seq<Item>, q: seq<Item>, ttl: real, now: real)
    ensures AllDeferred(p + q, ttl, now) == AllDeferred(p, ttl, now) + AllDeferred(q, ttl, now)
  {
    if p == [] {
      assert p + q == q;
    } else {
      assert (p + q)[0] == p[0] && (p + q)[1..] == p[1..] + q;
      DeferredConcat(p[1..], q, ttl, now);
      var first := if Deferred(p[0], ttl, now) then [p[0]] else [];
      assert first + (AllDeferred(p[1..], ttl, now) + AllDeferred(q, ttl, now))
          == first + AllDeferred(p[1..], ttl, now) + AllDeferred(q, ttl, now);
    }
  }

  // ---------------------------------------------------------------- one pop

  datatype Outcome = Blocked | Returned(item: Item, rest: seq<Item>) | Again(rest: seq<Item>)

  /** What pushing back a popped item leaves: the error of a full list is ignored. */
  function PushBack(q: seq<Item>, maxSize: nat, x: Item): seq<Item> {
    if maxSize <= |q| then q else q + [x]
  }

  function Pop(q: seq<Item>, maxSize: nat, ttl: real, now: real): Outcome {
    if q == [] then Blocked
    else if Stale(q[0], ttl, now) then Again(q[1..])
    else if !Ready(q[0], now) then Again(PushBack(q[1..], maxSize, q[0]))
    else Returned(q[0], q[1..])
  }

  /** True when the recursion returns an item within n pops. */
  predicate ReturnsWithin(q: seq<Item>, maxSize: nat, ttl: real, now: real, n: nat)
    decreases n
  {
    0 < n &&
    match Pop(q, maxSize, ttl, now)
    case Blocked => false
    case Returned(_, _) => true
    case Again(rest) => ReturnsWithin(rest, maxSize, ttl, now, n - 1)
  }

  /** How many of the items before position i are popped while the list is longer than maxSize. */
  function Overflowing(q: seq<Item>, maxSize: nat, i: nat): nat {
    if |q| <= maxSize then 0 else if i < |q| - maxSize then i else |q| - maxSize
  }

  /** The list a Dequeue leaves that returns the item at position i. */
  function Rotated(q: seq<Item>, maxSize: nat, ttl: real, now: real, i: nat): seq<Item>
    requires i < |q|
  {
    q[i + 1..] + AllDeferred(q[Overflowing(q, maxSize, i)..i], ttl, now)
  }

  /** A pop that does not return moves the first servable item one place forward. */
  lemma PopAdvances(q: seq<Item>, maxSize: nat, ttl: real, now: real)
    requires 0 < FirstServable(q, ttl, now) < |q|
    ensures var i := FirstServable(q, ttl, now);
      && Pop(q, maxSize, ttl, now).Again?
      && var rest := Pop(q, maxSize, ttl, now).rest;
      && FirstServable(rest, ttl, now) == i - 1 < |rest|
      && rest[i - 1] == q[i]
      && Rotated(rest, maxSize, ttl, now, i - 1) == Rotated(q, maxSize, ttl, now, i)
  {
    var i := FirstServable(q, ttl, now);
    var rest := Pop(q, maxSize, ttl, now).rest;
    assert forall k :: 0 <= k < |q| - 1 ==> rest[k] == q[k + 1];
    assert !Servable(q[0], ttl, now);
    FirstServableIs(rest, ttl, now, i - 1);
    if Stale(q[0], ttl, now) || maxSize < |q| {
      RotatedAfterDrop(q, maxSize, ttl, now, i);
    } else {
      RotatedAfterPush(q, maxSize, ttl, now, i);
    }
  }

  /** The head was dropped: it had expired, or it was lost because the list is over its size. */
  lemma RotatedAfterDrop(q: seq<Item>, maxSize: nat, ttl: real, now: real, i: nat)
    requires 0 < i < |q| && (Stale(q[0], ttl, now) || maxSize < |q|)
    ensures Rotated(q[1..], maxSize, ttl, now, i - 1) == Rotated(q, maxSize, ttl, now, i)
  {
    var rest := q[1..];
    var d, d' := Overflowing(q, maxSize, i), Overflowing(rest, maxSize, i - 1);
    assert rest[i..] == q[i + 1..];
    if 0 < d {
      assert d' == d - 1;
      assert rest[d'..i - 1] == q[d..i];
    } else {
      assert q[d..i] == [q[0]] + rest[d'..i - 1];
    }
  }

  lemma RotatedAfterPush(q: seq<Item>, maxSize: nat, ttl: real, now: real, i: nat)
    requires 0 < i < |q| <= maxSize && Deferred(q[0], ttl, now)
    ensures Rotated(q[1..] + [q[0]], maxSize, ttl, now, i - 1) == Rotated(q, maxSize, ttl, now, i)
  {
    var rest := q[1..] + [q[0]];
    assert q[0..i] == [q[0]] + q[1..i] && rest[0..i - 1] == q[1..i];
    var tail := AllDeferred(q[1..i], ttl, now);
    assert AllDeferred(q[0..i], ttl, now) == [q[0]] + tail;
    assert rest[i..] == q[i + 1..] + [q[0]];
    assert q[i + 1..] + ([q[0]] + tail) == q[i + 1..] + [q[0]] + tail;
  }

  lemma FirstServableIs(q: seq<Item>, ttl: real, now: real, i: nat)
    requires i < |q| && Servable(q[i], ttl, now)
    requires forall k :: 0 <= k < i ==> !Servable(q[k], ttl, now)
    ensures FirstServable(q, ttl, now) == i
  {
    var j := FirstServable(q, ttl, now);
    assert j < |q| ==> Servable(q[j], ttl, now);
  }

  lemma {:induction false} ReturnsWhenServable(q: seq<Item>, maxSize: nat, ttl: real, now: real)
    requires FirstServable(q, ttl, now) < |q|
    ensures ReturnsWithin(q, maxSize, ttl, now, FirstServable(q, ttl, now) + 1)
    decreases FirstServable(q, ttl, now)
  {
    if 0 < FirstServable(q, ttl, now) {
      PopAdvances(q, maxSize, ttl, now);
      ReturnsWhenServable(Pop(q, maxSize, ttl, now).rest, maxSize, ttl, now);
    }
  }

  lemma {:induction false} NeverReturnsOtherwise(q: seq<Item>, maxSize: nat, ttl: real, now: real, n: nat)
    requires forall k :: 0 <= k < |q| ==> !Servable(q[k], ttl, now)
    ensures !ReturnsWithin(q, maxSize, ttl, now, n)
    decreases n
  {
    if 0 < n && q != [] {
      assert !Servable(q[0], ttl, now);
      var rest := Pop(q, maxSize, ttl, now).rest;
      NeverReturnsOtherwise(rest, maxSize, ttl, now, n - 1);
    }
  }

  /** At a fixed clock and with one client, Dequeue returns an item exactly when some item is servable. */
  lemma ReturnsIff(q: seq<Item>, maxSize: nat, ttl: real, now: real)
    ensures (exists n :: ReturnsWithin(q, maxSize, ttl, now, n)) <==> (exists x :: x in q && Servable(x, ttl, now))
  {
    var i := FirstServable(q, ttl, now);
    if i < |q| {
      ReturnsWhenServable(q, maxSize, ttl, now);
      var n := i + 1;
      assert exists n :: ReturnsWithin(q, maxSize, ttl, now, n);
      var x := q[i];
      assert exists x :: x in q && Servable(x, ttl, now);
    } else {
      forall n ensures !ReturnsWithin(q, maxSize, ttl, now, n) {
        NeverReturnsOtherwise(q, maxSize, ttl, now, n);
      }
    }
  }

  // ---------------------------------------------------------------- the client

  /** The list a single client sees; time is an argument. */
  class RedisFIFO {
    var list: seq<Item>
    const maxSize: nat
    const itemTTL: real

    constructor (maxSize: int, itemTTL: real)
      ensures list == []
      ensures this.maxSize == if maxSize <= 0 then 10000 else maxSize
      ensures this.itemTTL == if itemTTL <= 0.0 then 86400.0 else itemTTL
    {
      list := [];
      this.maxSize := if maxSize <= 0 then 10000 else maxSize;
      this.itemTTL := if itemTTL <= 0.0 then 86400.0 else itemTTL;
    }

    /** LLEN, then RPUSH. */
    method Enqueue(item: Option<Item>, now: real) returns (r: Result<(), Error>)
      modifies this
      ensures r == if item.None? then Err(NilItem) else if maxSize <= old(|list|) then Err(QueueFull) else Ok(())
      ensures list == if r.Ok? then old(list) + [Stamped(item.value, now)] else old(list)
      ensures r.Ok? ==> var n := old(|list|);
        && |list| == n + 1 && list[..n] == old(list)
        && list[n].id == item.value.id && list[n].data == item.value.data && list[n].processAfter == item.value.processAfter
        && list[n].enqueueTime == if item.value.enqueueTime.Some? then item.value.enqueueTime else Some(now)
    {
      if item.None? {
        return Err(NilItem);
      }
      if |list| >= maxSize {
        return Err(QueueFull);
      }
      list := list + [Stamped(item.value, now)];
      return Ok(());
    }

    /**
     Pops until an item can be served. Called where it returns (ReturnsIff), it serves the first
     servable item, drops the expired ones ahead of it, and moves the deferred ones ahead of it
     behind the others, in order, except those popped while the list was longer than maxSize.
     */
    method Dequeue(now: real) returns (item: Item)
      requires FirstServable(list, itemTTL, now) < |list|
      modifies this
      ensures var i := FirstServable(old(list), itemTTL, now);
        item == old(list)[i] && list == Rotated(old(list), maxSize, itemTTL, now, i)
      ensures item.enqueueTime.Some? && now - item.enqueueTime.value <= itemTTL
      ensures item.processAfter.None? || item.processAfter.value <= now
      decreases FirstServable(list, itemTTL, now)
    {
      ghost var q := list;
      item := list[0];
      list := list[1..];
      if item.enqueueTime.None? || now - item.enqueueTime.value > itemTTL {
        PopAdvances(q, maxSize, itemTTL, now);
        item := Dequeue(now);
      } else if item.processAfter.Some? && now < item.processAfter.value {
        PopAdvances(q, maxSize, itemTTL, now);
        var _ := Enqueue(Some(item), now);
        item := Dequeue(now);
      } else {
        assert AllDeferred(q[Overflowing(q, maxSize, 0)..0], itemTTL, now) == [];
      }
    }

    /** LINDEX 0: neither expiry nor the time to process is looked at. */
    method Peek() returns (r: Result<Item, Error>)
      ensures r == if list == [] then Err(QueueEmpty) else Ok(list[0])
    {
      if |list| == 0 {
        return Err(QueueEmpty);
      }
      return Ok(list[0]);
    }
  }

  /** Peek names the item that Dequeue will serve exactly when the first item is ready and has not expired. */
  lemma PeekNamesNextIff(q: seq<Item>, ttl: real, now: real)
    requires FirstServable(q, ttl, now) < |q|
    ensures q[0] == q[FirstServable(q, ttl, now)] <==> Servable(q[0], ttl, now)
  {}

  // ---------------------------------------------------------------- what a Dequeue keeps and loses

  lemma {:induction false} SkippedPartition(q: seq<Item>, ttl: real, now: real)
    requires forall k :: 0 <= k < |q| ==> !Servable(q[k], ttl, now)
    ensures multiset(q) == multiset(AllStale(q, ttl, now)) + multiset(AllDeferred(q, ttl, now))
  {
    if q != [] {
      assert q == [q[0]] + q[1..];
      assert !Servable(q[0], ttl, now);
      SkippedPartition(q[1..], ttl, now);
    }
  }

  /** Everything before is the item served, the list after, the expired items passed, and what was lost. */
  lemma {:induction false} DequeueAccounts(q: seq<Item>, maxSize: nat, ttl: real, now: real)
    requires FirstServable(q, ttl, now) < |q|
    ensures var i := FirstServable(q, ttl, now);
      multiset(q) == multiset{q[i]} + multiset(Rotated(q, maxSize, ttl, now, i)) + multiset(AllStale(q[..i], ttl, now))
                     + multiset(AllDeferred(q[..Overflowing(q, maxSize, i)], ttl, now))
  {
    hide AllStale, AllDeferred, FirstServable;
    var i := FirstServable(q, ttl, now);
    var d := Overflowing(q, maxSize, i);
    SkippedPartition(q[..i], ttl, now);
    assert q[..i] == q[..d] + q[d..i];
    DeferredConcat(q[..d], q[d..i], ttl, now);
    var lost, kept, stale := AllDeferred(q[..d], ttl, now), AllDeferred(q[d..i], ttl, now), AllStale(q[..i], ttl, now);
    Pieces(q, i, lost, kept, stale);
  }

  lemma {:induction false} WhatIsSkipped(q: seq<Item>, ttl: real, now: real, x: Item)
    ensures x in AllStale(q, ttl, now) <==> x in q && (x.enqueueTime.None? || ttl < now - x.enqueueTime.value)
    ensures x in AllDeferred(q, ttl, now) <==>
      && x in q && x.enqueueTime.Some? && now - x.enqueueTime.value <= ttl
      && x.processAfter.Some? && now < x.processAfter.value
  {
    if q != [] {
      assert q == [q[0]] + q[1..];
      WhatIsSkipped(q[1..], ttl, now, x);
    }
  }

  /** While the list is within its size, a Dequeue takes no unexpired item but the one it serves. */
  lemma UnexpiredStay(q: seq<Item>, maxSize: nat, ttl: real, now: real, x: Item)
    requires FirstServable(q, ttl, now) < |q| <= maxSize
    requires x.enqueueTime.Some? && now - x.enqueueTime.value <= ttl
    ensures var i := FirstServable(q, ttl, now);
      multiset(Rotated(q, maxSize, ttl, now, i))[x] == multiset(q)[x] - if x == q[i] then 1 else 0
  {
    var i := FirstServable(q, ttl, now);
    DequeueAccounts(q, maxSize, ttl, now);
    WhatIsSkipped(q[..i], ttl, now, x);
    assert q[..0] == [];
    hide AllStale, Rotated;
    assert multiset(AllDeferred(q[..0], ttl, now)) == multiset{};
    assert multiset(AllStale(q[..i], ttl, now))[x] == 0;
  }

  lemma Pieces(q: seq<Item>, i: nat, lost: seq<Item>, kept: seq<Item>, stale: seq<Item>)
    requires i < |q| && multiset(q[..i]) == multiset(stale) + multiset(lost + kept)
    ensures multiset(q) == multiset{q[i]} + multiset(q[i + 1..] + kept) + multiset(stale) + multiset(lost)
  {
    assert q == q[..i] + [q[i]] + q[i + 1..];
    assert multiset(q) == multiset(q[..i]) + multiset{q[i]} + multiset(q[i + 1..]);
  }

  /**
   A Dequeue loses no item that had not expired exactly when no deferred item is among those it
   pops while the list is over its size; with at most maxSize items there are none.
   */
  lemma {:induction false} LosesNothingIff(q: seq<Item>, maxSize: nat, ttl: real, now: real)
    requires FirstServable(q, ttl, now) < |q|
    ensures var i := FirstServable(q, ttl, now);
      multiset(q) == multiset{q[i]} + multiset(Rotated(q, maxSize, ttl, now, i)) + multiset(AllStale(q[..i], ttl, now))
      <==> (forall k :: 0 <= k < Overflowing(q, maxSize, i) ==> !Deferred(q[k], ttl, now))
    ensures |q| <= maxSize ==> Overflowing(q, maxSize, FirstServable(q, ttl, now)) == 0
  {
    hide AllStale, AllDeferred, FirstServable, Rotated;
    var i := FirstServable(q, ttl, now);
    var d := Overflowing(q, maxSize, i);
    DequeueAccounts(q, maxSize, ttl, now);
    NoneDeferredIff(q[..d], ttl, now);
    NothingAddedIff(multiset{q[i]} + multiset(Rotated(q, maxSize, ttl, now, i)) + multiset(AllStale(q[..i], ttl, now)),
                    AllDeferred(q[..d], ttl, now));
    assert forall k :: 0 <= k < d ==> q[..d][k] == q[k];
  }

  lemma NothingAddedIff(rest: multiset<Item>, lost: seq<Item>)
    ensures rest + multiset(lost) == rest <==> lost == []
  {
    assert |rest + multiset(lost)| == |rest| + |lost|;
  }

  lemma {:induction false} NoneDeferredIff(q: seq<Item>, ttl: real, now: real)
    ensures AllDeferred(q, ttl, now) == [] <==> forall k :: 0 <= k < |q| ==> !Deferred(q[k], ttl, now)
  {
    if q != [] {
      NoneDeferredIff(q[1..], ttl, now);
      assert forall k :: 1 <= k < |q| ==> q[k] == q[1..][k - 1];
      if forall k :: 0 <= k < |q| ==> !Deferred(q[k], ttl, now) {
        assert forall k :: 0 <= k < |q| - 1 ==> q[1..][k] == q[k + 1];
      }
    }
  }

  /** A list one longer than its size, with a deferred item at its head: the item is gone. */
  lemma OverfullLoses()
    ensures var x, y := Item("a", Malformed, Some(0.0), Some(9.0)), Item("b", Malformed, Some(0.0), None);
      FirstServable([x, y], 10.0, 1.0) == 1 && Rotated([x, y], 1, 10.0, 1.0, 1) == []
  {
    var x, y := Item("a", Malformed, Some(0.0), Some(9.0)), Item("b", Malformed, Some(0.0), None);
    assert [x, y][1..] == [y];
    assert FirstServable([y], 10.0, 1.0) == 0;
  }

  // ---------------------------------------------------------------- agreement of the two queues

  ghost predicate CyclicRotation(a: seq<Item>, b: seq<Item>) {
    exists k :: 0 <= k <= |a| && b == a[k..] + a[..k]
  }

  lemma {:induction false} DeferredAll(q: seq<Item>, ttl: real, now: real)
    requires forall k :: 0 <= k < |q| ==> Deferred(q[k], ttl, now)
    ensures AllDeferred(q, ttl, now) == q
  {
    if q != [] {
      assert forall k :: 0 <= k < |q| - 1 ==> q[1..][k] == q[k + 1];
      DeferredAll(q[1..], ttl, now);
    }
  }

  /**
   From equal contents of at most maxSize items, none expired and some ready, both queues serve the
   same item (the one the in-memory Peek names) and what they keep is the same up to rotation.
   */
  lemma QueuesAgree(q: seq<Item>, maxSize: nat, ttl: real, now: real)
    requires |q| <= maxSize && FirstReady(q, now) < |q|
    requires forall k :: 0 <= k < |q| ==> !Stale(q[k], ttl, now)
    ensures FirstServable(q, ttl, now) == FirstReady(q, now)
    ensures var i := FirstReady(q, now);
      && CyclicRotation(Without(q, i), Rotated(q, maxSize, ttl, now, i))
      && var a := q[..i] + q[i + 1..]; exists k :: 0 <= k <= |a| && Rotated(q, maxSize, ttl, now, i) == a[k..] + a[..k]
  {
    var i := FirstReady(q, now);
    FirstServableIs(q, ttl, now, i);
    DeferredAll(q[..i], ttl, now);
    assert q[0..i] == q[..i];
    var a := Without(q, i);
    assert a[i..] + a[..i] == q[i + 1..] + q[..i];
  }

  /** The two queues call an item expired at the same instants, except when its age equals the TTL. */
  lemma ExpiryAgreesIff(x: Item, ttl: real, now: real)
    ensures (Stale(x, ttl, now) <==> !Kept(x, ttl, now)) <==> !(x.enqueueTime.Some? && now - x.enqueueTime.value == ttl)
  {}
}
