/** The in-memory queue: a slice over a backing array that is appended to, shifted and rebuilt. */
module MemoryQueue {
  import opened Common
  import opened Fifo

  datatype Error = NilItem | QueueFull | QueueEmpty | Canceled

  const DEFAULT_SIZE := 1000
  const DEFAULT_TTL := 86400.0

  /** The buffer while its items behind position i are shifted: those before k are in place. */
  ghost function ShiftedTo(was: seq<Item>, i: nat, k: nat): seq<Item>
    requires i < k <= |was|
  {
    was[..i] + was[i + 1..k] + was[k - 1..]
  }

  lemma ShiftOne(was: seq<Item>, i: nat, k: nat)
    requires i < k < |was|
    ensures var s := ShiftedTo(was, i, k);
      |s| == |was| && s[k] == was[k] && s[k - 1 := was[k]] == ShiftedTo(was, i, k + 1)
  {}

  lemma ShiftedAll(was: seq<Item>, i: nat, length: nat)
    requires i < length <= |was|
    ensures |ShiftedTo(was, i, length)| == |was|
    ensures ShiftedTo(was, i, length)[..length - 1] == Without(was[..length], i)
  {}

  /** One method call is one section under the queue's mutex; the time it reads is an argument. */
  class InMemoryFIFO {
    var buffer: array<Item>
    var length: nat
    const maxSize: nat
    const itemTTL: real

    ghost predicate Valid()
      reads this, buffer
    {
      && length <= buffer.Length
      && length <= maxSize
      && 0 < maxSize && 0.0 < itemTTL
      && forall k :: 0 <= k < length ==> buffer[k].enqueueTime.Some?
    }

    ghost function Contents(): seq<Item>
      requires length <= buffer.Length
      reads this, buffer
    {
      buffer[..length]
    }

    constructor (maxSize: int, itemTTL: real)
      ensures Valid() && fresh(buffer) && Contents() == []
      ensures this.maxSize == if maxSize <= 0 then DEFAULT_SIZE else maxSize
      ensures this.itemTTL == if itemTTL <= 0.0 then DEFAULT_TTL else itemTTL
    {
      var size := if maxSize <= 0 then DEFAULT_SIZE else maxSize;
      this.maxSize := size;
      this.itemTTL := if itemTTL <= 0.0 then DEFAULT_TTL else itemTTL;
      buffer := new Item[size](_ => Item("", Malformed, None, None));
      length := 0;
    }

    /** Go's append: in place while there is capacity, into a larger array otherwise. */
    method Append(x: Item)
      requires length <= buffer.Length
      modifies this`buffer, this`length, buffer
      ensures length <= buffer.Length && (buffer == old(buffer) || fresh(buffer))
      ensures Contents() == old(Contents()) + [x]
    {
      if length == buffer.Length {
        var larger := new Item[2 * length + 1](_ => x);
        for k := 0 to length
          modifies larger
          invariant larger[..k] == buffer[..k]
        {
          larger[k] := buffer[k];
        }
        buffer := larger;
      }
      buffer[length] := x;
      length := length + 1;
    }

    /** Refuses a missing item or a full queue; otherwise the stamped item becomes the last one. */
    method Enqueue(item: Option<Item>, now: real) returns (r: Result<(), Error>)
      requires Valid()
      modifies this`buffer, this`length, buffer
      ensures Valid() && (buffer == old(buffer) || fresh(buffer))
      ensures r == if item.None? then Err(NilItem)
                   else if old(|Contents()|) >= maxSize then Err(QueueFull) else Ok(())
      ensures Contents() == if r.Ok? then old(Contents()) + [Stamped(item.value, now)] else old(Contents())
      ensures r.Ok? ==> var n := old(|Contents()|);
        && |Contents()| == n + 1 && Contents()[..n] == old(Contents())
        && var x := Contents()[n];
        && x.id == item.value.id && x.data == item.value.data && x.processAfter == item.value.processAfter
        && x.enqueueTime == if item.value.enqueueTime.Some? then item.value.enqueueTime else Some(now)
      ensures item.Some? ==>
        Contents() == Step(maxSize, itemTTL, NEW.(queue := old(Contents())), Event.Enqueue(item.value, now)).queue
    {
      if item.None? {
        return Err(NilItem);
      }
      var x := Stamped(item.value, now);
      if length >= maxSize {
        return Err(QueueFull);
      }
      Append(x);
      assert forall k :: 0 <= k < length ==> buffer[k] == Contents()[k];
      return Ok(());
    }

    method FindReady(now: real) returns (i: nat)
      requires length <= buffer.Length
      ensures i == FirstReady(Contents(), now)
    {
      i := 0;
      while i < length && !(buffer[i].processAfter.None? || !(now < buffer[i].processAfter.value))
        invariant i <= length
        invariant forall k :: 0 <= k < i ==> !Ready(buffer[k], now)
      {
        i := i + 1;
      }
      var f := FirstReady(Contents(), now);
      assert f < |Contents()| ==> Ready(buffer[f], now);
      assert i < length ==> Ready(Contents()[i], now);
    }

    /** Removes position i by shifting everything behind it one place forward. */
    method Shift(i: nat)
      requires i < length <= buffer.Length
      modifies this`length, buffer
      ensures length == old(length) - 1
      ensures Contents() == Without(old(Contents()), i)
    {
      ghost var was := buffer[..];
      for k := i + 1 to length
        modifies buffer
        invariant buffer[..] == ShiftedTo(was, i, k)
      {
        ShiftOne(was, i, k);
        buffer[k - 1] := buffer[k];
        assert buffer[..] == ShiftedTo(was, i, k)[k - 1 := was[k]];
      }
      ShiftedAll(was, i, length);
      assert buffer[..length - 1] == buffer[..][..length - 1];
      length := length - 1;
    }

    /**
     The first ready item leaves the queue, and nothing else changes. On an empty queue the call
     blocks; it can return only once its context is canceled.
     */
    method Dequeue(now: real, canceled: bool) returns (r: Result<Item, Error>)
      requires Valid()
      requires Contents() != [] || canceled
      modifies this`length, buffer
      ensures Valid()
      ensures var q := old(Contents()); var i := FirstReady(q, now);
        && (q == [] ==> r == Err(Canceled))
        && (q != [] && i == |q| ==> r == Err(QueueEmpty))
        && (i < |q| ==> r == Ok(q[i]))
        && Contents() == if i < |q| then Without(q, i) else q
      ensures var q := old(Contents());
        && (r.Ok? <==> exists k :: 0 <= k < |q| && (q[k].processAfter.None? || q[k].processAfter.value <= now))
        && (r.Ok? ==> exists i ::
              && 0 <= i < |q| && r.value == q[i] && (q[i].processAfter.None? || q[i].processAfter.value <= now)
              && (forall k :: 0 <= k < i ==> q[k].processAfter.Some? && now < q[k].processAfter.value)
              && Contents() == q[..i] + q[i + 1..])
      ensures var h := Step(maxSize, itemTTL, NEW.(queue := old(Contents())), Event.Dequeue(now));
        Contents() == h.queue && h.dequeued == if r.Ok? then [r.value] else []
    {
      if length == 0 {
        return Err(Canceled);
      }
      var i := FindReady(now);
      if i == length {
        return Err(QueueEmpty);
      }
      r := Ok(buffer[i]);
      Shift(i);
      assert forall k :: 0 <= k < length ==> buffer[k] == Contents()[k];
    }

    method Peek(now: real) returns (r: Result<Item, Error>)
      requires Valid()
      ensures var i := FirstReady(Contents(), now);
        r == if i < |Contents()| then Ok(Contents()[i]) else Err(QueueEmpty)
      ensures var q := Contents();
        && (r.Ok? <==> exists k :: 0 <= k < |q| && (q[k].processAfter.None? || q[k].processAfter.value <= now))
        && (r.Ok? ==> exists i ::
              && 0 <= i < |q| && r.value == q[i] && (q[i].processAfter.None? || q[i].processAfter.value <= now)
              && (forall k :: 0 <= k < i ==> q[k].processAfter.Some? && now < q[k].processAfter.value))
    {
      if length == 0 {
        return Err(QueueEmpty);
      }
      var i := FindReady(now);
      r := if i < length then Ok(buffer[i]) else Err(QueueEmpty);
    }

    /** One tick of the cleanup: the items whose age has reached the TTL go, the others keep their order. */
    method CleanupExpired(now: real) returns (expired: nat)
      requires Valid()
      modifies this`buffer, this`length
      ensures Valid() && (buffer == old(buffer) || fresh(buffer))
      ensures Contents() == Unexpired(old(Contents()), itemTTL, now)
      ensures expired == old(|Contents()|) - |Contents()|
      ensures Contents() == Step(maxSize, itemTTL, NEW.(queue := old(Contents())), Event.Cleanup(now)).queue
      ensures forall x :: x in Contents() <==>
        x in old(Contents()) && x.enqueueTime.Some? && now - x.enqueueTime.value < itemTTL
    {
      hide Unexpired;
      YoungRemain(Contents(), itemTTL, now);
      UnexpiredNone(itemTTL, now);
      var kept := new Item[length](_ => Item("", Malformed, None, None));
      var n := 0;
      expired := 0;
      for k := 0 to length
        modifies kept
        invariant n + expired == k
        invariant kept[..n] == Unexpired(buffer[..k], itemTTL, now)
        invariant expired == 0 ==> kept[..n] == buffer[..k]
      {
        assert buffer[..k + 1] == buffer[..k] + [buffer[k]];
        UnexpiredOne(buffer[k], itemTTL, now);
        UnexpiredConcat(buffer[..k], [buffer[k]], itemTTL, now);
        if now - buffer[k].enqueueTime.value < itemTTL {
          kept[n] := buffer[k];
          n := n + 1;
        } else {
          expired := expired + 1;
        }
      }
      if expired > 0 {
        UnexpiredStamped(buffer[..length], itemTTL, now);
        buffer := kept;
        length := n;
        assert forall k :: 0 <= k < length ==> buffer[k] == Contents()[k];
      }
    }

    method Size() returns (n: nat)
      requires Valid()
      ensures n == |Contents()|
    {
      n := length;
    }

    method Clear()
      requires Valid()
      modifies this`buffer, this`length
      ensures Valid() && fresh(buffer) && Contents() == []
    {
      buffer := new Item[maxSize](_ => Item("", Malformed, None, None));
      length := 0;
    }
  }

  lemma {:induction false} UnexpiredStamped(q: seq<Item>, ttl: real, now: real)
    requires forall k :: 0 <= k < |q| ==> q[k].enqueueTime.Some?
    ensures forall k :: 0 <= k < |Unexpired(q, ttl, now)| ==> Unexpired(q, ttl, now)[k].enqueueTime.Some?
  {
    if q != [] {
      UnexpiredStamped(q[1..], ttl, now);
    }
  }
}
