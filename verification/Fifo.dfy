/** The queue as a sequence: what each operation of the in-memory queue does to it, and over runs. */
module Fifo {
  import opened Common

  /** The queued payload: a request that decodes, or bytes that do not. */
  datatype Payload = Request(requestID: string, tokenCost: int) | Malformed

  /** A zero time in either field is None. */
  datatype Item = Item(id: string, data: Payload, enqueueTime: Option<real>, processAfter: Option<real>)

  predicate Ready(x: Item, now: real) {
    x.processAfter.None? || x.processAfter.value <= now
  }

  /** The position of the first ready item, or the length when none is ready. */
  function FirstReady(q: seq<Item>, now: real): (i: nat)
    ensures i <= |q|
    ensures i < |q| ==> Ready(q[i], now)
    ensures forall k :: 0 <= k < i ==> !Ready(q[k], now)
    ensures i < |q| ==> q[i].processAfter.None? || q[i].processAfter.value <= now
    ensures forall k :: 0 <= k < i ==> q[k].processAfter.Some? && now < q[k].processAfter.value
  {
    if q == [] || Ready(q[0], now) then 0 else
    var i := FirstReady(q[1..], now) + 1;
    assert forall k :: 1 <= k < i ==> q[k] == q[1..][k - 1];
    i
  }

  function Without<T>(q: seq<T>, i: nat): seq<T>
    requires i < |q|
  {
    q[..i] + q[i + 1..]
  }

  /** An item without an enqueue time gets the current one. */
  function Stamped(x: Item, now: real): Item {
    if x.enqueueTime.None? then x.(enqueueTime := Some(now)) else x
  }

  /** Items whose enqueue time is missing are older than any lifetime. */
  predicate Kept(x: Item, ttl: real, now: real) {
    x.enqueueTime.Some? && now - x.enqueueTime.value < ttl
  }

  function Unexpired(q: seq<Item>, ttl: real, now: real): seq<Item> {
    if q == [] then [] else (if Kept(q[0], ttl, now) then [q[0]] else []) + Unexpired(q[1..], ttl, now)
  }

  function Expired(q: seq<Item>, ttl: real, now: real): seq<Item> {
    if q == [] then [] else (if Kept(q[0], ttl, now) then [] else [q[0]]) + Expired(q[1..], ttl, now)
  }

  lemma UnexpiredNone(ttl: real, now: real)
    ensures Unexpired([], ttl, now) == []
  {}

  lemma UnexpiredOne(x: Item, ttl: real, now: real)
    ensures Unexpired([x], ttl, now) == if Kept(x, ttl, now) then [x] else []
    ensures Unexpired([x], ttl, now) == if x.enqueueTime.Some? && now - x.enqueueTime.value < ttl then [x] else []
  {}

  lemma {:induction false} UnexpiredConcat(p: seq<Item>, q: seq<Item>, ttl: real, now: real)
    ensures Unexpired(p + q, ttl, now) == Unexpired(p, ttl, now) + Unexpired(q, ttl, now)
  {
    if p == [] {
      assert p + q == q;
    } else {
      assert (p + q)[0] == p[0] && (p + q)[1..] == p[1..] + q;
      UnexpiredConcat(p[1..], q, ttl, now);
      var first := if Kept(p[0], ttl, now) then [p[0]] else [];
      assert first + (Unexpired(p[1..], ttl, now) + Unexpired(q, ttl, now))
          == first + Unexpired(p[1..], ttl, now) + Unexpired(q, ttl, now);
    }
  }

  /** The items younger than the TTL all stay, as often as they were there, and no others. */
  lemma {:induction false} YoungStay(q: seq<Item>, ttl: real, now: real, x: Item)
    ensures multiset(Unexpired(q, ttl, now))[x]
         == if x.enqueueTime.Some? && now - x.enqueueTime.value < ttl then multiset(q)[x] else 0
  {
    if q != [] {
      assert q == [q[0]] + q[1..];
      YoungStay(q[1..], ttl, now, x);
    }
  }

  lemma YoungRemain(q: seq<Item>, ttl: real, now: real)
    ensures forall x :: x in Unexpired(q, ttl, now) <==>
      x in q && x.enqueueTime.Some? && now - x.enqueueTime.value < ttl
  {
    hide Unexpired;
    forall x ensures x in Unexpired(q, ttl, now) <==> x in q && x.enqueueTime.Some? && now - x.enqueueTime.value < ttl {
      YoungStay(q, ttl, now, x);
      assert x in q <==> 0 < multiset(q)[x];
      assert x in Unexpired(q, ttl, now) <==> 0 < multiset(Unexpired(q, ttl, now))[x];
    }
  }

  lemma {:induction false} CleanupPartitions(q: seq<Item>, ttl: real, now: real)
    ensures multiset(q) == multiset(Unexpired(q, ttl, now)) + multiset(Expired(q, ttl, now))
  {
    if q != [] {
      assert q == [q[0]] + q[1..];
      CleanupPartitions(q[1..], ttl, now);
    }
  }

  // ---------------------------------------------------------------- runs

  datatype Event =
    | Enqueue(item: Item, now: real)
    | Dequeue(now: real)
    | Cleanup(now: real)
    | Clear

  /** The queue together with everything that entered and left it. */
  datatype History = History(
    queue: seq<Item>,
    enqueued: seq<Item>,
    dequeued: seq<Item>,
    expired: multiset<Item>,
    cleared: multiset<Item>)

  const NEW := History([], [], [], multiset{}, multiset{})

  function Step(maxSize: nat, ttl: real, h: History, e: Event): History {
    match e
    case Enqueue(item, now) =>
      if maxSize <= |h.queue| then h else
      var x := Stamped(item, now);
      h.(queue := h.queue + [x], enqueued := h.enqueued + [x])
    case Dequeue(now) =>
      var i := FirstReady(h.queue, now);
      if i == |h.queue| then h else
      h.(queue := Without(h.queue, i), dequeued := h.dequeued + [h.queue[i]])
    case Cleanup(now) =>
      h.(queue := Unexpired(h.queue, ttl, now), expired := h.expired + multiset(Expired(h.queue, ttl, now)))
    case Clear =>
      h.(queue := [], cleared := h.cleared + multiset(h.queue))
  }

  function Run(maxSize: nat, ttl: real, h: History, es: seq<Event>): History
    decreases |es|
  {
    if es == [] then h else Run(maxSize, ttl, Step(maxSize, ttl, h, es[0]), es[1..])
  }

  // ---------------------------------------------------------------- conservation and order

  /** `sub` can be obtained from `s` by leaving items out. */
  ghost predicate Subsequence(sub: seq<Item>, s: seq<Item>) {
    sub == [] ||
    (s != [] &&
      (|| (sub[|sub| - 1] == s[|s| - 1] && Subsequence(sub[..|sub| - 1], s[..|s| - 1]))
       || Subsequence(sub, s[..|s| - 1])))
  }

  function Undelayed(q: seq<Item>): seq<Item> {
    if q == [] then [] else (if q[0].processAfter.None? then [q[0]] else []) + Undelayed(q[1..])
  }

  lemma {:induction false} UndelayedConcat(p: seq<Item>, q: seq<Item>)
    ensures Undelayed(p + q) == Undelayed(p) + Undelayed(q)
  {
    if p == [] {
      assert p + q == q;
    } else {
      assert (p + q)[0] == p[0] && (p + q)[1..] == p[1..] + q;
      UndelayedConcat(p[1..], q);
      var first := if p[0].processAfter.None? then [p[0]] else [];
      assert first + (Undelayed(p[1..]) + Undelayed(q)) == first + Undelayed(p[1..]) + Undelayed(q);
    }
  }

  lemma {:induction false} NoneUndelayed(q: seq<Item>)
    requires forall k :: 0 <= k < |q| ==> q[k].processAfter.Some?
    ensures Undelayed(q) == []
  {
    if q != [] {
      NoneUndelayed(q[1..]);
    }
  }

  /** What comes after a first ready item has only delayed items before it. */
  lemma UndelayedOrder(q: seq<Item>, now: real)
    requires FirstReady(q, now) < |q|
    ensures var i := FirstReady(q, now); Undelayed([q[i]]) + Undelayed(Without(q, i)) == Undelayed(q)
  {
    hide Undelayed;
    var i := FirstReady(q, now);
    var front, x, back := q[..i], q[i], q[i + 1..];
    assert forall k :: 0 <= k < i ==> front[k] == q[k] && !Ready(q[k], now);
    NoneUndelayed(front);
    hide FirstReady;
    assert q == front + ([x] + back);
    UndelayedConcat(front, [x] + back);
    UndelayedConcat([x], back);
    UndelayedConcat(front, back);
    assert [] + Undelayed([x] + back) == Undelayed([x] + back);
    assert [] + Undelayed(back) == Undelayed(back);
  }

  lemma {:induction false} SubsequenceLess(a: seq<Item>, b: seq<Item>, b': seq<Item>, s: seq<Item>)
    requires Subsequence(a + b, s) && Subsequence(b', b)
    ensures Subsequence(a + b', s)
    decreases |s| + |b|
  {
    if b != [] && s != [] {
      var ab, front := a + b, s[..|s| - 1];
      assert ab[|ab| - 1] == b[|b| - 1] && ab[..|ab| - 1] == a + b[..|b| - 1];
      if Subsequence(ab, front) {
        SubsequenceLess(a, b, b', front);
      } else if Subsequence(b', b[..|b| - 1]) {
        SubsequenceLess(a, b[..|b| - 1], b', front);
      } else {
        SubsequenceLess(a, b[..|b| - 1], b'[..|b'| - 1], front);
        var ab' := a + b';
        assert ab'[|ab'| - 1] == s[|s| - 1] && ab'[..|ab'| - 1] == a + b'[..|b'| - 1];
      }
    } else {
      assert b == [] ==> b' == [];
      assert s == [] ==> a == [] && b == [] by {
        assert s == [] ==> a + b == [];
        assert a + b == [] ==> |a + b| == 0;
      }
    }
  }

  /** The positions, in order, at which a subsequence is found. */
  lemma {:induction false} Positions(sub: seq<Item>, s: seq<Item>) returns (at: seq<nat>)
    requires Subsequence(sub, s)
    ensures |at| == |sub| && forall i :: 0 <= i < |sub| ==> at[i] < |s| && s[at[i]] == sub[i]
    ensures forall i, k :: 0 <= i < k < |at| ==> at[i] < at[k]
    decreases |s|
  {
    at := [];
    if sub != [] {
      var n := |s| - 1;
      if sub[|sub| - 1] == s[n] && Subsequence(sub[..|sub| - 1], s[..n]) {
        at := Positions(sub[..|sub| - 1], s[..n]);
        at := at + [n];
      } else {
        at := Positions(sub, s[..n]);
      }
    }
  }

  lemma SubsequenceLonger(sub: seq<Item>, s: seq<Item>, x: Item)
    requires Subsequence(sub, s)
    ensures Subsequence(sub, s + [x])
  {
    assert (s + [x])[..|s|] == s;
  }

  lemma SubsequenceExtend(sub: seq<Item>, s: seq<Item>, x: Item)
    requires Subsequence(sub, s)
    ensures Subsequence(sub + [x], s + [x])
  {
    assert (sub + [x])[..|sub|] == sub && (s + [x])[..|s|] == s;
  }

  lemma {:induction false} UnexpiredSubsequence(q: seq<Item>, ttl: real, now: real)
    ensures Subsequence(Undelayed(Unexpired(q, ttl, now)), Undelayed(q))
    decreases |q|
  {
    if q != [] {
      var n := |q| - 1;
      var x := q[n];
      assert q == q[..n] + [x];
      UnexpiredConcat(q[..n], [x], ttl, now);
      UndelayedConcat(q[..n], [x]);
      assert Unexpired([x], ttl, now) == if Kept(x, ttl, now) then [x] else [];
      UndelayedConcat(Unexpired(q[..n], ttl, now), Unexpired([x], ttl, now));
      UnexpiredSubsequence(q[..n], ttl, now);
      var sub, all := Undelayed(Unexpired(q[..n], ttl, now)), Undelayed(q[..n]);
      if x.processAfter.None? {
        assert Undelayed([x]) == [x];
        if Kept(x, ttl, now) {
          SubsequenceExtend(sub, all, x);
        } else {
          assert sub + [] == sub;
          SubsequenceLonger(sub, all, x);
        }
      } else {
        assert Undelayed([x]) == [];
        assert sub + [] == sub && all + [] == all;
      }
    }
  }

  /** What every history satisfies. */
  ghost predicate Sound(maxSize: nat, h: History) {
    && |h.queue| <= maxSize
    && multiset(h.enqueued) == multiset(h.queue) + multiset(h.dequeued) + (h.expired + h.cleared)
    && Subsequence(Undelayed(h.dequeued) + Undelayed(h.queue), Undelayed(h.enqueued))
  }

  lemma UndelayedOne(x: Item)
    ensures Undelayed([x]) == if x.processAfter.None? then [x] else []
  {
    assert Undelayed([x][..0]) == [];
  }

  lemma EnqueueSound(maxSize: nat, h: History, x: Item)
    requires Sound(maxSize, h) && |h.queue| < maxSize
    ensures Sound(maxSize, h.(queue := h.queue + [x], enqueued := h.enqueued + [x]))
  {
    hide Undelayed, Subsequence;
    UndelayedConcat(h.queue, [x]);
    UndelayedConcat(h.enqueued, [x]);
    UndelayedOne(x);
    var d, q, e := Undelayed(h.dequeued), Undelayed(h.queue), Undelayed(h.enqueued);
    if x.processAfter.None? {
      SubsequenceExtend(d + q, e, x);
      assert d + (q + [x]) == d + q + [x];
    } else {
      assert q + [] == q && e + [] == e;
    }
    assert multiset(h.queue + [x]) == multiset(h.queue) + multiset{x};
    assert multiset(h.enqueued + [x]) == multiset(h.enqueued) + multiset{x};
  }

  lemma RemovedFromMiddle(q: seq<Item>, i: nat)
    requires i < |q|
    ensures multiset(q) == multiset(Without(q, i)) + multiset{q[i]}
  {
    assert q == q[..i] + [q[i]] + q[i + 1..];
  }

  lemma DequeueSound(maxSize: nat, h: History, now: real)
    requires Sound(maxSize, h) && FirstReady(h.queue, now) < |h.queue|
    ensures var i := FirstReady(h.queue, now);
      Sound(maxSize, h.(queue := Without(h.queue, i), dequeued := h.dequeued + [h.queue[i]]))
  {
    hide Undelayed, Subsequence, FirstReady;
    var i := FirstReady(h.queue, now);
    var x, rest := h.queue[i], Without(h.queue, i);
    UndelayedOrder(h.queue, now);
    UndelayedConcat(h.dequeued, [x]);
    assert Undelayed(h.dequeued) + Undelayed([x]) + Undelayed(rest)
        == Undelayed(h.dequeued) + (Undelayed([x]) + Undelayed(rest));
    RemovedFromMiddle(h.queue, i);
    assert multiset(h.dequeued + [x]) == multiset(h.dequeued) + multiset{x};
  }

  lemma SameTotal(q: multiset<Item>, d: multiset<Item>, out: multiset<Item>, q': multiset<Item>, out': multiset<Item>)
    requires q' + out' == q + out
    ensures q + d + out == q' + d + out'
  {
    assert q + d + out == (q + out) + d;
    assert q' + d + out' == (q' + out') + d;
  }

  lemma RemovalSound(maxSize: nat, h: History, q: seq<Item>, h': History)
    requires Sound(maxSize, h) && |q| <= |h.queue|
    requires Subsequence(Undelayed(q), Undelayed(h.queue))
    requires h'.queue == q && h'.enqueued == h.enqueued && h'.dequeued == h.dequeued
    requires multiset(q) + (h'.expired + h'.cleared) == multiset(h.queue) + (h.expired + h.cleared)
    ensures Sound(maxSize, h')
  {
    hide Undelayed, Subsequence;
    SubsequenceLess(Undelayed(h.dequeued), Undelayed(h.queue), Undelayed(q), Undelayed(h.enqueued));
    SameTotal(multiset(h.queue), multiset(h.dequeued), h.expired + h.cleared, multiset(q), h'.expired + h'.cleared);
  }

  lemma CleanupSound(maxSize: nat, ttl: real, h: History, now: real)
    requires Sound(maxSize, h)
    ensures Sound(maxSize, Step(maxSize, ttl, h, Cleanup(now)))
  {
    hide Sound, Undelayed, Subsequence, Unexpired, Expired;
    var q := Unexpired(h.queue, ttl, now);
    CleanupPartitions(h.queue, ttl, now);
    UnexpiredSubsequence(h.queue, ttl, now);
    UnexpiredNoLonger(h.queue, ttl, now);
    var gone := multiset(Expired(h.queue, ttl, now));
    assert multiset(q) + (h.expired + gone + h.cleared) == (multiset(q) + gone) + (h.expired + h.cleared);
    RemovalSound(maxSize, h, q, Step(maxSize, ttl, h, Cleanup(now)));
  }

  lemma ClearSound(maxSize: nat, h: History)
    requires Sound(maxSize, h)
    ensures Sound(maxSize, h.(queue := [], cleared := h.cleared + multiset(h.queue)))
  {
    var h' := h.(queue := [], cleared := h.cleared + multiset(h.queue));
    assert multiset(h'.queue) + (h'.expired + h'.cleared) == multiset(h.queue) + (h.expired + h.cleared);
    RemovalSound(maxSize, h, [], h');
  }

  lemma StepSound(maxSize: nat, ttl: real, h: History, e: Event)
    requires Sound(maxSize, h)
    ensures Sound(maxSize, Step(maxSize, ttl, h, e))
  {
    hide Sound, Undelayed, Subsequence, Unexpired, Expired;
    match e
    case Enqueue(item, now) =>
      if |h.queue| < maxSize {
        EnqueueSound(maxSize, h, Stamped(item, now));
      }
    case Dequeue(now) =>
      if FirstReady(h.queue, now) < |h.queue| {
        DequeueSound(maxSize, h, now);
      }
    case Cleanup(now) =>
      CleanupSound(maxSize, ttl, h, now);
    case Clear =>
      ClearSound(maxSize, h);
  }

  lemma {:induction false} RunSound(maxSize: nat, ttl: real, h: History, es: seq<Event>)
    requires Sound(maxSize, h)
    ensures Sound(maxSize, Run(maxSize, ttl, h, es))
    decreases |es|
  {
    hide Step, Sound;
    if es != [] {
      StepSound(maxSize, ttl, h, es[0]);
      RunSound(maxSize, ttl, Step(maxSize, ttl, h, es[0]), es[1..]);
    }
  }

  lemma NewSound(maxSize: nat)
    ensures Sound(maxSize, NEW)
  {}

  /**
   Over every run from an empty queue: the length never exceeds maxSize; every item that entered is
   queued, was dequeued, expired or was cleared, and only one of these; and the undelayed items that
   were dequeued, followed by those still queued, keep the order in which they were enqueued.
   */
  lemma FifoOverRuns(maxSize: nat, ttl: real, es: seq<Event>)
    ensures var h := Run(maxSize, ttl, NEW, es);
      && |h.queue| <= maxSize
      && multiset(h.enqueued) == multiset(h.queue) + multiset(h.dequeued) + (h.expired + h.cleared)
      && Subsequence(Undelayed(h.dequeued) + Undelayed(h.queue), Undelayed(h.enqueued))
    ensures var h := Run(maxSize, ttl, NEW, es); var out, into := Undelayed(h.dequeued) + Undelayed(h.queue), Undelayed(h.enqueued);
      exists at: seq<nat> ::
        && |at| == |out| && (forall i :: 0 <= i < |at| ==> at[i] < |into| && into[at[i]] == out[i])
        && (forall i, k :: 0 <= i < k < |at| ==> at[i] < at[k])
  {
    hide Run, Subsequence, Undelayed;
    NewSound(maxSize);
    RunSound(maxSize, ttl, NEW, es);
    var h := Run(maxSize, ttl, NEW, es);
    var at := Positions(Undelayed(h.dequeued) + Undelayed(h.queue), Undelayed(h.enqueued));
  }

  // ---------------------------------------------------------------- bounded bypass

  function Succeeds(h: History, e: Event): bool {
    e.Dequeue? && FirstReady(h.queue, e.now) < |h.queue|
  }

  function Successes(maxSize: nat, ttl: real, h: History, es: seq<Event>): nat
    decreases |es|
  {
    if es == [] then 0 else
    (if Succeeds(h, es[0]) then 1 else 0) + Successes(maxSize, ttl, Step(maxSize, ttl, h, es[0]), es[1..])
  }

  /** Where the item at position p is after an operation; None once it has left the queue. */
  function Follow(ttl: real, q: seq<Item>, p: nat, e: Event): Option<nat>
    requires p < |q|
  {
    match e
    case Enqueue(_, _) => Some(p)
    case Dequeue(now) =>
      var i := FirstReady(q, now);
      if i == p then None else if i < p then Some(p - 1) else Some(p)
    case Cleanup(now) => if Kept(q[p], ttl, now) then Some(|Unexpired(q[..p], ttl, now)|) else None
    case Clear => None
  }

  function FollowRun(maxSize: nat, ttl: real, h: History, p: nat, es: seq<Event>): Option<nat>
    requires p < |h.queue|
    decreases |es|
  {
    if es == [] then Some(p) else
    FollowStep(maxSize, ttl, h, p, es[0]);
    match Follow(ttl, h.queue, p, es[0])
    case None => None
    case Some(p') => FollowRun(maxSize, ttl, Step(maxSize, ttl, h, es[0]), p', es[1..])
  }

  lemma {:induction false} UnexpiredNoLonger(q: seq<Item>, ttl: real, now: real)
    ensures |Unexpired(q, ttl, now)| <= |q|
  {
    if q != [] {
      UnexpiredNoLonger(q[1..], ttl, now);
    }
  }

  /** Following a position follows the item. */
  lemma FollowStep(maxSize: nat, ttl: real, h: History, p: nat, e: Event)
    requires p < |h.queue|
    ensures var h' := Step(maxSize, ttl, h, e); var f := Follow(ttl, h.queue, p, e);
      f.Some? ==> f.value < |h'.queue| && h'.queue[f.value] == h.queue[p] && f.value <= p
  {
    if e.Cleanup? {
      var q, now := h.queue, e.now;
      assert q == q[..p] + ([q[p]] + q[p + 1..]);
      UnexpiredConcat(q[..p], [q[p]] + q[p + 1..], ttl, now);
      UnexpiredConcat([q[p]], q[p + 1..], ttl, now);
      UnexpiredNoLonger(q[..p], ttl, now);
    }
  }

  predicate ReadyThroughout(x: Item, es: seq<Event>) {
    forall i :: 0 <= i < |es| && es[i].Dequeue? ==> Ready(x, es[i].now)
  }

  lemma FirstReadyAtMost(q: seq<Item>, p: nat, now: real)
    requires p < |q| && Ready(q[p], now)
    ensures FirstReady(q, now) <= p
  {}

  lemma {:induction false} BypassPotential(maxSize: nat, ttl: real, h: History, p: nat, es: seq<Event>)
    requires p < |h.queue| && ReadyThroughout(h.queue[p], es)
    ensures var f := FollowRun(maxSize, ttl, h, p, es);
      f.Some? ==>
        && f.value + Successes(maxSize, ttl, h, es) <= p
        && f.value < |Run(maxSize, ttl, h, es).queue|
        && Run(maxSize, ttl, h, es).queue[f.value] == h.queue[p]
    decreases |es|
  {
    hide Step;
    if es != [] {
      FollowStep(maxSize, ttl, h, p, es[0]);
      var f := Follow(ttl, h.queue, p, es[0]);
      if es[0].Dequeue? {
        FirstReadyAtMost(h.queue, p, es[0].now);
      }
      if f.Some? {
        BypassPotential(maxSize, ttl, Step(maxSize, ttl, h, es[0]), f.value, es[1..]);
      }
    }
  }

  /** The readings Dequeue makes never go back before `from`. */
  /** How often the item has left the queue, in any of the three ways. */
  function Left(h: History, x: Item): nat {
    multiset(h.dequeued)[x] + h.expired[x] + h.cleared[x]
  }

  lemma StepLeft(maxSize: nat, ttl: real, h: History, x: Item, e: Event)
    ensures Left(h, x) <= Left(Step(maxSize, ttl, h, e), x)
    ensures |Step(maxSize, ttl, h, e).dequeued| == |h.dequeued| + if Succeeds(h, e) then 1 else 0
  {
    hide Unexpired, Expired;
  }

  /** An item that is no longer followed has left. */
  lemma FollowLeaves(maxSize: nat, ttl: real, h: History, p: nat, e: Event)
    requires p < |h.queue| && Follow(ttl, h.queue, p, e).None?
    ensures Left(h, h.queue[p]) < Left(Step(maxSize, ttl, h, e), h.queue[p])
  {
    hide Unexpired, Expired;
    var q, x := h.queue, h.queue[p];
    assert 0 < multiset(q)[x];
    if e.Cleanup? {
      YoungStay(q, ttl, e.now, x);
      CleanupPartitions(q, ttl, e.now);
    }
  }

  lemma {:induction false} RunLeft(maxSize: nat, ttl: real, h: History, x: Item, es: seq<Event>)
    ensures Left(h, x) <= Left(Run(maxSize, ttl, h, es), x)
    ensures |Run(maxSize, ttl, h, es).dequeued| == |h.dequeued| + Successes(maxSize, ttl, h, es)
    decreases |es|
  {
    hide Step, Left, Succeeds;
    if es != [] {
      StepLeft(maxSize, ttl, h, x, es[0]);
      RunLeft(maxSize, ttl, Step(maxSize, ttl, h, es[0]), x, es[1..]);
    }
  }

  lemma {:induction false} FollowRunLeaves(maxSize: nat, ttl: real, h: History, p: nat, es: seq<Event>)
    requires p < |h.queue| && FollowRun(maxSize, ttl, h, p, es).None?
    ensures Left(h, h.queue[p]) < Left(Run(maxSize, ttl, h, es), h.queue[p])
    decreases |es|
  {
    hide Step, Left, Follow;
    if es != [] {
      var x, h' := h.queue[p], Step(maxSize, ttl, h, es[0]);
      FollowStep(maxSize, ttl, h, p, es[0]);
      StepLeft(maxSize, ttl, h, x, es[0]);
      match Follow(ttl, h.queue, p, es[0])
      case None =>
        FollowLeaves(maxSize, ttl, h, p, es[0]);
        RunLeft(maxSize, ttl, h', x, es[1..]);
      case Some(p') =>
        FollowRunLeaves(maxSize, ttl, h', p', es[1..]);
    }
  }

  /**
   Bounded bypass: an item that is ready and has p items ahead of it is gone after p + 1 successful
   Dequeues, whatever enqueues, cleanups and later clock readings are interleaved: it was served, has
   expired or was cleared. Until then it is still in the queue with at most p minus the successes so
   far ahead of it.
   */
  lemma BoundedBypass(maxSize: nat, ttl: real, h: History, p: nat, now: real, es: seq<Event>)
    requires p < |h.queue| && (h.queue[p].processAfter.None? || h.queue[p].processAfter.value <= now)
    requires forall i :: 0 <= i < |es| && es[i].Dequeue? ==> now <= es[i].now
    ensures var h' := Run(maxSize, ttl, h, es); var x := h.queue[p];
      p + 1 <= |h'.dequeued| - |h.dequeued| ==>
        multiset(h.dequeued)[x] + h.expired[x] + h.cleared[x] < multiset(h'.dequeued)[x] + h'.expired[x] + h'.cleared[x]
    ensures var f := FollowRun(maxSize, ttl, h, p, es);
      && (p + 1 <= Successes(maxSize, ttl, h, es) ==> f.None?)
      && (f.Some? ==>
            && f.value <= p - Successes(maxSize, ttl, h, es)
            && f.value < |Run(maxSize, ttl, h, es).queue|
            && Run(maxSize, ttl, h, es).queue[f.value] == h.queue[p])
  {
    BypassPotential(maxSize, ttl, h, p, es);
    RunLeft(maxSize, ttl, h, h.queue[p], es);
    if FollowRun(maxSize, ttl, h, p, es).None? {
      FollowRunLeaves(maxSize, ttl, h, p, es);
    }
  }
}
