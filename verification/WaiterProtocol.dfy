/**
 Every interleaving of ReserveN, its goroutine and CancelAt. A step is one critical section; a
 run is any sequence of labels, and a label that is not enabled leaves the state alone.
 */
module WaiterProtocol {
  import opened Common
  import Bucket
  import opened Waiters

  /** The in-memory limiter tests its own bucket; the Redis limiter gets an answer from a script. */
  datatype Kind = Memory | Redis

  datatype Reply = Yes | No | Failure

  /** Where a reservation's goroutine is: asleep, past its token test, or finished. */
  datatype Phase = Asleep | Tested | Over

  datatype Ticket = Ticket(key: string, cost: int, channel: Option<nat>, due: real, ok: bool, phase: Phase, paid: bool)

  datatype System = System(
    bucket: Bucket.State,
    events: seq<Bucket.Event>,
    maps: Maps<nat>,
    tickets: map<string, Ticket>,
    channels: nat,
    closes: multiset<nat>)

  datatype Label =
    | Allow(cost: int, now: real)
    | Reserve(id: string, key: string, cost: int, now: real, due: real, reply: Reply)
    | Test(id: string, now: real, reply: Reply)
    | Notify(id: string)
    | Cancel(id: string, now: real)

  function Init(c: Bucket.Config, now: real): System {
    System(Bucket.Full(c, now), [], Maps(map[], map[]), map[], 0, multiset{})
  }

  function Touch(c: Bucket.Config, s: System, e: Bucket.Event): (System, bool) {
    var (b, answer) := Bucket.Step(c, s.bucket, e);
    (s.(bucket := b, events := s.events + [e]), answer == Bucket.Granted)
  }

  /** The outcome of a token request: decided by the bucket in memory, by the reply with Redis. */
  function Ask(kind: Kind, c: Bucket.Config, s: System, e: Bucket.Event, reply: Reply): (System, Reply) {
    if kind == Redis then (s, reply) else
    var (s', granted) := Touch(c, s, e);
    (s', if granted then Yes else No)
  }

  /** A refused reservation gets a channel and an entry in both maps; a granted one needs neither. */
  function Issue(s: System, id: string, t: Ticket, granted: bool): System {
    if granted then
      s.(tickets := s.tickets[id := t.(channel := None, phase := Over, paid := true)])
    else
      s.(tickets := s.tickets[id := t.(channel := Some(s.channels))],
         maps := Add(s.maps, t.key, id, s.channels),
         channels := s.channels + 1)
  }

  function Settled(kind: Kind, t: Ticket, r: Reply): Ticket {
    t.(paid := r == Yes, phase := if r == Yes || (kind == Redis && r == No) then Tested else Over)
  }

  /** The goroutine closes the channel it finds under its waiter key, if it is still there. */
  function Wake(s: System, id: string): System
    requires id in s.tickets
  {
    var t := s.tickets[id];
    var k := WaiterKey(t.key, id);
    var s' := s.(tickets := s.tickets[id := t.(phase := Over)]);
    if k in s.maps.byKey then
      s'.(closes := s.closes + multiset{s.maps.byKey[k]}, maps := Drop(s.maps, k, id))
    else s'
  }

  function CancelAt(s: System, id: string, now: real): System
    requires id in s.tickets
  {
    var t := s.tickets[id];
    if t.ok && now < t.due && id in s.maps.byID then
      s.(maps := Drop(s.maps, s.maps.byID[id], id), tickets := s.tickets[id := t.(ok := false)])
    else s
  }

  function TestOp(kind: Kind, t: Ticket, now: real): Bucket.Event {
    Bucket.Event(now, if kind == Memory then Bucket.Settle(t.cost) else Bucket.Allow(t.cost))
  }

  function Next(kind: Kind, c: Bucket.Config, s: System, l: Label): System {
    match l
    case Allow(cost, now) =>
      if kind == Memory then Touch(c, s, Bucket.Event(now, Bucket.Allow(cost))).0 else s
    case Reserve(id, key, cost, now, due, reply) =>
      if cost <= 0 || id in s.tickets || !IsID(id) then s else
      var (s', r) := Ask(kind, c, s, Bucket.Event(now, Bucket.Reserve(cost)), reply);
      if r == Failure then s else
      Issue(s', id, Ticket(key, cost, None, due, true, Asleep, false), r == Yes)
    case Test(id, now, reply) =>
      if id !in s.tickets || s.tickets[id].phase != Asleep then s else
      var (s', r) := Ask(kind, c, s, TestOp(kind, s.tickets[id], now), reply);
      s'.(tickets := s'.tickets[id := Settled(kind, s'.tickets[id], r)])
    case Notify(id) =>
      if id !in s.tickets || s.tickets[id].phase != Tested then s else Wake(s, id)
    case Cancel(id, now) =>
      if id !in s.tickets then s else CancelAt(s, id, now)
  }

  function Run(kind: Kind, c: Bucket.Config, s: System, ls: seq<Label>): System
    decreases |ls|
  {
    if ls == [] then s else Run(kind, c, Next(kind, c, s, ls[0]), ls[1..])
  }

  // ---------------------------------------------------------------- invariant

  /** An ID in the maps leads to its ticket's own channel, and that channel is open. */
  ghost predicate Linked(s: System) {
    forall id :: id in s.maps.byID ==>
      && id in s.tickets
      && s.maps.byID[id] == WaiterKey(s.tickets[id].key, id)
      && s.maps.byID[id] in s.maps.byKey
      && s.tickets[id].channel == Some(s.maps.byKey[s.maps.byID[id]])
      && s.closes[s.maps.byKey[s.maps.byID[id]]] == 0
  }

  /** Tickets do not share channels, and channel numbers not yet issued were never closed. */
  ghost predicate OwnChannels(s: System) {
    && (forall id :: id in s.tickets && s.tickets[id].channel.Some? ==> s.tickets[id].channel.value < s.channels)
    && (forall i, j ::
          i in s.tickets && j in s.tickets && i != j && s.tickets[i].channel.Some? ==>
          s.tickets[i].channel != s.tickets[j].channel)
    && (forall ch :: s.channels <= ch ==> s.closes[ch] == 0)
    && (forall id :: id in s.tickets ==> IsID(id))
  }

  ghost predicate TicketSound(kind: Kind, closes: multiset<nat>, t: Ticket) {
    && (t.channel.None? ==> t.paid && t.phase == Over)
    && (t.channel.Some? && t.phase == Asleep ==> closes[t.channel.value] == 0)
    && (kind == Memory && t.phase == Tested ==> t.paid)
    && (kind == Memory && t.channel.Some? && 0 < closes[t.channel.value] ==> t.paid)
  }

  /** No channel is closed twice, and in memory a closed channel was paid for. */
  ghost predicate ClosedOnce(kind: Kind, s: System) {
    && (forall ch :: s.closes[ch] <= 1)
    && (forall id :: id in s.tickets ==> TicketSound(kind, s.closes, s.tickets[id]))
  }

  ghost predicate Inv(kind: Kind, s: System) {
    Corresponds(s.maps) && Linked(s) && OwnChannels(s) && ClosedOnce(kind, s)
  }

  lemma InitInv(kind: Kind, c: Bucket.Config, now: real)
    ensures Inv(kind, Init(c, now))
  {}

  lemma TouchKeeps(kind: Kind, c: Bucket.Config, s: System, e: Bucket.Event)
    requires Inv(kind, s)
    ensures Inv(kind, Touch(c, s, e).0)
  {
    hide Bucket.Step;
  }

  lemma IssueLinked(kind: Kind, s: System, id: string, t: Ticket)
    requires Inv(kind, s) && id !in s.tickets && IsID(id)
    ensures Corresponds(Issue(s, id, t, false).maps) && Linked(Issue(s, id, t, false))
  {
    hide WaiterKey, Corresponds, ClosedOnce;
    AddKeepsCorrespondence(s.maps, t.key, id, s.channels);
    var s' := Issue(s, id, t, false);
    forall i | i in s'.maps.byID && i != id
      ensures s'.maps.byID[i] == s.maps.byID[i] && s'.maps.byKey[s.maps.byID[i]] == s.maps.byKey[s.maps.byID[i]]
    {
      assert i in s.maps.byID;
    }
  }

  lemma IssueChannels(kind: Kind, s: System, id: string, t: Ticket, granted: bool)
    requires Inv(kind, s) && id !in s.tickets && IsID(id)
    requires t.phase == Asleep && !t.paid
    ensures OwnChannels(Issue(s, id, t, granted)) && ClosedOnce(kind, Issue(s, id, t, granted))
  {
    hide Add, Corresponds, Linked;
  }

  lemma IssueKeeps(kind: Kind, s: System, id: string, t: Ticket, granted: bool)
    requires Inv(kind, s) && id !in s.tickets && IsID(id)
    requires t.phase == Asleep && !t.paid
    ensures Inv(kind, Issue(s, id, t, granted))
  {
    hide OwnChannels, ClosedOnce, Corresponds, Linked, WaiterKey, Issue;
    IssueChannels(kind, s, id, t, granted);
    if granted {
      GrantedLinked(s, id, t);
    } else {
      IssueLinked(kind, s, id, t);
    }
  }

  lemma GrantedLinked(s: System, id: string, t: Ticket)
    requires Corresponds(s.maps) && Linked(s) && id !in s.tickets
    ensures Corresponds(Issue(s, id, t, true).maps) && Linked(Issue(s, id, t, true))
  {
    hide Corresponds, WaiterKey;
  }

  lemma WakeLinked(kind: Kind, s: System, id: string)
    requires Inv(kind, s) && id in s.maps.byID && s.tickets[id].phase == Tested
    ensures Linked(Wake(s, id))
  {
    hide WaiterKey, ClosedOnce;
    var k := s.maps.byID[id];
    var s' := Wake(s, id);
    forall i | i in s'.maps.byID ensures s.maps.byID[i] != k && s.maps.byKey[s.maps.byID[i]] != s.maps.byKey[k] {
      if s.maps.byID[i] == k {
        OwnWaiters(s.maps, i, id);
      }
    }
  }

  lemma WaiterLinked(s: System, id: string)
    requires Linked(s) && id in s.maps.byID
    ensures id in s.tickets
    ensures s.maps.byID[id] == WaiterKey(s.tickets[id].key, id) && s.maps.byID[id] in s.maps.byKey
    ensures var ch := s.maps.byKey[s.maps.byID[id]]; s.tickets[id].channel == Some(ch) && s.closes[ch] == 0
  {
    hide WaiterKey;
  }

  lemma WakeChannels(kind: Kind, s: System, id: string)
    requires Inv(kind, s) && id in s.maps.byID && s.tickets[id].phase == Tested
    ensures OwnChannels(Wake(s, id)) && ClosedOnce(kind, Wake(s, id))
  {
    hide WaiterKey, Corresponds, Linked;
    WaiterLinked(s, id);
    var t := s.tickets[id];
    var s' := Wake(s, id);
    assert s'.closes == s.closes + multiset{t.channel.value};
    assert OwnChannels(s');
    forall i | i in s'.tickets ensures TicketSound(kind, s'.closes, s'.tickets[i]) {
      assert TicketSound(kind, s.closes, s.tickets[i]);
    }
  }

  lemma WakeNobody(kind: Kind, s: System, id: string)
    requires Inv(kind, s) && id in s.tickets && s.tickets[id].phase == Tested
    requires WaiterKey(s.tickets[id].key, id) !in s.maps.byKey
    ensures Inv(kind, Wake(s, id))
  {
    hide WaiterKey, Corresponds, Add, Drop;
  }

  lemma WakeKeeps(kind: Kind, s: System, id: string)
    requires Inv(kind, s) && id in s.tickets && s.tickets[id].phase == Tested
    ensures Inv(kind, Wake(s, id))
  {
    assert IsID(id);
    hide Corresponds, Linked, OwnChannels, ClosedOnce, WaiterKey;
    if WaiterKey(s.tickets[id].key, id) in s.maps.byKey {
      WaiterBelongs(s, id);
      DropKeepsCorrespondence(s.maps, id);
      WakeLinked(kind, s, id);
      WakeChannels(kind, s, id);
    } else {
      WakeNobody(kind, s, id);
    }
  }

  /** A waiter key found in the map is the one its own ID leads to. */
  lemma WaiterBelongs(s: System, id: string)
    requires Corresponds(s.maps) && Linked(s) && IsID(id) && id in s.tickets
    requires WaiterKey(s.tickets[id].key, id) in s.maps.byKey
    ensures id in s.maps.byID && s.maps.byID[id] == WaiterKey(s.tickets[id].key, id)
  {
    var k := WaiterKey(s.tickets[id].key, id);
    var i :| i in s.maps.byID && s.maps.byID[i] == k;
    WaiterKeyEndsWithID(s.tickets[id].key, id);
    EndsWithOneID(k, id, i);
  }

  lemma CancelKeeps(kind: Kind, s: System, id: string, now: real)
    requires Inv(kind, s) && id in s.tickets
    ensures Inv(kind, CancelAt(s, id, now))
  {
    if id in s.maps.byID {
      DropKeepsCorrespondence(s.maps, id);
      forall i | i in s.maps.byID && s.maps.byID[i] == s.maps.byID[id] ensures i == id {
        OwnWaiters(s.maps, i, id);
      }
    }
  }

  /** A token test only moves the ticket's phase; it leaves maps and channels alone. */
  lemma SettledKeeps(kind: Kind, s: System, id: string, r: Reply)
    requires Inv(kind, s) && id in s.tickets && s.tickets[id].phase == Asleep
    ensures Inv(kind, s.(tickets := s.tickets[id := Settled(kind, s.tickets[id], r)]))
  {}

  lemma NextKeeps(kind: Kind, c: Bucket.Config, s: System, l: Label)
    requires Inv(kind, s)
    ensures Inv(kind, Next(kind, c, s, l))
  {
    hide Bucket.Step, Inv;
    match l
    case Allow(cost, now) =>
      TouchKeeps(kind, c, s, Bucket.Event(now, Bucket.Allow(cost)));
    case Reserve(id, key, cost, now, due, reply) =>
      if 0 < cost && id !in s.tickets && IsID(id) {
        var e := Bucket.Event(now, Bucket.Reserve(cost));
        TouchKeeps(kind, c, s, e);
        var (s', r) := Ask(kind, c, s, e, reply);
        IssueKeeps(kind, s', id, Ticket(key, cost, None, due, true, Asleep, false), r == Yes);
      }
    case Test(id, now, reply) =>
      if id in s.tickets && s.tickets[id].phase == Asleep {
        var e := TestOp(kind, s.tickets[id], now);
        TouchKeeps(kind, c, s, e);
        var (s', r) := Ask(kind, c, s, e, reply);
        SettledKeeps(kind, s', id, r);
      }
    case Notify(id) =>
      if id in s.tickets && s.tickets[id].phase == Tested {
        WakeKeeps(kind, s, id);
      }
    case Cancel(id, now) =>
      if id in s.tickets {
        CancelKeeps(kind, s, id, now);
      }
  }

  lemma {:induction false} RunKeeps(kind: Kind, c: Bucket.Config, s: System, ls: seq<Label>)
    requires Inv(kind, s)
    ensures Inv(kind, Run(kind, c, s, ls))
    decreases |ls|
  {
    hide Inv, Next;
    if ls != [] {
      NextKeeps(kind, c, s, ls[0]);
      RunKeeps(kind, c, Next(kind, c, s, ls[0]), ls[1..]);
    }
  }

  // ---------------------------------------------------------------- what every run guarantees

  /**
   In every interleaving: the two maps have corresponding domains, every channel still in the map
   is open, no channel is ever closed twice, and in memory a channel is closed only after that
   reservation's tokens were deducted.
   */
  lemma WaitersSafe(kind: Kind, c: Bucket.Config, start: real, ls: seq<Label>)
    ensures var s := Run(kind, c, Init(c, start), ls);
      && Corresponds(s.maps)
      && (forall k :: k in s.maps.byKey ==> s.closes[s.maps.byKey[k]] == 0)
      && (forall ch :: s.closes[ch] <= 1)
      && (kind == Memory ==>
            forall id :: id in s.tickets && s.tickets[id].channel.Some? ==>
              0 < s.closes[s.tickets[id].channel.value] ==> s.tickets[id].paid)
  {
    hide Run;
    InitInv(kind, c, start);
    RunKeeps(kind, c, Init(c, start), ls);
    var s := Run(kind, c, Init(c, start), ls);
    forall k | k in s.maps.byKey ensures s.closes[s.maps.byKey[k]] == 0 {
      var id :| id in s.maps.byID && s.maps.byID[id] == k;
    }
    forall id | id in s.tickets ensures TicketSound(kind, s.closes, s.tickets[id]) {}
  }

  /** The bucket the protocol leaves is the one its recorded token operations produce. */
  ghost predicate Accounted(c: Bucket.Config, start: Bucket.State, s: System) {
    s.bucket == Bucket.Run(c, start, s.events)
  }

  lemma TouchAccounted(c: Bucket.Config, start: Bucket.State, s: System, e: Bucket.Event)
    requires Accounted(c, start, s)
    ensures Accounted(c, start, Touch(c, s, e).0)
  {
    hide Bucket.Step;
    var es := s.events + [e];
    assert es[..|es| - 1] == s.events;
    Bucket.RunLast(c, start, es);
  }

  lemma NextAccounted(kind: Kind, c: Bucket.Config, start: Bucket.State, s: System, l: Label)
    requires Accounted(c, start, s)
    ensures Accounted(c, start, Next(kind, c, s, l))
  {
    hide Bucket.Step, Bucket.Run;
    match l
    case Allow(cost, now) => TouchAccounted(c, start, s, Bucket.Event(now, Bucket.Allow(cost)));
    case Reserve(id, key, cost, now, due, reply) =>
      TouchAccounted(c, start, s, Bucket.Event(now, Bucket.Reserve(cost)));
    case Test(id, now, reply) =>
      if id in s.tickets {
        TouchAccounted(c, start, s, TestOp(kind, s.tickets[id], now));
      }
    case Notify(id) =>
    case Cancel(id, now) =>
  }

  lemma {:induction false} RunAccounted(kind: Kind, c: Bucket.Config, start: Bucket.State, s: System, ls: seq<Label>)
    requires Accounted(c, start, s)
    ensures Accounted(c, start, Run(kind, c, s, ls))
    decreases |ls|
  {
    hide Next;
    if ls != [] {
      NextAccounted(kind, c, start, s, ls[0]);
      RunAccounted(kind, c, start, Next(kind, c, s, ls[0]), ls[1..]);
    }
  }

  /** The readings that reach the bucket never go back. The time given to CancelAt is the caller's own. */
  predicate ClockFrom(from: real, ls: seq<Label>)
    decreases |ls|
  {
    ls == [] ||
    match ls[0]
    case Notify(_) => ClockFrom(from, ls[1..])
    case Cancel(_, _) => ClockFrom(from, ls[1..])
    case Allow(_, now) => from <= now && ClockFrom(now, ls[1..])
    case Reserve(_, _, _, now, _, _) => from <= now && ClockFrom(now, ls[1..])
    case Test(_, now, _) => from <= now && ClockFrom(now, ls[1..])
  }

  /** All recorded token operations happened between `from` and `upTo`, in order. */
  ghost predicate Timely(from: real, upTo: real, es: seq<Bucket.Event>) {
    Bucket.Monotone(from, es) && from <= upTo && Bucket.LastReading(from, es) <= upTo
  }

  lemma {:induction false} RunTimely(c: Bucket.Config, from: real, upTo: real, s: System, ls: seq<Label>) returns (end: real)
    requires Timely(from, upTo, s.events) && ClockFrom(upTo, ls)
    ensures upTo <= end && Timely(from, end, Run(Memory, c, s, ls).events)
    decreases |ls|
  {
    hide Bucket.Step;
    end := upTo;
    if ls != [] {
      var s' := Next(Memory, c, s, ls[0]);
      if !ls[0].Notify? && !ls[0].Cancel? {
        var now := ls[0].now;
        if s'.events != s.events {
          assert s'.events == s.events + [s'.events[|s.events|]] && s'.events[|s.events|].now == now;
          Bucket.MonotoneAppend(from, s.events, s'.events[|s.events|]);
        }
        end := RunTimely(c, from, now, s', ls[1..]);
      } else {
        end := RunTimely(c, from, upTo, s', ls[1..]);
      }
    }
  }

  /**
   Whatever AllowN calls, reservations, goroutines and cancellations are interleaved, the tokens
   taken out of the in-memory bucket from any refilling call on are bounded by bucket size plus
   accrual, and the bucket never leaves [0, size].
   */
  lemma ProtocolDeductionBound(c: Bucket.Config, start: real, ls: seq<Label>, i: nat)
    requires c.Valid() && ClockFrom(start, ls)
    ensures var s := Run(Memory, c, Init(c, start), ls);
      && 0.0 <= s.bucket.tokens <= c.size as real
      && (i < |s.events| && Bucket.Refills(s.events[i]) ==>
            Bucket.TotalSpent(c, Bucket.Before(c, Bucket.Full(c, start), s.events, i), s.events[i..]) as real
            <= c.size as real + Accrued(s.events[i].now, s.events[|s.events| - 1].now, c.rate))
  {
    hide Run, Accrued, Bucket.Step;
    var b := Bucket.Full(c, start);
    var s := Run(Memory, c, Init(c, start), ls);
    RunAccounted(Memory, c, b, Init(c, start), ls);
    var end := RunTimely(c, start, start, Init(c, start), ls);
    Bucket.RunRange(c, b, s.events);
    if i < |s.events| && Bucket.Refills(s.events[i]) {
      var b' := Bucket.Before(c, b, s.events, i);
      Bucket.BeforeRange(c, b, s.events, i);
      Bucket.MonotoneSuffix(b.last, s.events, i);
      assert Bucket.Monotone(b'.last, s.events[i..]);
      Bucket.DeductionBound(c, b', s.events[i..], s.events[|s.events| - 1].now);
    }
  }

  // ---------------------------------------------------------------- what a failed goroutine leaves

  /**
   Canceling a reservation does not stop its goroutine: it is charged, canceled or not, exactly when
   the bucket holds its cost when the goroutine wakes.
   */
  lemma CanceledStillChargedIff(c: Bucket.Config, s: System, id: string, at: real, wake: real, reply: Reply)
    requires id in s.tickets && s.tickets[id].phase == Asleep && 0 < s.tickets[id].cost
    ensures var kept := Next(Memory, c, s, Test(id, wake, reply));
      var canceled := Next(Memory, c, Next(Memory, c, s, Cancel(id, at)), Test(id, wake, reply));
      var fits := s.tickets[id].cost as real <= s.bucket.tokens;
      && canceled.bucket == kept.bucket
      && canceled.bucket.tokens == s.bucket.tokens - (if fits then s.tickets[id].cost as real else 0.0)
      && id in canceled.tickets && id in kept.tickets
      && (canceled.tickets[id].paid <==> fits) && (kept.tickets[id].paid <==> fits)
  {
    hide Bucket.Refill;
  }

  /** Canceling at this reading of the caller's clock takes effect before the reservation is due. */
  predicate CancelsEarly(l: Label, id: string, due: real) {
    l.Cancel? && l.id == id && l.now < due
  }

  predicate CanceledEarly(ls: seq<Label>, id: string, due: real) {
    exists i :: 0 <= i < |ls| && CancelsEarly(ls[i], id, due)
  }

  /** A reservation that got a channel and was neither canceled nor paid for and notified. */
  predicate Waiting(t: Ticket) {
    t.channel.Some? && t.ok && !(t.phase == Over && t.paid)
  }

  ghost predicate Listed(s: System) {
    forall id :: id in s.tickets ==> (id in s.maps.byID <==> Waiting(s.tickets[id]))
  }

  lemma NextListed(c: Bucket.Config, s: System, l: Label)
    requires Inv(Memory, s) && Listed(s)
    ensures Listed(Next(Memory, c, s, l))
  {
    hide Bucket.Step, WaiterKey, Corresponds, OwnChannels;
    if l.Notify? && l.id in s.tickets && s.tickets[l.id].phase == Tested {
      assert TicketSound(Memory, s.closes, s.tickets[l.id]);
    }
  }

  lemma {:induction false} RunListed(c: Bucket.Config, s: System, ls: seq<Label>)
    requires Inv(Memory, s) && Listed(s)
    ensures Inv(Memory, Run(Memory, c, s, ls)) && Listed(Run(Memory, c, s, ls))
    decreases |ls|
  {
    hide Inv, Listed, Next;
    if ls != [] {
      NextKeeps(Memory, c, s, ls[0]);
      NextListed(c, s, ls[0]);
      RunListed(c, Next(Memory, c, s, ls[0]), ls[1..]);
    }
  }

  /** In every reachable state of the in-memory limiter the maps hold exactly the waiting reservations. */
  lemma ListedExactly(c: Bucket.Config, start: real, ls: seq<Label>, id: string)
    ensures var s := Run(Memory, c, Init(c, start), ls);
      id in s.maps.byID <==> id in s.tickets && Waiting(s.tickets[id])
  {
    hide Run;
    InitInv(Memory, c, start);
    RunListed(c, Init(c, start), ls);
    hide Waiting;
  }

  /** The channels that were closed, once each: those of reservations paid for, notified and not canceled. */
  ghost predicate Notified(s: System) {
    forall id :: id in s.tickets && s.tickets[id].channel.Some? ==>
      var t := s.tickets[id]; s.closes[t.channel.value] == if t.phase == Over && t.paid && t.ok then 1 else 0
  }

  lemma WakeNotifies(s: System, id: string)
    requires Inv(Memory, s) && Listed(s) && Notified(s) && id in s.tickets && s.tickets[id].phase == Tested
    ensures Notified(Wake(s, id))
  {
    hide Corresponds, WaiterKey;
    var t, s' := s.tickets[id], Wake(s, id);
    assert IsID(id) && TicketSound(Memory, s.closes, t) && t.paid;
    if WaiterKey(t.key, id) in s.maps.byKey {
      WaiterBelongs(s, id);
      WaiterLinked(s, id);
      assert s'.closes == s.closes + multiset{t.channel.value};
    }
    hide Inv, Linked, ClosedOnce;
  }

  lemma NextNotified(c: Bucket.Config, s: System, l: Label)
    requires Inv(Memory, s) && Listed(s) && Notified(s)
    ensures Notified(Next(Memory, c, s, l))
  {
    hide Bucket.Step, WaiterKey, Corresponds, Linked, ClosedOnce, Wake;
    if l.Notify? && l.id in s.tickets && s.tickets[l.id].phase == Tested {
      hide Notified, Listed;
      WakeNotifies(s, l.id);
    }
  }

  lemma {:induction false} RunNotified(c: Bucket.Config, s: System, ls: seq<Label>)
    requires Inv(Memory, s) && Listed(s) && Notified(s)
    ensures Notified(Run(Memory, c, s, ls))
    decreases |ls|
  {
    hide Inv, Listed, Notified, Next;
    if ls != [] {
      NextKeeps(Memory, c, s, ls[0]);
      NextListed(c, s, ls[0]);
      NextNotified(c, s, ls[0]);
      RunNotified(c, Next(Memory, c, s, ls[0]), ls[1..]);
    }
  }

  /**
   In every reachable in-memory state the channel of a reservation was closed exactly when it was paid
   for, its goroutine is over and nobody canceled it before, and then exactly once.
   */
  lemma ClosedExactly(c: Bucket.Config, start: real, ls: seq<Label>, id: string)
    requires id in Run(Memory, c, Init(c, start), ls).tickets
    ensures var s := Run(Memory, c, Init(c, start), ls); var t := s.tickets[id];
      t.channel.Some? ==> s.closes[t.channel.value] == if t.phase == Over && t.paid && t.ok then 1 else 0
  {
    hide Run;
    InitInv(Memory, c, start);
    RunNotified(c, Init(c, start), ls);
  }

  /** A step changes a finished reservation only by canceling it. */
  lemma OverStep(c: Bucket.Config, s: System, id: string, l: Label)
    requires Inv(Memory, s) && Listed(s) && id in s.tickets
    requires s.tickets[id].phase == Over && s.tickets[id].channel.Some? && !s.tickets[id].paid
    ensures var s' := Next(Memory, c, s, l); var t := s.tickets[id];
      id in s'.tickets && s'.tickets[id] == t.(ok := t.ok && !CancelsEarly(l, id, t.due))
  {
    hide Bucket.Step, WaiterKey, Inv;
    assert id in s.maps.byID <==> s.tickets[id].ok;
  }

  lemma {:induction false} OverRun(c: Bucket.Config, s: System, id: string, ls: seq<Label>)
    requires Inv(Memory, s) && Listed(s) && id in s.tickets
    requires s.tickets[id].phase == Over && s.tickets[id].channel.Some? && !s.tickets[id].paid
    ensures var s' := Run(Memory, c, s, ls); var t := s.tickets[id];
      id in s'.tickets && s'.tickets[id] == t.(ok := t.ok && !CanceledEarly(ls, id, t.due))
    decreases |ls|
  {
    hide Inv, Listed, Next, CancelsEarly;
    if ls != [] {
      var due := s.tickets[id].due;
      assert forall i :: 0 <= i < |ls| - 1 ==> ls[1..][i] == ls[i + 1];
      assert forall i :: 1 <= i < |ls| ==> ls[i] == ls[1..][i - 1];
      assert CanceledEarly(ls, id, due) <==> CancelsEarly(ls[0], id, due) || CanceledEarly(ls[1..], id, due);
      NextKeeps(Memory, c, s, ls[0]);
      NextListed(c, s, ls[0]);
      OverStep(c, s, id, ls[0]);
      OverRun(c, Next(Memory, c, s, ls[0]), id, ls[1..]);
    }
  }

  /**
   A listed reservation whose goroutine is over keeps its waiter exactly as long as nobody calls
   CancelAt with a time before the due time; the passing of time and all other calls leave it there.
   Either way its channel is never closed.
   */
  lemma FailedWaiterStaysIff(c: Bucket.Config, start: real, ls0: seq<Label>, id: string, ls: seq<Label>)
    requires var s := Run(Memory, c, Init(c, start), ls0); id in s.maps.byID && id in s.tickets && s.tickets[id].phase == Over
    ensures var s := Run(Memory, c, Init(c, start), ls0); var s' := Run(Memory, c, s, ls);
      && (id in s'.maps.byID <==>
            forall i :: 0 <= i < |ls| && ls[i].Cancel? && ls[i].id == id ==> s.tickets[id].due <= ls[i].now)
      && id in s'.tickets && s'.tickets[id].channel == s.tickets[id].channel
      && s.tickets[id].channel.Some? && s'.closes[s.tickets[id].channel.value] == 0
  {
    hide Run;
    InitInv(Memory, c, start);
    RunListed(c, Init(c, start), ls0);
    var s := Run(Memory, c, Init(c, start), ls0);
    RunListed(c, s, ls);
    assert Waiting(s.tickets[id]);
    OverRun(c, s, id, ls);
    var s' := Run(Memory, c, s, ls);
    assert TicketSound(Memory, s'.closes, s'.tickets[id]);
    var due := s.tickets[id].due;
    assert CanceledEarly(ls, id, due) <==> exists i :: 0 <= i < |ls| && ls[i].Cancel? && ls[i].id == id && ls[i].now < due by {
      assert forall i :: 0 <= i < |ls| ==> (CancelsEarly(ls[i], id, due) <==> ls[i].Cancel? && ls[i].id == id && ls[i].now < due);
    }
  }

  /** With any cost above the bucket size two steps leave such a waiter behind. */
  lemma FailedWaiterReached(c: Bucket.Config, start: real, id: string, key: string, cost: int, now: real, due: real, wake: real)
    requires c.Valid() && IsID(id) && c.size < cost
    ensures var s := Run(Memory, c, Init(c, start), [Reserve(id, key, cost, now, due, No), Test(id, wake, No)]);
      id in s.maps.byID && id in s.tickets && s.tickets[id].phase == Over
  {
    hide WaiterKey, Accrued;
    var l1, l2 := Reserve(id, key, cost, now, due, No), Test(id, wake, No);
    var s1 := Next(Memory, c, Init(c, start), l1);
    assert s1.tickets[id] == Ticket(key, cost, Some(0), due, true, Asleep, false) && s1.bucket.tokens <= c.size as real;
    assert Next(Memory, c, s1, l2).tickets[id].phase == Over;
    RunTwo(c, Init(c, start), l1, l2);
  }

  lemma RunTwo(c: Bucket.Config, s: System, l1: Label, l2: Label)
    ensures Run(Memory, c, s, [l1, l2]) == Next(Memory, c, Next(Memory, c, s, l1), l2)
  {
    hide Next;
    assert [l1, l2][1..] == [l2] && [l2][1..] == [];
    assert Run(Memory, c, s, [l1, l2]) == Run(Memory, c, Next(Memory, c, s, l1), [l2]);
  }

  /** One token in the bucket, one a second: a reservation canceled before its due time is charged at it. */
  lemma CanceledChargedReached()
    ensures var c := Bucket.Config(1, 1.0);
      var ls := [Allow(1, 0.0), Reserve("r", "k", 1, 0.0, 1.0, No), Cancel("r", 0.0), Allow(2, 1.0), Test("r", 1.0, No)];
      var s := Run(Memory, c, Init(c, 0.0), ls);
      && "r" in s.tickets && !s.tickets["r"].ok && s.tickets["r"].paid
      && "r" !in s.maps.byID && s.bucket.tokens == 0.0 && ClockFrom(0.0, ls)
  {
    hide Next, Run, ClockFrom, Init;
    var c := Bucket.Config(1, 1.0);
    CanceledCharged(c, "r", "k");
    RunFive(c, Init(c, 0.0), Allow(1, 0.0), Reserve("r", "k", 1, 0.0, 1.0, No), Cancel("r", 0.0), Allow(2, 1.0), Test("r", 1.0, No));
    ClockOfFive("r", "k");
  }

  lemma CanceledCharged(c: Bucket.Config, id: string, key: string)
    requires c == Bucket.Config(1, 1.0) && IsID(id)
    ensures var s1 := Next(Memory, c, Init(c, 0.0), Allow(1, 0.0));
      var s2 := Next(Memory, c, s1, Reserve(id, key, 1, 0.0, 1.0, No));
      var s3 := Next(Memory, c, s2, Cancel(id, 0.0));
      var s := Next(Memory, c, Next(Memory, c, s3, Allow(2, 1.0)), Test(id, 1.0, No));
      id in s.tickets && !s.tickets[id].ok && s.tickets[id].paid && id !in s.maps.byID && s.bucket.tokens == 0.0
  {
    hide WaiterKey, Bucket.Step;
    OneToken(c);
    var s1 := Next(Memory, c, Init(c, 0.0), Allow(1, 0.0));
    assert s1 == Init(c, 0.0).(bucket := Bucket.State(0.0, 0.0), events := s1.events);
    var s2 := Next(Memory, c, s1, Reserve(id, key, 1, 0.0, 1.0, No));
    assert s2.bucket == Bucket.State(0.0, 0.0) && s2.tickets == map[id := Ticket(key, 1, Some(0), 1.0, true, Asleep, false)];
    var s3 := Next(Memory, c, s2, Cancel(id, 0.0));
    assert s3.tickets[id] == Ticket(key, 1, Some(0), 1.0, false, Asleep, false) && id !in s3.maps.byID;
  }

  /** What the bucket does in that run. */
  lemma OneToken(c: Bucket.Config)
    requires c == Bucket.Config(1, 1.0)
    ensures Bucket.Step(c, Bucket.State(1.0, 0.0), Bucket.Event(0.0, Bucket.Allow(1))) == (Bucket.State(0.0, 0.0), Bucket.Granted)
    ensures Bucket.Step(c, Bucket.State(0.0, 0.0), Bucket.Event(0.0, Bucket.Reserve(1))) == (Bucket.State(0.0, 0.0), Bucket.Wait(1.0))
    ensures Bucket.Step(c, Bucket.State(0.0, 0.0), Bucket.Event(1.0, Bucket.Allow(2))) == (Bucket.State(1.0, 1.0), Bucket.Refused)
    ensures Bucket.Step(c, Bucket.State(1.0, 1.0), Bucket.Event(1.0, Bucket.Settle(1))) == (Bucket.State(0.0, 1.0), Bucket.Granted)
  {
    hide Accrued, Truncate;
    AccruedNothing(0.0, 1.0);
    OneSecond();
  }

  lemma OneSecond()
    ensures Accrued(0.0, 1.0, 1.0) == 1.0
  {}

  lemma ClockOfFive(id: string, key: string)
    ensures ClockFrom(0.0, [Allow(1, 0.0), Reserve(id, key, 1, 0.0, 1.0, No), Cancel(id, 0.0), Allow(2, 1.0), Test(id, 1.0, No)])
  {
    var l1, l2, l3, l4, l5 :=
      Allow(1, 0.0), Reserve(id, key, 1, 0.0, 1.0, No), Cancel(id, 0.0), Allow(2, 1.0), Test(id, 1.0, No);
    assert [l1, l2, l3, l4, l5][1..] == [l2, l3, l4, l5] && [l2, l3, l4, l5][1..] == [l3, l4, l5];
    assert [l3, l4, l5][1..] == [l4, l5] && [l4, l5][1..] == [l5] && [l5][1..] == [];
    assert ClockFrom(1.0, [l5]) && ClockFrom(0.0, [l4, l5]) && ClockFrom(0.0, [l3, l4, l5]);
  }

  lemma RunFive(c: Bucket.Config, s: System, l1: Label, l2: Label, l3: Label, l4: Label, l5: Label)
    ensures Run(Memory, c, s, [l1, l2, l3, l4, l5])
         == Next(Memory, c, Next(Memory, c, Next(Memory, c, Next(Memory, c, Next(Memory, c, s, l1), l2), l3), l4), l5)
  {
    hide Next;
    assert [l1, l2, l3, l4, l5][1..] == [l2, l3, l4, l5] && [l2, l3, l4, l5][1..] == [l3, l4, l5];
    assert [l3, l4, l5][1..] == [l4, l5];
    var s2 := Next(Memory, c, Next(Memory, c, s, l1), l2);
    assert Run(Memory, c, s, [l1, l2, l3, l4, l5]) == Run(Memory, c, s2, [l3, l4, l5]);
    RunTwo(c, Next(Memory, c, s2, l3), l4, l5);
  }
}
