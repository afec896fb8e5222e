/**
 The token arithmetic that the in-memory limiter and the Lua scripts share, and what it
 guarantees over whole runs. Clock readings are chosen by the environment, tokens are reals.
 */
module Bucket {
  import opened Common

  datatype Config = Config(size: int, rate: real) {
    predicate Valid() {
      0 <= size && 0.0 < rate
    }
  }

  /** The defaults both constructors apply to a missing rate or bucket size: one token a second, and a minute's worth. */
  function Configure(rate: real, size: int): (c: Config)
    ensures c.Valid()
    ensures c.rate == if 0.0 < rate then rate else 1.0
    ensures 0 < size ==> c.size == size
    ensures size <= 0 ==> c.size as real <= c.rate * 60.0 < c.size as real + 1.0
  {
    var r := if rate <= 0.0 then 1.0 else rate;
    Config(if size <= 0 then Truncate(r * 60.0) else size, r)
  }

  /** A bucket holds `tokens` as of its last refill. */
  datatype State = State(tokens: real, last: real)

  /** Settle is the test a reservation's goroutine makes after its sleep: it does not refill. */
  datatype Op =
    | Allow(cost: int)
    | Reserve(cost: int)
    | Available
    | Settle(cost: int)

  datatype Event = Event(now: real, op: Op)

  datatype Answer =
    | Invalid
    | Granted
    | Refused
    | Wait(needed: real)
    | Tokens(count: int)

  function Full(c: Config, now: real): State {
    State(c.size as real, now)
  }

  function Refill(c: Config, b: State, now: real): State {
    State(Min(c.size as real, b.tokens + Accrued(b.last, now, c.rate)), now)
  }

  /** Deducts the cost when the bucket holds it and answers `refusal` otherwise. */
  function Take(b: State, cost: int, refusal: Answer): (State, Answer) {
    if cost as real <= b.tokens then (b.(tokens := b.tokens - cost as real), Granted) else (b, refusal)
  }

  function Step(c: Config, b: State, e: Event): (State, Answer) {
    match e.op
    case Available =>
      var b' := Refill(c, b, e.now);
      (b', Tokens(Truncate(b'.tokens)))
    case Allow(cost) =>
      if cost <= 0 then (b, Invalid) else Take(Refill(c, b, e.now), cost, Refused)
    case Reserve(cost) =>
      if cost <= 0 then (b, Invalid) else
      var b' := Refill(c, b, e.now);
      Take(b', cost, Wait(cost as real - b'.tokens))
    case Settle(cost) =>
      if cost <= 0 then (b, Invalid) else Take(b, cost, Refused)
  }

  /** True of the operations that read the clock and refill. */
  predicate Refills(e: Event) {
    match e.op
    case Available => true
    case Settle(_) => false
    case Allow(cost) => 0 < cost
    case Reserve(cost) => 0 < cost
  }

  function Cost(op: Op): int {
    if op.Available? then 0 else op.cost
  }

  /** The tokens one operation takes out of the bucket. */
  function Spent(c: Config, b: State, e: Event): int {
    if Step(c, b, e).1 == Granted then Cost(e.op) else 0
  }

  function Run(c: Config, b: State, es: seq<Event>): State
    decreases |es|
  {
    if es == [] then b else Run(c, Step(c, b, es[0]).0, es[1..])
  }

  function TotalSpent(c: Config, b: State, es: seq<Event>): int
    decreases |es|
  {
    if es == [] then 0 else Spent(c, b, es[0]) + TotalSpent(c, Step(c, b, es[0]).0, es[1..])
  }

  function Answers(c: Config, b: State, es: seq<Event>): (r: seq<Answer>)
    ensures |r| == |es|
    decreases |es|
  {
    if es == [] then [] else [Step(c, b, es[0]).1] + Answers(c, Step(c, b, es[0]).0, es[1..])
  }

  /** The readings of the clock never go back, starting from `from`. */
  predicate Monotone(from: real, es: seq<Event>)
    decreases |es|
  {
    es == [] || (from <= es[0].now && Monotone(es[0].now, es[1..]))
  }

  // ---------------------------------------------------------------- conservation

  /** One step never creates more than the tokens that time accrued, whatever the clock did. */
  lemma StepPotential(c: Config, b: State, e: Event)
    ensures var b' := Step(c, b, e).0;
      && b'.tokens + Spent(c, b, e) as real <= b.tokens + Accrued(b.last, b'.last, c.rate)
      && (Refills(e) ==> b'.last == e.now && b'.tokens + Spent(c, b, e) as real <= c.size as real)
      && (!Refills(e) ==> b'.last == b.last)
      && 0 <= Spent(c, b, e)
  {
    hide Accrued;
    AccruedNothing(b.last, c.rate);
  }

  /** Joins the bounds of a first step and of the rest of a run. */
  lemma Chain(b: State, b1: State, b2: State, spent: int, more: int, rate: real)
    requires b1.tokens + spent as real <= b.tokens + Accrued(b.last, b1.last, rate)
    requires b2.tokens + more as real <= b1.tokens + Accrued(b1.last, b2.last, rate)
    ensures b2.tokens + (spent + more) as real <= b.tokens + Accrued(b.last, b2.last, rate)
  {
    hide Accrued;
    AccruedAdds(b.last, b1.last, b2.last, rate);
  }

  /** Tokens in the bucket plus tokens spent are bounded by tokens at the start plus accrual. */
  lemma {:induction false} RunPotential(c: Config, b: State, es: seq<Event>)
    ensures var b' := Run(c, b, es);
      b'.tokens + TotalSpent(c, b, es) as real <= b.tokens + Accrued(b.last, b'.last, c.rate)
    decreases |es|
  {
    hide Step, Accrued;
    if es == [] {
      AccruedNothing(b.last, c.rate);
    } else {
      var b1 := Step(c, b, es[0]).0;
      StepPotential(c, b, es[0]);
      RunPotential(c, b1, es[1..]);
      Chain(b, b1, Run(c, b1, es[1..]), Spent(c, b, es[0]), TotalSpent(c, b1, es[1..]), c.rate);
    }
  }

  lemma {:induction false} RunAppend(c: Config, b: State, es: seq<Event>, fs: seq<Event>)
    ensures Run(c, b, es + fs) == Run(c, Run(c, b, es), fs)
    ensures TotalSpent(c, b, es + fs) == TotalSpent(c, b, es) + TotalSpent(c, Run(c, b, es), fs)
    decreases |es|
  {
    hide Step, Accrued;
    if es == [] {
      assert es + fs == fs;
    } else {
      assert (es + fs)[0] == es[0] && (es + fs)[1..] == es[1..] + fs;
      RunAppend(c, Step(c, b, es[0]).0, es[1..], fs);
    }
  }

  lemma RunLast(c: Config, b: State, es: seq<Event>)
    requires 0 < |es|
    ensures var n := |es| - 1; Run(c, b, es) == Step(c, Run(c, b, es[..n]), es[n]).0
  {
    hide Step, Accrued;
    var n := |es| - 1;
    var mid := Run(c, b, es[..n]);
    assert es == es[..n] + [es[n]];
    RunAppend(c, b, es[..n], [es[n]]);
    assert [es[n]][1..] == [];
    assert Run(c, mid, [es[n]]) == Run(c, Step(c, mid, es[n]).0, []);
  }

  lemma GrantLeavesNoDebt(c: Config, b: State, e: Event)
    requires Step(c, b, e).1 == Granted
    ensures 0.0 <= Step(c, b, e).0.tokens
  {}

  /** Anchored at a refilling operation, what is left plus what was spent obeys the rate. */
  lemma AnchoredPotential(c: Config, b: State, es: seq<Event>)
    requires 0 < |es| && Refills(es[0])
    ensures var b' := Run(c, b, es);
      b'.tokens + TotalSpent(c, b, es) as real <= c.size as real + Accrued(es[0].now, b'.last, c.rate)
  {
    hide Step, Accrued;
    StepPotential(c, b, es[0]);
    var b1 := Step(c, b, es[0]).0;
    RunPotential(c, b1, es[1..]);
    AccruedAdds(es[0].now, b1.last, Run(c, b, es).last, c.rate);
  }

  /**
   The capacity bound under arbitrary clocks: in a run whose first operation refills and whose
   last one is granted, the tokens deducted are within bucket size plus rate times the
   difference of the two clock readings, even when readings in between went backwards.
   */
  lemma GrantEndingBound(c: Config, b: State, es: seq<Event>)
    requires 0 < |es| && Refills(es[0])
    requires var n := |es| - 1; Step(c, Run(c, b, es[..n]), es[n]).1 == Granted && Refills(es[n])
    ensures TotalSpent(c, b, es) as real <= c.size as real + Accrued(es[0].now, es[|es| - 1].now, c.rate)
  {
    hide Step, Accrued;
    var n := |es| - 1;
    RunLast(c, b, es);
    StepPotential(c, Run(c, b, es[..n]), es[n]);
    GrantLeavesNoDebt(c, Run(c, b, es[..n]), es[n]);
    AnchoredPotential(c, b, es);
  }

  // ---------------------------------------------------------------- range

  lemma RefillRange(c: Config, b: State, now: real)
    requires c.Valid() && 0.0 <= b.tokens <= c.size as real && b.last <= now
    ensures b.tokens <= Refill(c, b, now).tokens <= c.size as real
  {
    hide Accrued;
    AccruedNonNegative(b.last, now, c.rate);
  }

  lemma StepRange(c: Config, b: State, e: Event)
    requires c.Valid() && 0.0 <= b.tokens <= c.size as real
    requires b.last <= e.now
    ensures var b' := Step(c, b, e).0; 0.0 <= b'.tokens <= c.size as real && b.last <= b'.last <= e.now
  {
    hide Accrued;
    RefillRange(c, b, e.now);
  }

  /** With a clock that does not go back the bucket stays between empty and full. */
  lemma {:induction false} RunRange(c: Config, b: State, es: seq<Event>)
    requires c.Valid() && 0.0 <= b.tokens <= c.size as real
    requires Monotone(b.last, es)
    ensures var b' := Run(c, b, es);
      && 0.0 <= b'.tokens <= c.size as real
      && b'.last <= if es == [] then b.last else es[|es| - 1].now
    decreases |es|
  {
    hide Step, Accrued;
    if es != [] {
      StepRange(c, b, es[0]);
      var b1 := Step(c, b, es[0]).0;
      MonotoneWeaken(b1.last, es[0].now, es[1..]);
      RunRange(c, b1, es[1..]);
    }
  }

  lemma MonotoneWeaken(from: real, later: real, es: seq<Event>)
    requires from <= later && Monotone(later, es)
    ensures Monotone(from, es)
  {}

  /**
   With a clock that does not go back, everything deducted from a refilling call at time s up to
   time t (grants, immediate reservations and reservation goroutines together) is within
   bucketSize + tokensPerSecond * (t - s).
   */
  lemma DeductionBound(c: Config, b: State, es: seq<Event>, t: real)
    requires c.Valid() && 0.0 <= b.tokens <= c.size as real
    requires 0 < |es| && Refills(es[0])
    requires Monotone(b.last, es) && es[|es| - 1].now <= t
    ensures TotalSpent(c, b, es) as real <= c.size as real + Accrued(es[0].now, t, c.rate)
  {
    hide Step, Accrued;
    AnchoredPotential(c, b, es);
    RunRange(c, b, es);
    AccruedAdds(es[0].now, Run(c, b, es).last, t, c.rate);
    AccruedNonNegative(Run(c, b, es).last, t, c.rate);
  }

  // ---------------------------------------------------------------- time windows

  /** What the operations with a reading inside [s, t] deducted. */
  function WindowSpent(c: Config, b: State, es: seq<Event>, s: real, t: real): int
    decreases |es|
  {
    if es == [] then 0 else
    (if s <= es[0].now <= t then Spent(c, b, es[0]) else 0)
    + WindowSpent(c, Step(c, b, es[0]).0, es[1..], s, t)
  }

  predicate NoSettle(es: seq<Event>) {
    forall i :: 0 <= i < |es| ==> !es[i].op.Settle?
  }

  lemma {:induction false} SpentInsideWindow(c: Config, b: State, es: seq<Event>, s: real, t: real)
    requires c.Valid() && 0.0 <= b.tokens <= c.size as real
    requires Monotone(b.last, es) && b.last <= t
    ensures WindowSpent(c, b, es, s, t) as real <= b.tokens + Accrued(b.last, t, c.rate)
    decreases |es|
  {
    hide Step, Accrued;
    AccruedNonNegative(b.last, t, c.rate);
    if es != [] {
      var b1 := Step(c, b, es[0]).0;
      StepRange(c, b, es[0]);
      StepPotential(c, b, es[0]);
      MonotoneWeaken(b1.last, es[0].now, es[1..]);
      if es[0].now <= t {
        SpentInsideWindow(c, b1, es[1..], s, t);
        AccruedAdds(b.last, b1.last, t, c.rate);
      } else {
        NothingAfterWindow(c, b1, es[1..], es[0].now, s, t);
        assert WindowSpent(c, b, es, s, t) == 0;
      }
    }
  }

  lemma {:induction false} NothingAfterWindow(c: Config, b: State, es: seq<Event>, from: real, s: real, t: real)
    requires Monotone(from, es) && t < from
    ensures WindowSpent(c, b, es, s, t) == 0
    decreases |es|
  {
    hide Step, Accrued;
    if es != [] {
      NothingAfterWindow(c, Step(c, b, es[0]).0, es[1..], es[0].now, s, t);
    }
  }

  /**
   For every window [s, t], not only one that starts at an operation: the tokens deducted by
   operations that read the clock inside it are within bucketSize + tokensPerSecond * (t - s).
   */
  lemma {:induction false} WindowBound(c: Config, b: State, es: seq<Event>, s: real, t: real)
    requires c.Valid() && 0.0 <= b.tokens <= c.size as real
    requires Monotone(b.last, es) && NoSettle(es) && s <= t
    ensures WindowSpent(c, b, es, s, t) as real <= c.size as real + Accrued(s, t, c.rate)
    decreases |es|
  {
    hide Step, Accrued;
    AccruedNonNegative(s, t, c.rate);
    if es != [] {
      var e, rest := es[0], es[1..];
      var b1 := Step(c, b, e).0;
      StepRange(c, b, e);
      StepPotential(c, b, e);
      MonotoneWeaken(b1.last, e.now, rest);
      if e.now < s || !Refills(e) {
        WindowBound(c, b1, rest, s, t);
      } else if e.now <= t {
        SpentInsideWindow(c, b1, rest, s, t);
        AccruedAdds(s, e.now, t, c.rate);
        AccruedNonNegative(s, e.now, c.rate);
      } else {
        NothingAfterWindow(c, b1, rest, e.now, s, t);
      }
    }
  }

  // ---------------------------------------------------------------- lazy refill

  /** Refilling at t1 and again at t2 leaves the same bucket as refilling once at t2. */
  lemma RefillTwice(c: Config, b: State, t1: real, t2: real)
    requires c.Valid() && t1 <= t2
    ensures Refill(c, Refill(c, b, t1), t2) == Refill(c, b, t2)
  {
    hide Accrued;
    AccruedNonNegative(t1, t2, c.rate);
    AccruedAdds(b.last, t1, t2, c.rate);
  }

  // ---------------------------------------------------------------- refusals and retries

  /** Refilling adds what has accrued, and stops at the bucket size. */
  lemma RefillIs(c: Config, b: State, now: real)
    ensures var b' := Refill(c, b, now); var sum := b.tokens + (now - b.last) * c.rate;
      b'.last == now && b'.tokens == if sum <= c.size as real then sum else c.size as real
  {
    assert Accrued(b.last, now, c.rate) == (now - b.last) * c.rate;
    hide Accrued;
  }

  /** The tokens an operation spends are exactly those missing from the bucket that it refilled, or only tested. */
  lemma SpentIsTaken(c: Config, b: State, e: Event)
    ensures var b' := Step(c, b, e).0; var before := if Refills(e) then Refill(c, b, e.now) else b;
      && b'.tokens + Spent(c, b, e) as real == before.tokens && b'.last == before.last
      && (!e.op.Available? ==> (Spent(c, b, e) == e.op.cost && Step(c, b, e).1 == Granted) || Spent(c, b, e) == 0)
    ensures TotalSpent(c, b, [e]) == Spent(c, b, e)
  {
    hide Refill;
    assert [e][1..] == [];
  }

  // ---------------------------------------------------------------- several calls at one instant

  /** Allow and Reserve calls that all read the same time. */
  predicate AtOnce(now: real, es: seq<Event>) {
    forall i :: 0 <= i < |es| ==> es[i].now == now && ((es[i].op.Allow? || es[i].op.Reserve?) && 0 < es[i].op.cost)
  }

  function TotalCost(es: seq<Event>): int
    decreases |es|
  {
    if es == [] then 0 else Cost(es[0].op) + TotalCost(es[1..])
  }

  lemma {:induction false} CostsNonNegative(now: real, es: seq<Event>)
    requires AtOnce(now, es)
    ensures 0 <= TotalCost(es)
    decreases |es|
  {
    if es != [] {
      assert es[0].now == now;
      assert forall i :: 0 <= i < |es| - 1 ==> es[1..][i] == es[i + 1];
      CostsNonNegative(now, es[1..]);
    }
  }

  lemma RefilledAlready(c: Config, b: State, cost: int)
    requires 0 < cost && b.tokens <= c.size as real
    ensures Refill(c, b, b.last) == b
    ensures Refill(c, b.(tokens := b.tokens - cost as real), b.last) == b.(tokens := b.tokens - cost as real)
  {
    hide Accrued;
    AccruedNothing(b.last, c.rate);
  }

  /**
   Calls at one instant on a refilled bucket are all granted when it holds their total cost, whether
   they are Allow or Reserve, and leave exactly the rest.
   */
  lemma {:induction false} BatchGranted(c: Config, b: State, es: seq<Event>)
    requires b.tokens <= c.size as real && TotalCost(es) as real <= b.tokens
    requires forall i :: 0 <= i < |es| ==>
      es[i].now == b.last && (es[i].op.Allow? || es[i].op.Reserve?) && 0 < es[i].op.cost
    ensures forall i :: 0 <= i < |es| ==> Answers(c, b, es)[i] == Granted
    ensures Run(c, b, es) == b.(tokens := b.tokens - TotalCost(es) as real)
    decreases |es|
  {
    hide Refill;
    if es != [] {
      var e := es[0];
      assert e.now == b.last && 0 < e.op.cost;
      assert forall i :: 0 <= i < |es| - 1 ==> es[1..][i] == es[i + 1];
      CostsNonNegative(b.last, es[1..]);
      RefilledAlready(c, b, e.op.cost);
      var b' := Step(c, b, e).0;
      assert b' == b.(tokens := b.tokens - e.op.cost as real) && Step(c, b, e).1 == Granted;
      BatchGranted(c, b', es[1..]);
    }
  }

  /** What GetTokensAvailable reports is the largest cost that Allow would grant at that moment. */
  lemma AvailableTells(c: Config, b: State, now: real, cost: int)
    requires 0 < cost
    ensures var answer := Step(c, b, Event(now, Available)).1;
      answer.Tokens? && (Step(c, b, Event(now, Allow(cost))).1 == Granted <==> cost <= answer.count)
    ensures Step(c, b, Event(now, Available)).0 == Refill(c, b, now)
  {}

  /** A request that costs more than the bucket holds is refused at every instant of every run. */
  lemma NeverGrantedAboveSize(c: Config, b: State, now: real, cost: int)
    requires 0 <= c.size < cost
    ensures Step(c, b, Event(now, Allow(cost))).1 == Refused
  {}

  /** Asked of a full bucket, or of any bucket long enough after its last use, the request is granted
      exactly when its cost is positive and within the bucket size. */
  lemma EventuallyGrantedIff(c: Config, b: State, cost: int, now: real)
    requires c.Valid() && 0.0 <= b.tokens
    requires c.size as real <= Accrued(b.last, now, c.rate)
    ensures Step(c, b, Event(now, Allow(cost))).1 == Granted <==> 0 < cost <= c.size
  {
    assert Refill(c, b, now).tokens == c.size as real;
  }

  predicate OnlySettles(es: seq<Event>) {
    forall i :: 0 <= i < |es| ==> es[i].op.Settle?
  }

  lemma {:induction false} SettlesOnlyDrain(c: Config, b: State, es: seq<Event>)
    requires OnlySettles(es)
    ensures Run(c, b, es).tokens <= b.tokens
    decreases |es|
  {
    if es != [] {
      assert es[0].op.Settle?;
      SettlesOnlyDrain(c, Step(c, b, es[0]).0, es[1..]);
    }
  }

  /**
   A refused reservation is never fulfilled by goroutines alone: however long its own goroutine
   sleeps, it finds the tokens that were too few, unless a refilling call came in between.
   */
  lemma LoneReservationNeverSettles(c: Config, b: State, cost: int, now: real, es: seq<Event>, wake: real)
    requires Step(c, b, Event(now, Reserve(cost))).1.Wait? && OnlySettles(es)
    ensures Step(c, Run(c, Step(c, b, Event(now, Reserve(cost))).0, es), Event(wake, Settle(cost))).1 == Refused
  {
    SettlesOnlyDrain(c, Step(c, b, Event(now, Reserve(cost))).0, es);
  }

  /** When no size is configured the default is empty, and grants nothing, exactly at rates under 1/60. */
  lemma DefaultSizeUnusableIff(rate: real, b: State, now: real)
    ensures var c := Configure(rate, 0);
      c.size == 0 <==> 0.0 < rate && rate * 60.0 < 1.0
    ensures var c := Configure(rate, 0);
      c.size == 0 ==> forall cost :: Step(c, b, Event(now, Allow(cost))).1 != Granted
  {}

  /** The bucket just before the operation with index i of a run. */
  function Before(c: Config, b: State, es: seq<Event>, i: nat): State
    requires i <= |es|
  {
    Run(c, b, es[..i])
  }

  function AnswerAt(c: Config, b: State, es: seq<Event>, i: nat): Answer
    requires i < |es|
  {
    Step(c, Before(c, b, es, i), es[i]).1
  }

  lemma BeforeNext(c: Config, b: State, es: seq<Event>, i: nat)
    requires i < |es|
    ensures Before(c, b, es, i + 1) == Step(c, Before(c, b, es, i), es[i]).0
  {
    hide Step, Accrued;
    assert es[..i + 1][..i] == es[..i];
    RunLast(c, b, es[..i + 1]);
  }

  lemma {:induction false} MonotoneAt(from: real, es: seq<Event>, i: nat, j: nat)
    requires Monotone(from, es) && i <= j < |es|
    ensures from <= es[i].now <= es[j].now
    decreases |es|
  {
    if i == 0 {
      if 0 < j {
        MonotoneAt(es[0].now, es[1..], 0, j - 1);
        assert es[1..][j - 1] == es[j];
      }
    } else {
      MonotoneAt(es[0].now, es[1..], i - 1, j - 1);
    }
  }

  lemma {:induction false} MonotonePrefix(from: real, es: seq<Event>, i: nat)
    requires Monotone(from, es) && i <= |es|
    ensures Monotone(from, es[..i])
    decreases |es|
  {
    if 0 < i {
      MonotonePrefix(es[0].now, es[1..], i - 1);
      assert es[..i][1..] == es[1..][..i - 1];
    }
  }

  lemma {:induction false} MonotoneSuffix(from: real, es: seq<Event>, i: nat)
    requires Monotone(from, es) && i < |es|
    ensures Monotone(es[i].now, es[i..])
    decreases |es|
  {
    if 0 < i {
      MonotoneSuffix(es[0].now, es[1..], i - 1);
      assert es[i..] == es[1..][i - 1..];
    }
  }

  /** The last reading of a run of operations. */
  function LastReading(from: real, es: seq<Event>): real {
    if es == [] then from else es[|es| - 1].now
  }

  lemma {:induction false} MonotoneAppend(from: real, es: seq<Event>, e: Event)
    requires Monotone(from, es) && LastReading(from, es) <= e.now
    ensures Monotone(from, es + [e])
    decreases |es|
  {
    if es == [] {
      assert es + [e] == [e];
    } else {
      assert (es + [e])[1..] == es[1..] + [e];
      MonotoneAppend(es[0].now, es[1..], e);
    }
  }

  lemma BeforeRange(c: Config, b: State, es: seq<Event>, i: nat)
    requires c.Valid() && 0.0 <= b.tokens <= c.size as real
    requires Monotone(b.last, es) && i < |es|
    ensures var s := Before(c, b, es, i); 0.0 <= s.tokens <= c.size as real && s.last <= es[i].now
  {
    MonotonePrefix(b.last, es, i);
    RunRange(c, b, es[..i]);
    MonotoneAt(b.last, es, i, i);
    if 0 < i {
      MonotoneAt(b.last, es, i - 1, i);
    }
  }

  /** A stretch [i, j) of a run in which nothing is granted leaves at least what accrued since i. */
  lemma {:induction false} GrantlessAccrual(c: Config, b: State, es: seq<Event>, i: nat, j: nat)
    requires c.Valid() && 0.0 <= b.tokens <= c.size as real && Monotone(b.last, es)
    requires i < j <= |es| && Refills(es[i])
    requires forall k :: i <= k < j ==> AnswerAt(c, b, es, k) != Granted
    ensures var s := Before(c, b, es, j);
      && es[i].now <= s.last
      && Min(c.size as real, Accrued(es[i].now, s.last, c.rate)) <= s.tokens
    decreases j
  {
    hide Accrued;
    var k := j - 1;
    var s := Before(c, b, es, k);
    BeforeRange(c, b, es, k);
    BeforeNext(c, b, es, k);
    RefillRange(c, s, es[k].now);
    if i < k {
      GrantlessAccrual(c, b, es, i, k);
      AccruedAdds(es[i].now, s.last, es[k].now, c.rate);
      AccruedNonNegative(s.last, es[k].now, c.rate);
    } else {
      AccruedNothing(es[i].now, c.rate);
    }
    assert AnswerAt(c, b, es, k) != Granted;
  }

  /** The operations with these indices all ask for the same cost, at least `delay` apart. */
  predicate Retries(es: seq<Event>, picks: seq<nat>, cost: int, delay: real) {
    && (forall i :: 0 <= i < |picks| ==> picks[i] < |es| && es[picks[i]].op == Allow(cost))
    && (forall i :: 0 < i < |picks| ==> picks[i - 1] < picks[i])
    && (forall i :: 0 < i < |picks| ==> es[picks[i - 1]].now + delay <= es[picks[i]].now)
  }

  lemma {:induction false} RetriesSpread(es: seq<Event>, picks: seq<nat>, cost: int, delay: real, n: nat)
    requires Retries(es, picks, cost, delay) && n < |picks|
    ensures picks[0] + n <= picks[n]
    ensures es[picks[0]].now + n as real * delay <= es[picks[n]].now
    decreases n
  {
    if 0 < n {
      RetriesSpread(es, picks, cost, delay, n - 1);
      assert n as real * delay == (n - 1) as real * delay + delay;
    }
  }

  /** The delays a retried request of this cost can need before the bucket has accrued it. */
  function MaxRefusals(rate: real, cost: int, delay: real): int
    requires 0.0 < rate * delay
  {
    Ceiling(cost as real / (rate * delay))
  }

  /**
   A request whose cost fits the bucket and that is retried no sooner than `delay` after each
   refusal is refused at most ceil(cost / (rate * delay)) times while nothing else is granted.
   */
  lemma RefusalsBounded(c: Config, b: State, es: seq<Event>, picks: seq<nat>, cost: int, delay: real)
    requires c.Valid() && 0.0 <= b.tokens <= c.size as real && Monotone(b.last, es)
    requires 0 < cost <= c.size && 0.0 < delay
    requires forall k :: 0 <= k < |es| ==> AnswerAt(c, b, es, k) != Granted
    requires Retries(es, picks, cost, delay)
    ensures 0.0 < c.rate * delay
    ensures |picks| <= MaxRefusals(c.rate, cost, delay)
  {
    hide Accrued, MaxRefusals, Step;
    PositiveProduct(c.rate, delay);
    if |picks| == 0 {
      SomeRefusals(c.rate, cost, delay);
    } else {
      var n := |picks| - 1;
      RetriesSpread(es, picks, cost, delay, n);
      assert picks[0] <= picks[n];
      LastRefusalAccrued(c, b, es, picks[0], picks[n], cost);
      FewDelays(es[picks[0]].now, es[picks[n]].now, n, delay, c.rate, cost);
    }
  }

  /** What accrued between two refusals of a grantless run is less than the refused cost. */
  lemma LastRefusalAccrued(c: Config, b: State, es: seq<Event>, i: nat, k: nat, cost: int)
    requires c.Valid() && 0.0 <= b.tokens <= c.size as real && Monotone(b.last, es)
    requires 0 < cost <= c.size && i <= k < |es| && es[i].op == es[k].op == Allow(cost)
    requires forall n :: 0 <= n < |es| ==> AnswerAt(c, b, es, n) != Granted
    ensures Accrued(es[i].now, es[k].now, c.rate) < cost as real
  {
    hide Accrued;
    BeforeRange(c, b, es, k);
    var s := Before(c, b, es, k);
    assert AnswerAt(c, b, es, k) != Granted;
    RefillRange(c, s, es[k].now);
    if i < k {
      GrantlessAccrual(c, b, es, i, k);
      AccruedAdds(es[i].now, s.last, es[k].now, c.rate);
      AccruedNonNegative(s.last, es[k].now, c.rate);
    } else {
      AccruedNothing(es[i].now, c.rate);
    }
  }

  lemma WholeDelaysAccrue(from: real, to: real, n: nat, delay: real, rate: real)
    requires from + n as real * delay <= to && 0.0 <= rate
    ensures n as real * (rate * delay) <= Accrued(from, to, rate)
  {
    var d := n as real * delay;
    AccruedNonNegative(from + d, to, rate);
    AccruedAdds(from, from + d, to, rate);
    assert Accrued(from, from + d, rate) == d * rate == n as real * (rate * delay);
  }

  lemma QuotientAbove(n: real, x: real, y: real)
    requires 0.0 < y && n * y < x
    ensures n < x / y
  {
    assert (x / y) * y == x;
    assert (x / y - n) * y == x - n * y;
  }

  /** n refusals fit exactly when what accrues over the delays between them stays below the cost. */
  lemma MaxRefusalsIs(rate: real, cost: int, delay: real, n: int)
    requires 0.0 < rate * delay
    ensures n <= MaxRefusals(rate, cost, delay) <==> (n - 1) as real * (rate * delay) < cost as real
  {
    var y := rate * delay;
    var x := cost as real / y;
    assert x * y == cost as real;
    CeilingIsLeast(x, n - 1);
    var m := (n - 1) as real;
    if m < x {
      PositiveProduct(x - m, y);
    } else {
      NonNegativeProduct(m - x, y);
    }
    assert (x - m) * y == x * y - m * y;
  }

  lemma SomeRefusals(rate: real, cost: int, delay: real)
    requires 0 <= cost && 0.0 < rate * delay
    ensures 0 <= MaxRefusals(rate, cost, delay)
  {
    var x, y := cost as real, rate * delay;
    assert (x / y) * y == x;
    CeilingIsLeast(x / y, -1);
  }

  /** When fewer than `cost` tokens accrued over n delays, n is below cost / (rate * delay) rounded up. */
  lemma FewDelays(from: real, to: real, n: nat, delay: real, rate: real, cost: int)
    requires from + n as real * delay <= to
    requires 0.0 < rate && 0.0 < delay && 0.0 < rate * delay
    requires Accrued(from, to, rate) < cost as real
    ensures n < MaxRefusals(rate, cost, delay)
  {
    hide Accrued;
    var y := rate * delay;
    WholeDelaysAccrue(from, to, n, delay, rate);
    QuotientAbove(n as real, cost as real, y);
    CeilingIsLeast(cost as real / y, n);
  }
}
