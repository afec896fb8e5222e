/** Two things a caller of the scripts cannot tell: that keys expire, and that refills are lazy. */
module RedisExpiry {
  import opened Common
  import opened Bucket
  import opened RedisLimiter

  // ---------------------------------------------------------------- the bucket that never expires

  function EternalLoad(c: Config, s: Option<State>, now: real): State {
    if s.Some? then s.value else Full(c, now)
  }

  function EternalStep(c: Config, s: Option<State>, e: Event): (Option<State>, Answer) {
    if !Refills(e) then (s, Invalid) else
    var (b, answer) := Step(c, EternalLoad(c, s, e.now), e);
    (Some(b), answer)
  }

  function EternalAnswers(c: Config, s: Option<State>, calls: seq<Call>): (r: seq<Answer>)
    ensures |r| == |calls|
    decreases |calls|
  {
    if calls == [] then [] else
    var (s', answer) := EternalStep(c, s, calls[0].event);
    [answer] + EternalAnswers(c, s', calls[1..])
  }

  /** The limiter and the server share a clock that does not go back; scripts get its whole seconds. */
  predicate SharedClock(from: real, calls: seq<Call>)
    decreases |calls|
  {
    calls == [] ||
    (from <= calls[0].clock && calls[0].event.now == calls[0].clock.Floor as real && SharedClock(calls[0].clock, calls[1..]))
  }

  // ---------------------------------------------------------------- expiry

  /** A key lives at least as long as an empty bucket takes to fill. */
  predicate OutlivesFill(c: Config, ttl: nat) {
    c.size as real <= ttl as real * c.rate
  }

  /** A cell written at time expiresAt - ttl, and the same bucket kept for ever. */
  predicate Twins(c: Config, ttl: nat, s: Option<Cell>, e: Option<State>, clock: real) {
    && (s.None? <==> e.None?)
    && (s.Some? ==>
          && s.value.bucket == e.value
          && 0.0 <= e.value.tokens <= c.size as real
          && s.value.expiresAt - ttl as real <= clock
          && e.value.last == (s.value.expiresAt - ttl as real).Floor as real)
  }

  /** An operation that refills sees its bucket only through the refill. */
  lemma StepThroughRefill(c: Config, b: State, b': State, e: Event)
    requires Refills(e) && Refill(c, b, e.now) == Refill(c, b', e.now)
    ensures Step(c, b, e) == Step(c, b', e)
  {}

  /** A bucket whose key has expired would by now have been full. */
  lemma ExpiredWasFull(c: Config, ttl: nat, b: State, written: real, clock: real)
    requires c.Valid() && OutlivesFill(c, ttl)
    requires 0.0 <= b.tokens && b.last == written.Floor as real && written + ttl as real <= clock
    ensures var now := clock.Floor as real; Refill(c, b, now) == Refill(c, Full(c, now), now)
  {
    var now := clock.Floor as real;
    assert written.Floor + ttl <= clock.Floor;
    AccruedAdds(b.last, b.last + ttl as real, now, c.rate);
    AccruedNonNegative(b.last + ttl as real, now, c.rate);
    assert Accrued(b.last, b.last + ttl as real, c.rate) == ttl as real * c.rate;
    AccruedNothing(now, c.rate);
  }

  lemma FloorMonotone(x: real, y: real)
    requires x <= y
    ensures x.Floor <= y.Floor
  {}

  /** Twins that are not both missing hold the same bucket once refilled. */
  lemma TwinsLoad(c: Config, ttl: nat, s: Option<Cell>, e: Option<State>, now: real, clock: real, from: real)
    requires c.Valid() && OutlivesFill(c, ttl)
    requires Twins(c, ttl, s, e, from) && from <= clock && now == clock.Floor as real
    ensures Refill(c, Load(c, s, now, clock), now) == Refill(c, EternalLoad(c, e, now), now)
    ensures var b := EternalLoad(c, e, now); 0.0 <= b.tokens <= c.size as real && b.last <= now
  {
    hide Refill, OutlivesFill, Accrued;
    if s.Some? {
      FloorMonotone(s.value.expiresAt - ttl as real, clock);
    }
    if s.Some? && !Live(s, clock) {
      ExpiredWasFull(c, ttl, e.value, s.value.expiresAt - ttl as real, clock);
    }
  }

  lemma TwinsWritten(c: Config, ttl: nat, b: State, clock: real)
    requires 0.0 <= b.tokens <= c.size as real && b.last == clock.Floor as real
    ensures Twins(c, ttl, Some(Cell(b, clock + ttl as real)), Some(b), clock)
  {
    assert clock + ttl as real - ttl as real == clock;
  }

  lemma TwinsStep(c: Config, ttl: nat, s: Option<Cell>, e: Option<State>, call: Call, from: real)
    requires c.Valid() && OutlivesFill(c, ttl)
    requires Twins(c, ttl, s, e, from) && from <= call.clock && call.event.now == call.clock.Floor as real
    requires IsScript(call.event)
    ensures CellStep(c, ttl, s, call).1 == EternalStep(c, e, call.event).1
    ensures Twins(c, ttl, CellStep(c, ttl, s, call).0, EternalStep(c, e, call.event).0, call.clock)
  {
    if Refills(call.event) {
      var now := call.event.now;
      var b, b' := Load(c, s, now, call.clock), EternalLoad(c, e, now);
      TwinsLoad(c, ttl, s, e, now, call.clock, from);
      hide Step, Accrued, Refill, OutlivesFill, Twins;
      StepThroughRefill(c, b, b', call.event);
      StepRange(c, b', call.event);
      StepPotential(c, b', call.event);
      TwinsWritten(c, ttl, Step(c, b', call.event).0, call.clock);
    }
  }

  lemma {:induction false} TwinsRun(c: Config, ttl: nat, s: Option<Cell>, e: Option<State>, calls: seq<Call>, from: real)
    requires c.Valid() && OutlivesFill(c, ttl)
    requires Twins(c, ttl, s, e, from) && SharedClock(from, calls) && Scripts(calls)
    ensures CellAnswers(c, ttl, s, calls) == EternalAnswers(c, e, calls)
    decreases |calls|
  {
    hide CellStep, EternalStep, Twins, OutlivesFill;
    if calls != [] {
      assert IsScript(calls[0].event);
      TwinsStep(c, ttl, s, e, calls[0], from);
      TwinsRun(c, ttl, CellStep(c, ttl, s, calls[0]).0, EternalStep(c, e, calls[0].event).0, calls[1..], calls[0].clock);
    }
  }

  /** No run that starts on missing keys can tell the expiring bucket from one that never expires. */
  ghost predicate ExpiryUnobservable(c: Config, ttl: nat) {
    forall calls :: Scripts(calls) && SharedClock(0.0, calls) ==>
      CellAnswers(c, ttl, None, calls) == EternalAnswers(c, None, calls)
  }

  /** Two requests for the whole bucket, the second just as the first one's keys expire. */
  function Probe(c: Config, ttl: nat): seq<Call> {
    [Call("", Event(0.0, Allow(c.size)), 0.0), Call("", Event(ttl as real, Allow(c.size)), ttl as real)]
  }

  lemma ProbeTells(c: Config, ttl: nat)
    requires c.Valid() && !OutlivesFill(c, ttl)
    ensures Scripts(Probe(c, ttl)) && SharedClock(0.0, Probe(c, ttl))
    ensures CellAnswers(c, ttl, None, Probe(c, ttl)) != EternalAnswers(c, None, Probe(c, ttl))
  {
    var calls := Probe(c, ttl);
    TtlProduct(ttl, c.rate);
    assert 0.0 < c.size as real;
    assert calls[1..] == [calls[1]] && calls[1..][1..] == [];
    assert SharedClock(0.0, calls[1..]);
    var end := ttl as real;
    AccruedNothing(0.0, c.rate);
    AccruedNothing(end, c.rate);
    assert Accrued(0.0, end, c.rate) == ttl as real * c.rate;
    var s1, e1 := CellStep(c, ttl, None, calls[0]), EternalStep(c, None, calls[0].event);
    assert s1 == (Some(Cell(State(0.0, 0.0), end)), Granted) && e1 == (Some(State(0.0, 0.0)), Granted);
    var s2, e2 := CellStep(c, ttl, s1.0, calls[1]), EternalStep(c, e1.0, calls[1].event);
    assert s2.1 == Granted && e2.1 == Refused;
    assert CellAnswers(c, ttl, None, calls)[1] == CellAnswers(c, ttl, s1.0, calls[1..])[0] == s2.1;
    assert EternalAnswers(c, None, calls)[1] == EternalAnswers(c, e1.0, calls[1..])[0] == e2.1;
  }

  lemma TtlProduct(ttl: nat, rate: real)
    requires 0.0 < rate
    ensures 0.0 <= ttl as real * rate
  {}

  /**
   Expiry can be noticed by no run exactly when a key outlives the time in which an empty bucket
   fills: keyExpirySeconds * tokensPerSecond >= bucketSize.
   */
  lemma ExpiryUnobservableIff(c: Config, ttl: nat)
    requires c.Valid()
    ensures ExpiryUnobservable(c, ttl) <==> c.size as real <= ttl as real * c.rate
  {
    assert OutlivesFill(c, ttl) <==> c.size as real <= ttl as real * c.rate;
    hide CellAnswers, EternalAnswers, SharedClock, OutlivesFill;
    if OutlivesFill(c, ttl) {
      forall calls | Scripts(calls) && SharedClock(0.0, calls)
        ensures CellAnswers(c, ttl, None, calls) == EternalAnswers(c, None, calls)
      {
        TwinsRun(c, ttl, None, None, calls, 0.0);
      }
    } else {
      ProbeTells(c, ttl);
    }
  }

  // ---------------------------------------------------------------- lazy refill

  function EternalRun(c: Config, s: Option<State>, calls: seq<Call>): Option<State>
    decreases |calls|
  {
    if calls == [] then s else EternalRun(c, EternalStep(c, s, calls[0].event).0, calls[1..])
  }

  lemma {:induction false} EternalConcat(c: Config, s: Option<State>, xs: seq<Call>, ys: seq<Call>)
    ensures EternalAnswers(c, s, xs + ys) == EternalAnswers(c, s, xs) + EternalAnswers(c, EternalRun(c, s, xs), ys)
    decreases |xs|
  {
    hide EternalStep;
    if xs == [] {
      assert xs + ys == ys;
    } else {
      assert (xs + ys)[0] == xs[0] && (xs + ys)[1..] == xs[1..] + ys;
      EternalConcat(c, EternalStep(c, s, xs[0].event).0, xs[1..], ys);
    }
  }

  /** The readings given to the scripts do not go back, starting from `from`. */
  predicate Rising(from: real, calls: seq<Call>)
    decreases |calls|
  {
    calls == [] || (from <= calls[0].event.now && Rising(calls[0].event.now, calls[1..]))
  }

  lemma {:induction false} SharedClockRises(from: real, calls: seq<Call>)
    requires SharedClock(from, calls)
    ensures Rising(from.Floor as real, calls)
    decreases |calls|
  {
    if calls != [] {
      FloorMonotone(from, calls[0].clock);
      SharedClockRises(calls[0].clock, calls[1..]);
    }
  }

  /** Having refilled at time t, without taking anything, changes no later answer. */
  lemma {:induction false} RefillUnnoticed(c: Config, s: Option<State>, t: real, calls: seq<Call>, from: real)
    requires c.Valid() && t <= from && Rising(from, calls) && Scripts(calls)
    requires s.Some? ==> s.value.last <= t
    ensures EternalAnswers(c, Some(Refill(c, EternalLoad(c, s, t), t)), calls) == EternalAnswers(c, s, calls)
    decreases |calls|
  {
    hide Step, Accrued, Refill;
    if calls != [] {
      var e := calls[0].event;
      assert IsScript(e);
      var s1 := Some(Refill(c, EternalLoad(c, s, t), t));
      if Refills(e) {
        assert t <= e.now;
        RefillTwice(c, EternalLoad(c, s, t), t, e.now);
        if s.None? {
          FullStaysFull(c, t, e.now);
        }
        StepThroughRefill(c, s1.value, EternalLoad(c, s, e.now), e);
      } else {
        RefillUnnoticed(c, s, t, calls[1..], e.now);
      }
    }
  }

  lemma FullStaysFull(c: Config, t: real, now: real)
    requires c.Valid() && t <= now
    ensures Refill(c, Full(c, t), now) == Refill(c, Full(c, now), now)
  {
    hide Accrued;
    AccruedNonNegative(t, now, c.rate);
    AccruedNothing(now, c.rate);
  }

  lemma {:induction false} RisesAfter(from: real, xs: seq<Call>, ys: seq<Call>)
    requires Rising(from, xs + ys)
    ensures Rising(from, xs)
    ensures Rising(if xs == [] then from else xs[|xs| - 1].event.now, ys)
    decreases |xs|
  {
    if xs == [] {
      assert xs + ys == ys;
    } else {
      assert (xs + ys)[1..] == xs[1..] + ys;
      RisesAfter(xs[0].event.now, xs[1..], ys);
    }
  }

  lemma {:induction false} LastBounded(c: Config, s: Option<State>, calls: seq<Call>, from: real)
    requires Rising(from, calls) && Scripts(calls)
    requires s.Some? ==> s.value.last <= from
    ensures var s' := EternalRun(c, s, calls); var end := if calls == [] then from else calls[|calls| - 1].event.now;
      from <= end && (s'.Some? ==> s'.value.last <= end)
    decreases |calls|
  {
    hide Step, Accrued;
    if calls != [] {
      var e := calls[0].event;
      assert IsScript(e);
      StepPotential(c, EternalLoad(c, s, e.now), e);
      LastBounded(c, EternalStep(c, s, e).0, calls[1..], e.now);
    }
  }

  /** A script run that grants nothing leaves exactly the bucket its refill made. */
  lemma NothingTaken(c: Config, s: Option<State>, e: Event)
    requires IsScript(e) && Refills(e) && EternalStep(c, s, e).1 != Granted
    ensures EternalStep(c, s, e).0 == Some(Refill(c, EternalLoad(c, s, e.now), e.now))
  {
    hide Accrued;
  }

  /**
   Lazy refill refines continuous refill: dropping from a run any call that was not granted
   (a refused Allow, a reserve script run that took nothing, a reading of the tokens available, or
   a call with an invalid cost) changes no other answer of the run. Only the order of the readings
   matters, not their relation to the server's clock.
   */
  lemma UngrantedCallUnnoticed(c: Config, from: real, xs: seq<Call>, x: Call, ys: seq<Call>)
    requires c.Valid() && Scripts(xs + [x] + ys) && Rising(from, xs + [x] + ys)
    requires EternalAnswers(c, None, xs + [x] + ys)[|xs|] != Granted
    ensures var answers := EternalAnswers(c, None, xs + [x] + ys);
      EternalAnswers(c, None, xs + ys) == answers[..|xs|] + answers[|xs| + 1..]
  {
    hide *;
    var s := EternalRun(c, None, xs);
    assert xs + [x] + ys == xs + ([x] + ys);
    SplitScripts(xs, x, ys);
    RisesAround(from, xs, x, ys);
    LastBounded(c, None, xs, from);
    EternalConcat(c, None, xs, [x] + ys);
    EternalConcat(c, None, xs, ys);
    FirstAnswer(c, s, x, ys);
    OneDropped(c, s, x, ys);
  }

  lemma FirstAnswer(c: Config, s: Option<State>, x: Call, ys: seq<Call>)
    ensures EternalAnswers(c, s, [x] + ys)
         == [EternalStep(c, s, x.event).1] + EternalAnswers(c, EternalStep(c, s, x.event).0, ys)
  {
    hide EternalStep;
    assert ([x] + ys)[1..] == ys;
  }

  lemma {:induction false} RisesAround(from: real, xs: seq<Call>, x: Call, ys: seq<Call>)
    requires Rising(from, xs + [x] + ys)
    ensures Rising(from, xs) && Rising(x.event.now, ys)
    ensures (if xs == [] then from else xs[|xs| - 1].event.now) <= x.event.now
  {
    assert xs + [x] + ys == xs + ([x] + ys);
    RisesAfter(from, xs, [x] + ys);
    assert ([x] + ys)[0] == x && ([x] + ys)[1..] == ys;
  }

  lemma SplitScripts(xs: seq<Call>, x: Call, ys: seq<Call>)
    requires Scripts(xs + [x] + ys)
    ensures Scripts(xs) && Scripts(ys) && IsScript(x.event) && Scripts(xs + ys)
  {
    var all := xs + [x] + ys;
    assert all[|xs|] == x;
    forall i | 0 <= i < |xs| ensures IsScript(xs[i].event) { assert all[i] == xs[i]; }
    forall i | 0 <= i < |ys| ensures IsScript(ys[i].event) { assert all[|xs| + 1 + i] == ys[i]; }
  }

  lemma {:induction false} OneDropped(c: Config, s: Option<State>, x: Call, ys: seq<Call>)
    requires c.Valid() && IsScript(x.event) && Scripts(ys)
    requires Rising(x.event.now, ys)
    requires s.Some? ==> s.value.last <= x.event.now
    requires EternalStep(c, s, x.event).1 != Granted
    ensures EternalAnswers(c, EternalStep(c, s, x.event).0, ys) == EternalAnswers(c, s, ys)
  {
    hide Step, Accrued, EternalAnswers, Refill;
    if Refills(x.event) {
      NothingTaken(c, s, x.event);
      RefillUnnoticed(c, s, x.event.now, ys, x.event.now);
    }
  }

  /** The same holds of the store whose keys expire, when they live long enough. */
  lemma UngrantedScriptUnnoticed(c: Config, ttl: nat, xs: seq<Call>, x: Call, ys: seq<Call>)
    requires c.Valid() && OutlivesFill(c, ttl)
    requires Scripts(xs + [x] + ys) && SharedClock(0.0, xs + [x] + ys)
    requires CellAnswers(c, ttl, None, xs + [x] + ys)[|xs|] != Granted
    ensures var answers := CellAnswers(c, ttl, None, xs + [x] + ys);
      CellAnswers(c, ttl, None, xs + ys) == answers[..|xs|] + answers[|xs| + 1..]
  {
    hide CellAnswers, EternalAnswers, OutlivesFill;
    SplitScripts(xs, x, ys);
    SkipKeepsClock(0.0, xs, x, ys);
    TwinsRun(c, ttl, None, None, xs + [x] + ys, 0.0);
    TwinsRun(c, ttl, None, None, xs + ys, 0.0);
    SharedClockRises(0.0, xs + [x] + ys);
    UngrantedCallUnnoticed(c, (0.0).Floor as real, xs, x, ys);
  }

  lemma {:induction false} SkipKeepsClock(from: real, xs: seq<Call>, x: Call, ys: seq<Call>)
    requires SharedClock(from, xs + [x] + ys)
    ensures SharedClock(from, xs + ys)
    decreases |xs|
  {
    var all := xs + [x] + ys;
    if xs == [] {
      assert all[1..] == ys && xs + ys == ys;
      if ys != [] {
        assert SharedClock(x.clock, ys);
      }
    } else {
      assert all[1..] == xs[1..] + [x] + ys && (xs + ys)[1..] == xs[1..] + ys;
      SkipKeepsClock(xs[0].clock, xs[1..], x, ys);
    }
  }
}
