/** What accrues on one key between two calls of the distributed limiter, in real time. */
module RedisAccrual {
  import opened Common
  import opened Bucket
  import opened RedisLimiter
  import opened RedisExpiry
  import opened Waits

  /** A call at real time t: the limiter reads the whole seconds, the server's clock is the same. */
  function CallAt(t: real, op: Op): Call {
    Call("", Event(UnixSeconds(t), op), t)
  }

  lemma SecondsApart(t1: real, t2: real, rate: real)
    requires 0.0 < rate
    ensures (t2 - t1 - 1.0) * rate < Accrued(UnixSeconds(t1), UnixSeconds(t2), rate) < (t2 - t1 + 1.0) * rate
  {
    var d := UnixSeconds(t2) - UnixSeconds(t1);
    PositiveProduct(d - (t2 - t1 - 1.0), rate);
    PositiveProduct((t2 - t1 + 1.0) - d, rate);
    assert (d - (t2 - t1 - 1.0)) * rate == d * rate - (t2 - t1 - 1.0) * rate;
    assert ((t2 - t1 + 1.0) - d) * rate == (t2 - t1 + 1.0) * rate - d * rate;
  }

  /**
   Whatever operation refilled the key at t1 and left tokens behind: while the keys live, an Allow at
   t2 finds what was left and what accrued since, give or take one second of rate.
   */
  lemma LaterCallFinds(c: Config, ttl: nat, s: Option<Cell>, t1: real, op: Op, t2: real, cost: int)
    requires c.Valid() && 0 < cost <= c.size && Refills(Event(0.0, op)) && !op.Settle? && t2 < t1 + ttl as real
    ensures var first := CellStep(c, ttl, s, CallAt(t1, op)).0;
      && first.Some?
      && var left := first.value.bucket.tokens; var answer := CellStep(c, ttl, first, CallAt(t2, Allow(cost))).1;
      && (cost as real <= left + (t2 - t1 - 1.0) * c.rate ==> answer == Granted)
      && (left + (t2 - t1 + 1.0) * c.rate <= cost as real ==> answer == Refused)
  {
    hide Step, UnixSeconds, Refill, Accrued;
    var first := CellStep(c, ttl, s, CallAt(t1, op)).0;
    var b, n1, n2 := first.value.bucket, UnixSeconds(t1), UnixSeconds(t2);
    StepPotential(c, Load(c, s, n1, t1), CallAt(t1, op).event);
    assert b.last == n1 && Load(c, first, n2, t2) == b;
    AllowAnswer(c, b, n2, cost);
    assert CellStep(c, ttl, first, CallAt(t2, Allow(cost))).1 == Step(c, b, Event(n2, Allow(cost))).1;
    FoundLater(c, b, t1, t2);
  }

  lemma FoundLater(c: Config, b: State, t1: real, t2: real)
    requires c.Valid() && b.last == UnixSeconds(t1)
    ensures var found := Refill(c, b, UnixSeconds(t2)).tokens;
      && (found == c.size as real || b.tokens + (t2 - t1 - 1.0) * c.rate < found)
      && found < b.tokens + (t2 - t1 + 1.0) * c.rate
  {
    hide UnixSeconds, Accrued;
    SecondsApart(t1, t2, c.rate);
  }

  lemma AllowAnswer(c: Config, b: State, now: real, cost: int)
    requires 0 < cost
    ensures Step(c, b, Event(now, Allow(cost))).1 == if cost as real <= Refill(c, b, now).tokens then Granted else Refused
  {
    hide Refill;
  }

  // ---------------------------------------------------------------- a key left alone

  function CellRun(c: Config, ttl: nat, s: Option<Cell>, calls: seq<Call>): Option<Cell>
    decreases |calls|
  {
    if calls == [] then s else CellRun(c, ttl, CellStep(c, ttl, s, calls[0]).0, calls[1..])
  }

  /** The stored bucket is within its size and was refilled at a reading of the clock so far. */
  predicate Sane(c: Config, s: Option<Cell>, clock: real) {
    s.Some? ==> 0.0 <= s.value.bucket.tokens <= c.size as real && s.value.bucket.last <= clock.Floor as real
  }

  lemma StepSane(c: Config, ttl: nat, s: Option<Cell>, call: Call, from: real)
    requires c.Valid() && Sane(c, s, from) && IsScript(call.event)
    requires from <= call.clock && call.event.now == call.clock.Floor as real
    ensures Sane(c, CellStep(c, ttl, s, call).0, call.clock)
  {
    hide Step, Accrued;
    FloorMonotone(from, call.clock);
    if Refills(call.event) {
      StepRange(c, Load(c, s, call.event.now, call.clock), call.event);
    }
  }

  lemma {:induction false} RunSane(c: Config, ttl: nat, s: Option<Cell>, calls: seq<Call>, from: real)
    requires c.Valid() && Sane(c, s, from) && Scripts(calls) && SharedClock(from, calls)
    ensures Sane(c, CellRun(c, ttl, s, calls), LastClock(from, calls)) && from <= LastClock(from, calls)
    decreases |calls|
  {
    hide CellStep, Sane;
    if calls != [] {
      assert IsScript(calls[0].event);
      StepSane(c, ttl, s, calls[0], from);
      RunSane(c, ttl, CellStep(c, ttl, s, calls[0]).0, calls[1..], calls[0].clock);
    }
  }

  function LastClock(from: real, calls: seq<Call>): real {
    if calls == [] then from else calls[|calls| - 1].clock
  }

  /**
   After any run on a key, once a full bucket's worth and one more second have passed since its last
   call, AllowN grants exactly the costs from 1 to the bucket size, whether the keys have expired or not.
   */
  lemma IdleKeyGrantsIff(c: Config, ttl: nat, calls: seq<Call>, t: real, cost: int)
    requires c.Valid() && Scripts(calls) && SharedClock(0.0, calls)
    requires c.size as real <= (t - LastClock(0.0, calls) - 1.0) * c.rate
    ensures CellStep(c, ttl, CellRun(c, ttl, None, calls), CallAt(t, Allow(cost))).1 == Granted <==> 0 < cost <= c.size
  {
    hide CellRun, SharedClock, UnixSeconds, Accrued;
    var s, end := CellRun(c, ttl, None, calls), LastClock(0.0, calls);
    RunSane(c, ttl, None, calls, 0.0);
    if 0 < cost {
      var now := UnixSeconds(t);
      var b := Load(c, s, now, t);
      AllowAnswer(c, b, now, cost);
      assert Refill(c, b, now).tokens == c.size as real by {
        if Live(s, t) {
          LongIdle(c, b, end, t);
        } else {
          AccruedNothing(now, c.rate);
        }
      }
    }
  }

  lemma LongIdle(c: Config, b: State, end: real, t: real)
    requires c.Valid() && 0.0 <= b.tokens && b.last <= end.Floor as real
    requires c.size as real <= (t - end - 1.0) * c.rate
    ensures Refill(c, b, UnixSeconds(t)).tokens == c.size as real
  {
    hide UnixSeconds, Accrued;
    SecondsApart(end, t, c.rate);
    LongAgo(b.last, end, UnixSeconds(t), c.rate);
  }

  lemma LongAgo(last: real, end: real, now: real, rate: real)
    requires 0.0 < rate && last <= end.Floor as real
    ensures Accrued(UnixSeconds(end), now, rate) <= Accrued(last, now, rate)
  {
    assert UnixSeconds(end) == end.Floor as real;
    AccruedAdds(last, UnixSeconds(end), now, rate);
    AccruedNonNegative(last, UnixSeconds(end), rate);
    hide Accrued;
  }
}
