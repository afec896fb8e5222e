/** How long a refused reservation is told to wait, and what the bucket holds once it has waited. */
module Waits {
  import opened Common
  import opened Bucket

  /** The reserve script rounds up to whole milliseconds. */
  function WaitMillis(c: Config, needed: real): int
    requires c.Valid()
  {
    Ceiling(needed / c.rate * 1000.0)
  }

  /** ReserveN in memory converts to a duration and so drops the fraction of a nanosecond. */
  function WaitNanos(c: Config, needed: real): int
    requires c.Valid()
  {
    Truncate(needed / c.rate * 1000000000.0)
  }

  /** A wait of m units of 1/k second accrues what is needed iff m is at least the exact wait. */
  lemma Covers(needed: real, rate: real, k: real, m: real, from: real)
    requires 0.0 < rate && 0.0 < k
    ensures needed <= Accrued(from, from + m / k, rate) <==> needed / rate * k <= m
  {
    var x, y := needed / rate, m / k;
    assert x * rate == needed && y * k == m;
    assert Accrued(from, from + y, rate) == y * rate;
    assert (y - x) * rate == y * rate - needed;
    assert (y - x) * k == m - x * k;
    if x <= y {
      NonNegativeProduct(y - x, rate);
      NonNegativeProduct(y - x, k);
    } else {
      PositiveProduct(x - y, rate);
      PositiveProduct(x - y, k);
    }
  }

  lemma RefilledEnough(c: Config, b: State, needed: real, cost: int, later: real)
    requires needed == cost as real - b.tokens
    ensures cost as real <= Refill(c, b, later).tokens <==> cost <= c.size && needed <= Accrued(b.last, later, c.rate)
  {
    hide Accrued;
  }

  /**
   The wait a refused Redis reservation returns is the least whole number of milliseconds after
   which the bucket, left alone, holds the cost; no wait is enough when the cost exceeds the size,
   although the script names one all the same.
   */
  lemma MillisAreLeast(c: Config, b: State, now: real, cost: int, m: int)
    requires c.Valid() && Step(c, b, Event(now, Reserve(cost))).1.Wait?
    ensures var (b', answer) := Step(c, b, Event(now, Reserve(cost)));
      && 0 < WaitMillis(c, answer.needed)
      && (cost as real <= Refill(c, b', now + m as real / 1000.0).tokens
          <==> cost <= c.size && WaitMillis(c, answer.needed) <= m)
  {
    hide Accrued, Ceiling;
    var (b', answer) := Step(c, b, Event(now, Reserve(cost)));
    var needed := answer.needed;
    ExactWaitPositive(needed, c.rate, 1000.0);
    CeilingIsLeast(needed / c.rate * 1000.0, 0);
    CeilingIsLeast(needed / c.rate * 1000.0, m);
    Covers(needed, c.rate, 1000.0, m as real, now);
    RefilledEnough(c, b', needed, cost, now + m as real / 1000.0);
  }

  lemma ExactWaitPositive(needed: real, rate: real, k: real)
    requires 0.0 < needed && 0.0 < rate && 0.0 < k
    ensures 0.0 < needed / rate * k
  {
    var x := needed / rate;
    assert x * rate == needed;
    assert 0.0 < x;
    PositiveProduct(x, k);
  }

  /**
   In memory the truncated wait is enough exactly when the exact wait is a whole number of
   nanoseconds (and the cost fits the bucket): otherwise the tokens fall short at the due time.
   */
  lemma NanosEnoughIff(c: Config, b: State, now: real, cost: int)
    requires c.Valid() && Step(c, b, Event(now, Reserve(cost))).1.Wait?
    ensures var (b', answer) := Step(c, b, Event(now, Reserve(cost)));
      var w := WaitNanos(c, answer.needed);
      && 0 <= w && w as real <= answer.needed / c.rate * 1000000000.0 < w as real + 1.0
      && (cost as real <= Refill(c, b', now + w as real / 1000000000.0).tokens
          <==> cost <= c.size && w as real == answer.needed / c.rate * 1000000000.0)
  {
    hide Accrued;
    var (b', answer) := Step(c, b, Event(now, Reserve(cost)));
    var w := WaitNanos(c, answer.needed);
    ExactWaitPositive(answer.needed, c.rate, 1000000000.0);
    Covers(answer.needed, c.rate, 1000000000.0, w as real, now);
    RefilledEnough(c, b', answer.needed, cost, now + w as real / 1000000000.0);
  }

  /** At three tokens a second the wait for one missing token ends a third of a nanosecond too early. */
  lemma NanosCanFallShort()
    ensures var c, b := Config(1, 3.0), State(0.0, 0.0);
      && WaitNanos(c, 1.0) == 333_333_333
      && Step(c, b, Event(0.0, Reserve(1))) == (b, Wait(1.0))
      && Refill(c, b, 333_333_333 as real / 1000000000.0).tokens < 1.0
  {
    hide *;
    var c := Config(1, 3.0);
    OneMissing(c);
    ThirdOfASecond(c);
    ShortRefill(c, 333_333_333 as real / 1000000000.0);
  }

  lemma OneMissing(c: Config)
    requires 0.0 < c.rate && 1 <= c.size
    ensures Step(c, State(0.0, 0.0), Event(0.0, Reserve(1))) == (State(0.0, 0.0), Wait(1.0))
  {
    hide Accrued, Truncate;
    AccruedNothing(0.0, c.rate);
  }

  lemma ShortRefill(c: Config, t: real)
    requires c.rate == 3.0 && t * 3.0 < 1.0
    ensures Refill(c, State(0.0, 0.0), t).tokens < 1.0
  {
    ShortAccrual(t);
    hide Accrued;
  }

  lemma ThirdOfASecond(c: Config)
    requires c.rate == 3.0 && c.Valid()
    ensures WaitNanos(c, 1.0) == 333_333_333
  {
    var w := WaitNanos(c, 1.0);
    assert w as real <= 1.0 / 3.0 * 1000000000.0 < w as real + 1.0;
    assert 333_333_333.0 <= 1.0 / 3.0 * 1000000000.0 < 333_333_334.0;
    assert w < 333_333_334 && 333_333_333 < w + 1;
  }

  lemma ShortAccrual(t: real)
    requires t * 3.0 < 1.0
    ensures Accrued(0.0, t, 3.0) < 1.0
  {}

  /** The reading `float64(time.Now().Unix())` the Redis limiter passes to its scripts: the whole seconds of t. */
  function UnixSeconds(t: real): (n: real)
    ensures n.Floor as real == n && n <= t < n + 1.0
  {
    t.Floor as real
  }

  /**
   The Redis goroutine retries once after wait_ms. Left alone, its AllowN is granted exactly when
   the whole seconds that went by, not the milliseconds waited, accrue what was missing.
   */
  lemma RetryGrantedIff(c: Config, b: State, t: real, cost: int)
    requires c.Valid() && Step(c, b, Event(UnixSeconds(t), Reserve(cost))).1.Wait?
    ensures var (b', answer) := Step(c, b, Event(UnixSeconds(t), Reserve(cost)));
      var later := UnixSeconds(t + WaitMillis(c, answer.needed) as real / 1000.0);
      Step(c, b', Event(later, Allow(cost))).1 == Granted
      <==> cost <= c.size && answer.needed <= Accrued(UnixSeconds(t), later, c.rate)
  {
    hide Accrued, WaitMillis, UnixSeconds;
    var (b', answer) := Step(c, b, Event(UnixSeconds(t), Reserve(cost)));
    RefilledEnough(c, b', answer.needed, cost, UnixSeconds(t + WaitMillis(c, answer.needed) as real / 1000.0));
  }

  /** One token is missing at two per second: the retry half a second later is refused. */
  lemma RetryCanBeRefused()
    ensures var c, b := Config(1, 2.0), State(0.0, 0.0);
      && Step(c, b, Event(UnixSeconds(0.0), Reserve(1))) == (b, Wait(1.0))
      && WaitMillis(c, 1.0) == 500
      && Step(c, b, Event(UnixSeconds(0.5), Allow(1))).1 == Refused
  {
    var c, b := Config(1, 2.0), State(0.0, 0.0);
    assert 1.0 / c.rate * 1000.0 == 500.0;
    CeilingIsLeast(500.0, 500);
    CeilingIsLeast(500.0, 499);
    assert (0.5).Floor == 0 && (0.0).Floor == 0;
    assert Refill(c, b, 0.0) == b;
  }
}
