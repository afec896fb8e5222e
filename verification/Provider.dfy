/** The provider's retry loop: which attempts it makes, what it returns, and how long it sleeps. */
module Provider {
  import opened Common

  // ---------------------------------------------------------------- durations

  const INT64_RANGE := 0x1_0000_0000_0000_0000
  const INT64_LIMIT := 0x8000_0000_0000_0000

  /** What a 64-bit signed integer keeps of x. */
  function Wrap(x: int): (w: int)
    ensures -INT64_LIMIT <= w < INT64_LIMIT && (x - w) % INT64_RANGE == 0
  {
    var m := x % INT64_RANGE;
    if m < INT64_LIMIT then m else m - INT64_RANGE
  }

  function Pow2(n: nat): (p: nat)
    ensures 0 < p
  {
    if n == 0 then 1 else 2 * Pow2(n - 1)
  }

  /** The backoff before jitter, in nanoseconds, with shift and product wrapping as int64. */
  function CappedBackoff(attempt: nat, minBackoff: int, maxBackoff: int): int {
    var backoff := Wrap(minBackoff * Wrap(Pow2(attempt)));
    if backoff > maxBackoff then maxBackoff else backoff
  }

  /** Plus or minus a fifth; `draw` is the random number in [0, 1). */
  function Jittered(backoff: int, draw: real): real {
    backoff as real * (0.8 + 0.4 * draw)
  }

  function CalculateBackoff(attempt: nat, minBackoff: int, maxBackoff: int, draw: real): int {
    Truncate(Jittered(CappedBackoff(attempt, minBackoff, maxBackoff), draw))
  }

  /** Sleeping for a duration that is not positive returns at once. */
  function Slept(duration: int): nat {
    if duration <= 0 then 0 else duration
  }

  lemma WrapShift(x: int, k: int)
    ensures Wrap(x + k * INT64_RANGE) == Wrap(x)
  {}

  lemma WrapBelow(x: int)
    requires 0 <= x
    ensures Wrap(x) <= x
    ensures x < INT64_LIMIT ==> Wrap(x) == x
  {}

  /** Wrapping a factor first does not change the wrapped product. */
  lemma WrapProduct(a: int, b: int)
    ensures Wrap(a * Wrap(b)) == Wrap(a * b)
  {
    var k := (b - Wrap(b)) / INT64_RANGE;
    assert b == Wrap(b) + k * INT64_RANGE;
    assert a * b == a * Wrap(b) + (a * k) * INT64_RANGE by {
      Distribute(a, Wrap(b), k, INT64_RANGE);
    }
    WrapShift(a * Wrap(b), a * k);
  }

  lemma Distribute(a: int, x: int, k: int, m: int)
    ensures a * (x + k * m) == a * x + (a * k) * m
  {}

  /** Overflow can only shorten the backoff: it never exceeds the doubled minimum nor the cap. */
  lemma BackoffBounds(attempt: nat, minBackoff: int, maxBackoff: int)
    requires 0 <= minBackoff && 0 <= maxBackoff
    ensures CappedBackoff(attempt, minBackoff, maxBackoff) <= minBackoff * Pow2(attempt)
    ensures CappedBackoff(attempt, minBackoff, maxBackoff) <= maxBackoff
  {
    WrapProduct(minBackoff, Pow2(attempt));
    NatProduct(minBackoff, Pow2(attempt));
    WrapBelow(minBackoff * Pow2(attempt));
  }

  lemma NatProduct(a: nat, b: nat)
    ensures 0 <= a * b
  {}

  /**
   The backoff is the doubled minimum, or the cap when that is smaller, exactly when the doubling
   does not overflow or what overflow leaves still reaches the cap.
   */
  lemma BackoffExactIff(attempt: nat, minBackoff: int, maxBackoff: int)
    requires 0 <= minBackoff && 0 <= maxBackoff < INT64_LIMIT
    ensures var doubled := minBackoff * Pow2(attempt);
      CappedBackoff(attempt, minBackoff, maxBackoff) == (if doubled > maxBackoff then maxBackoff else doubled)
      <==> doubled < INT64_LIMIT || maxBackoff <= Wrap(doubled)
  {
    WrapProduct(minBackoff, Pow2(attempt));
    NatProduct(minBackoff, Pow2(attempt));
    WrapBelow(minBackoff * Pow2(attempt));
  }

  /** A minimum of one second doubled 34 times overflows to a negative duration: no sleep at all. */
  lemma OverflowSkipsBackoff(draw: real)
    requires 0.0 <= draw < 1.0
    ensures CappedBackoff(34, 1_000_000_000, 60_000_000_000) < 0
    ensures Slept(CalculateBackoff(34, 1_000_000_000, 60_000_000_000, draw)) == 0
  {
    assert Pow2(8) == 256;
    assert Pow2(16) == 65536;
    assert Pow2(24) == 16777216;
    assert Pow2(32) == 4294967296;
    assert Pow2(34) == 17179869184;
    var b := CappedBackoff(34, 1_000_000_000, 60_000_000_000);
    JitterBound(b, draw, 0);
  }

  // ---------------------------------------------------------------- the loop

  predicate IsRetryableStatusCode(status: int) {
    status == 429 || status == 500 || status == 502 || status == 503 || status == 504
  }

  /** What one attempt meets: a canceled context, no request, no response, no body, or a response. */
  datatype Reply =
    | Canceled
    | NotCreated
    | NotSent
    | NotRead
    | Answered(status: int, body: string)

  datatype Attempt = Attempt(reply: Reply, draw: real)

  datatype Outcome =
    | Body(body: string)
    | ContextCanceled
    | CreateFailed
    | RequestFailed
    | ReadFailed
    | BadStatus(status: int, body: string)
    | Nothing

  datatype Policy = Policy(maxRetries: int, minBackoff: int, maxBackoff: int)

  predicate Succeeded(r: Reply) {
    r.Answered? && 200 <= r.status < 300
  }

  /** A reply after which another attempt is worth making. */
  predicate Transient(r: Reply) {
    r.NotSent? || r.NotRead? || (r.Answered? && !Succeeded(r) && IsRetryableStatusCode(r.status))
  }

  function Final(r: Reply): Outcome {
    match r
    case Canceled => ContextCanceled
    case NotCreated => CreateFailed
    case NotSent => RequestFailed
    case NotRead => ReadFailed
    case Answered(status, body) => if Succeeded(r) then Body(body) else BadStatus(status, body)
  }

  /** The time slept before the attempts numbered 1 to k. */
  function TotalSleep(p: Policy, env: nat -> Attempt, k: nat): nat {
    if k == 0 then 0 else
    TotalSleep(p, env, k - 1) + Slept(CalculateBackoff(k - 1, p.minBackoff, p.maxBackoff, env(k - 1).draw))
  }

  /**
   `env` says what each attempt meets. With n = maxRetries >= 0 the loop makes at most n + 1
   attempts: it goes on exactly after transient replies with retries left, returns what the last
   attempt decides, and never reaches the return behind the loop; a negative maxRetries reaches it
   without any attempt.
   */
  method DoRequest(p: Policy, env: nat -> Attempt) returns (outcome: Outcome, attempts: nat, slept: nat)
    ensures p.maxRetries < 0 ==> outcome == Nothing && attempts == 0
    ensures 0 <= p.maxRetries ==>
      && outcome != Nothing
      && 1 <= attempts <= p.maxRetries + 1
      && (forall k :: 0 <= k < attempts - 1 ==> Transient(env(k).reply))
      && !(attempts <= p.maxRetries && Transient(env(attempts - 1).reply))
      && outcome == Final(env(attempts - 1).reply)
    ensures 0 <= p.maxRetries ==> forall k :: 0 <= k < attempts - 1 ==>
      var r := env(k).reply; r.NotSent? || r.NotRead? || (r.Answered? && r.status in {429, 500, 502, 503, 504})
    ensures 0 <= p.maxRetries && attempts <= p.maxRetries ==>
      var r := env(attempts - 1).reply; !r.NotSent? && !r.NotRead? && (r.Answered? ==> r.status !in {429, 500, 502, 503, 504})
    ensures 0 <= p.maxRetries ==> outcome == match env(attempts - 1).reply
        case Canceled => ContextCanceled
        case NotCreated => CreateFailed
        case NotSent => RequestFailed
        case NotRead => ReadFailed
        case Answered(status, body) => if 200 <= status < 300 then Body(body) else BadStatus(status, body)
    ensures slept == TotalSleep(p, env, if attempts == 0 then 0 else attempts - 1)
  {
    attempts, slept := 0, 0;
    while attempts <= p.maxRetries
      invariant attempts == 0 || attempts <= p.maxRetries
      invariant forall k :: 0 <= k < attempts ==> Transient(env(k).reply)
      invariant slept == TotalSleep(p, env, attempts)
      decreases p.maxRetries - attempts
    {
      var attempt, reply := attempts, env(attempts).reply;
      attempts := attempts + 1;
      match reply {
        case Canceled => return ContextCanceled, attempts, slept;
        case NotCreated => return CreateFailed, attempts, slept;
        case NotSent =>
          if attempt >= p.maxRetries {
            return RequestFailed, attempts, slept;
          }
        case NotRead =>
          if attempt >= p.maxRetries {
            return ReadFailed, attempts, slept;
          }
        case Answered(status, body) =>
          if 200 <= status < 300 {
            return Body(body), attempts, slept;
          }
          if !(attempt < p.maxRetries && IsRetryableStatusCode(status)) {
            return BadStatus(status, body), attempts, slept;
          }
      }
      slept := slept + Slept(CalculateBackoff(attempt, p.minBackoff, p.maxBackoff, env(attempt).draw));
    }
    return Nothing, attempts, slept;
  }

  // ---------------------------------------------------------------- how long it sleeps

  /** The jitter is spread evenly over the draws. */
  lemma JitterSpread(b: int, draw: real, other: real)
    ensures Jittered(b, draw) - Jittered(b, other) == 0.4 * (b as real * (draw - other))
    ensures Jittered(b, 0.0) == 0.8 * b as real
  {}

  lemma JitterRange(b: int, draw: real)
    requires 0.0 <= draw < 1.0
    ensures 0 <= b ==> 0.0 <= Jittered(b, draw) <= 1.2 * b as real
    ensures b <= 0 ==> Jittered(b, draw) <= 0.0
    ensures 0 < b ==> 0.8 * b as real <= Jittered(b, draw) < 1.2 * b as real
    ensures Jittered(b, 0.5) == b as real
  {
    JitterSpread(b, draw, 0.0);
    JitterSpread(b, 0.5, 0.0);
    if 0 < b {
      NonNegativeProduct(b as real, draw);
      PositiveProduct(b as real, 1.0 - draw);
      assert b as real * (1.0 - draw) == b as real - b as real * draw;
    }
    var x, f := b as real, 0.8 + 0.4 * draw;
    if 0.0 <= x {
      NonNegativeProduct(x, f);
      NonNegativeProduct(x, 1.2 - f);
      assert x * (1.2 - f) == 1.2 * x - x * f;
    } else {
      NonNegativeProduct(-x, f);
      assert (-x) * f == -(x * f);
    }
  }

  /** Jitter adds at most a fifth, and leaves a negative duration negative. */
  lemma JitterBound(b: int, draw: real, limit: int)
    requires 0.0 <= draw < 1.0 && b <= limit && 0 <= limit
    ensures Slept(Truncate(Jittered(b, draw))) as real <= 1.2 * limit as real
  {
    hide Jittered, Truncate;
    JitterRange(b, draw);
    var x := Jittered(b, draw);
    if 0 <= b {
      TruncateBelow(x);
    } else {
      TruncateNegative(x);
    }
  }

  lemma TruncateBelow(x: real)
    requires 0.0 <= x
    ensures 0 <= Truncate(x) && Truncate(x) as real <= x
  {}

  lemma TruncateNegative(x: real)
    requires x <= 0.0
    ensures Truncate(x) <= 0
  {}

  lemma OneSleep(p: Policy, a: Attempt, k: nat)
    requires 0 <= p.minBackoff && 0 <= p.maxBackoff && 0.0 <= a.draw < 1.0
    ensures var s := Slept(CalculateBackoff(k, p.minBackoff, p.maxBackoff, a.draw)) as real;
      s <= 1.2 * p.maxBackoff as real && s <= 1.2 * (p.minBackoff * Pow2(k)) as real
  {
    hide CappedBackoff, Slept, Truncate, Jittered;
    var b := CappedBackoff(k, p.minBackoff, p.maxBackoff);
    BackoffBounds(k, p.minBackoff, p.maxBackoff);
    NatProduct(p.minBackoff, Pow2(k));
    JitterBound(b, a.draw, p.maxBackoff);
    JitterBound(b, a.draw, p.minBackoff * Pow2(k));
  }

  lemma SumStep(t: real, s: real, a: int, b: int, c: int)
    requires t <= 1.2 * a as real && s <= 1.2 * b as real && a + b == c
    ensures t + s <= 1.2 * c as real
  {}

  lemma Caps(k: nat, m: int)
    requires 0 < k
    ensures (k - 1) * m + m == k * m
  {}

  lemma GeometricStep(m: int, t: int)
    ensures m * (t - 1) + m * t == m * (2 * t - 1)
  {}

  /** Sleeping through k backoffs takes at most 1.2 times k caps and 1.2 times minBackoff * (2^k - 1). */
  lemma {:induction false} SleepBound(p: Policy, env: nat -> Attempt, k: nat)
    requires 0 <= p.minBackoff && 0 <= p.maxBackoff && (forall k :: 0.0 <= env(k).draw < 1.0)
    ensures TotalSleep(p, env, k) as real <= 1.2 * (k * p.maxBackoff) as real
    ensures TotalSleep(p, env, k) as real <= 1.2 * (p.minBackoff * (Pow2(k) - 1)) as real
  {
    hide CalculateBackoff, Slept;
    if 0 < k {
      var t := TotalSleep(p, env, k - 1) as real;
      var a := env(k - 1);
      var s := Slept(CalculateBackoff(k - 1, p.minBackoff, p.maxBackoff, a.draw)) as real;
      assert 0.0 <= a.draw < 1.0;
      SleepBound(p, env, k - 1);
      OneSleep(p, a, k - 1);
      Caps(k, p.maxBackoff);
      SumStep(t, s, (k - 1) * p.maxBackoff, p.maxBackoff, k * p.maxBackoff);
      var doubled := Pow2(k - 1);
      GeometricStep(p.minBackoff, doubled);
      SumStep(t, s, p.minBackoff * (doubled - 1), p.minBackoff * doubled, p.minBackoff * (2 * doubled - 1));
      assert Pow2(k) == 2 * doubled;
      assert TotalSleep(p, env, k) as real == t + s;
    } else {
      assert p.minBackoff * (Pow2(0) - 1) == 0;
    }
  }

  /** A call never sleeps longer than 1.2 * min(minBackoff * (2^n - 1), n * maxBackoff), overflow or not. */
  lemma {:induction false} DoRequestSleepBound(p: Policy, env: nat -> Attempt, attempts: nat)
    requires 0 <= p.minBackoff && 0 <= p.maxBackoff && (forall k :: 0.0 <= env(k).draw < 1.0)
    requires 1 <= attempts <= p.maxRetries + 1
    ensures var n := p.maxRetries as nat;
      TotalSleep(p, env, attempts - 1) as real
      <= 1.2 * Min((p.minBackoff * (Pow2(n) - 1)) as real, (n * p.maxBackoff) as real)
  {
    SleepGrows(p, env, attempts - 1, p.maxRetries);
    SleepBound(p, env, p.maxRetries);
  }

  /** The backoffs meant for the first k retries: doubled from the minimum, and capped. */
  function MeantBackoffs(p: Policy, k: nat): int {
    if k == 0 then 0 else
    var doubled := p.minBackoff * Pow2(k - 1);
    MeantBackoffs(p, k - 1) + if doubled > p.maxBackoff then p.maxBackoff else doubled
  }

  lemma MeantBackoff(p: Policy, i: nat)
    requires 0 <= p.minBackoff && 0 <= p.maxBackoff < INT64_LIMIT && p.minBackoff * Pow2(i) < INT64_LIMIT
    ensures var doubled := p.minBackoff * Pow2(i); var b := CappedBackoff(i, p.minBackoff, p.maxBackoff);
      0 <= b && b == if doubled > p.maxBackoff then p.maxBackoff else doubled
  {
    BackoffExactIff(i, p.minBackoff, p.maxBackoff);
    NatProduct(p.minBackoff, Pow2(i));
    hide CappedBackoff;
  }

  lemma OneSleepAtLeast(b: int, draw: real)
    requires 0 <= b && 0.0 <= draw < 1.0
    ensures 0.8 * b as real - 1.0 <= Slept(Truncate(Jittered(b, draw))) as real
    ensures draw == 0.5 ==> Slept(Truncate(Jittered(b, draw))) == b
  {
    JitterRange(b, draw);
    hide Jittered;
  }

  /**
   Without overflow k backoffs take at least four fifths of what is meant, less the fraction of a
   nanosecond cut off each, and exactly what is meant when every draw is in the middle.
   */
  lemma {:induction false} SleepAtLeast(p: Policy, env: nat -> Attempt, k: nat)
    requires 0 <= p.minBackoff && 0 <= p.maxBackoff < INT64_LIMIT && (forall k :: 0.0 <= env(k).draw < 1.0)
    requires forall i: nat :: i < k ==> p.minBackoff * Pow2(i) < INT64_LIMIT
    ensures 0.8 * MeantBackoffs(p, k) as real - k as real <= TotalSleep(p, env, k) as real
    ensures (forall i: nat :: i < k ==> env(i).draw == 0.5) ==> TotalSleep(p, env, k) == MeantBackoffs(p, k)
  {
    hide CappedBackoff, Slept, Truncate, Jittered, Pow2;
    if 0 < k {
      var draw := env(k - 1).draw;
      assert 0.0 <= draw < 1.0;
      assert p.minBackoff * Pow2(k - 1) < INT64_LIMIT;
      SleepAtLeast(p, env, k - 1);
      MeantBackoff(p, k - 1);
      OneSleepAtLeast(CappedBackoff(k - 1, p.minBackoff, p.maxBackoff), draw);
    }
  }

  lemma {:induction false} SleepGrows(p: Policy, env: nat -> Attempt, j: nat, k: nat)
    requires j <= k
    ensures TotalSleep(p, env, j) <= TotalSleep(p, env, k)
    decreases k
  {
    if j < k {
      SleepGrows(p, env, j, k - 1);
    }
  }
}
