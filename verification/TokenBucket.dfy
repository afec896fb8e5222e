/** The in-memory limiter. One method is one section under its mutex; the times it reads are arguments. */
module InMemoryLimiter {
  import opened Common
  import opened Bucket
  import opened Waits
  import opened Waiters
  import opened WaitQueue

  datatype Error = InvalidTokenCost

  class TokenBucket {
    const config: Config
    var availableTokens: real
    var lastRefillTime: real
    const maps: WaitMaps

    ghost function View(): State
      reads this
    {
      State(availableTokens, lastRefillTime)
    }

    constructor (rate: real, size: int, now: real)
      ensures config == Configure(rate, size) && View() == Full(config, now)
      ensures availableTokens == config.size as real && lastRefillTime == now
      ensures fresh(maps) && maps.Valid() && maps.Contents() == Maps(map[], map[])
    {
      var c := Configure(rate, size);
      config := c;
      availableTokens := c.size as real;
      lastRefillTime := now;
      maps := new WaitMaps();
    }

    method Refill(now: real)
      modifies this
      ensures View() == Bucket.Refill(config, old(View()), now)
      ensures var sum := old(availableTokens) + (now - old(lastRefillTime)) * config.rate;
        lastRefillTime == now && availableTokens == if sum <= config.size as real then sum else config.size as real
    {
      RefillIs(config, View(), now);
      var elapsed := now - lastRefillTime;
      lastRefillTime := now;
      var tokensToAdd := elapsed * config.rate;
      assert tokensToAdd == Accrued(old(lastRefillTime), now, config.rate);
      hide Accrued;
      availableTokens := Min(config.size as real, availableTokens + tokensToAdd);
    }

    method AllowN(now: real, tokenCost: int) returns (r: Result<bool, Error>)
      modifies this
      ensures var (b, answer) := Step(config, old(View()), Event(now, Allow(tokenCost)));
        View() == b && r == if answer == Invalid then Err(InvalidTokenCost) else Ok(answer == Granted)
      ensures r.Err? <==> tokenCost <= 0
      ensures r.Err? ==> View() == old(View())
      ensures r.Ok? ==> var n := Bucket.Refill(config, old(View()), now).tokens;
        && lastRefillTime == now && r.value == (tokenCost as real <= n)
        && availableTokens == if tokenCost as real <= n then n - tokenCost as real else n
    {
      if tokenCost <= 0 {
        return Err(InvalidTokenCost);
      }
      Refill(now);
      if availableTokens >= tokenCost as real {
        availableTokens := availableTokens - tokenCost as real;
        return Ok(true);
      }
      return Ok(false);
    }

    method GetTokensAvailableN(now: real) returns (n: int)
      modifies this
      ensures (View(), Tokens(n)) == Step(config, old(View()), Event(now, Available))
      ensures View() == Bucket.Refill(config, old(View()), now)
      ensures 0.0 <= availableTokens ==> n as real <= availableTokens < n as real + 1.0
    {
      Refill(now);
      n := Truncate(availableTokens);
    }

    /**
     Grants at once when the tokens are there; otherwise lists a waiter and says when the exact wait,
     cut to whole nanoseconds, is over. `now` is read for the refill, `issued` for the due time.
     */
    method ReserveN(now: real, issued: real, key: string, tokenCost: int, id: string)
      returns (r: Result<Reservation, Error>)
      requires config.Valid() && maps.Valid() && IsID(id) && id !in maps.waitersByID
      modifies this, maps
      ensures maps.Valid()
      ensures var (b, answer) := Step(config, old(View()), Event(now, Reserve(tokenCost)));
        && View() == b
        && (r.Err? <==> answer == Invalid)
        && (r.Ok? ==> fresh(r.value) && r.value.maps == maps && r.value.tokens == tokenCost
                      && r.value.reservationID == id && r.value.ok)
        && (answer.Wait? ==>
              && r.value.timeToProcess == issued + WaitNanos(config, answer.needed) as real / 1000000000.0
              && exists ch :: fresh(ch) && maps.Contents() == Add(old(maps.Contents()), key, id, ch))
        && (!answer.Wait? ==> maps.Contents() == old(maps.Contents()))
        && (answer == Granted ==> r.value.timeToProcess == issued)
      ensures r.Err? <==> tokenCost <= 0
      ensures r.Err? ==> View() == old(View())
      ensures r.Ok? ==> var n := Bucket.Refill(config, old(View()), now).tokens; var cost := tokenCost as real;
        && lastRefillTime == now && availableTokens == (if cost <= n then n - cost else n)
        && (cost <= n <==> maps.Contents() == old(maps.Contents()))
        && (cost <= n ==> r.value.timeToProcess == issued)
        && (n < cost ==> var wait := (r.value.timeToProcess - issued) * 1000000000.0;
              wait <= (cost - n) / config.rate * 1000000000.0 < wait + 1.0)
    {
      if tokenCost <= 0 {
        return Err(InvalidTokenCost);
      }
      Refill(now);
      var tokensNeeded := tokenCost as real - availableTokens;
      if tokensNeeded <= 0.0 {
        availableTokens := availableTokens - tokenCost as real;
        var granted := new Reservation(maps, tokenCost, issued, id);
        return Ok(granted);
      }
      var waitTime := WaitNanos(config, tokensNeeded);
      var ch := maps.Enlist(key, id);
      var pending := new Reservation(maps, tokenCost, issued + waitTime as real / 1000000000.0, id);
      r := Ok(pending);
    }

    /** The first half of the goroutine: it takes the tokens if they are there, without refilling. */
    method Settle(tokenCost: int) returns (taken: bool)
      requires 0 < tokenCost
      modifies this
      ensures (View(), if taken then Granted else Refused) == Step(config, old(View()), Event(old(lastRefillTime), Bucket.Settle(tokenCost)))
      ensures taken <==> tokenCost as real <= old(availableTokens)
      ensures availableTokens == (if taken then old(availableTokens) - tokenCost as real else old(availableTokens))
      ensures lastRefillTime == old(lastRefillTime)
    {
      taken := availableTokens >= tokenCost as real;
      if taken {
        availableTokens := availableTokens - tokenCost as real;
      }
    }

    /** What the goroutine does after its sleep: only a reservation that was paid is notified. */
    method Fulfil(key: string, id: string, tokenCost: int) returns (taken: bool)
      requires 0 < tokenCost && maps.Valid() && IsID(id)
      modifies this, maps, maps.waiters.Values
      ensures maps.Valid()
      ensures (View(), if taken then Granted else Refused) == Step(config, old(View()), Event(old(lastRefillTime), Bucket.Settle(tokenCost)))
      ensures taken <==> tokenCost as real <= old(availableTokens)
      ensures availableTokens == (if taken then old(availableTokens) - tokenCost as real else old(availableTokens))
      ensures lastRefillTime == old(lastRefillTime)
      ensures var k := WaiterKey(key, id); var before := old(maps.waiters);
        && maps.Contents() == (if taken && k in before then Drop(old(maps.Contents()), k, id) else old(maps.Contents()))
        && (forall i :: i in before ==> (before[i].closed <==> taken && i == k))
    {
      taken := Settle(tokenCost);
      if taken {
        maps.Notify(key, id);
      }
    }
  }
}
