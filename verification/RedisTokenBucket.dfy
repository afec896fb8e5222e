/** The distributed limiter: the three scripts, command by command, and the Go methods around them. */
module RedisTokenBucket {
  import opened Common
  import opened Bucket
  import opened RedisLimiter
  import opened Waits
  import opened Waiters
  import opened WaitQueue

  datatype Error = InvalidTokenCost | Unavailable

  class Limiter {
    const store: Store
    const config: Config
    const prefix: string
    /** The keys' lifetime in whole seconds, as the scripts get it. */
    const expiry: int
    const maps: WaitMaps

    constructor (store: Store, rate: real, size: int, prefix: string, keyExpiry: real)
      ensures this.store == store && config == Configure(rate, size)
      ensures this.prefix == if prefix == "" then "limiter:" else prefix
      ensures expiry == ExpirySeconds(keyExpiry)
      ensures fresh(maps) && maps.Valid() && maps.Contents() == Maps(map[], map[])
    {
      this.store := store;
      config := Configure(rate, size);
      this.prefix := if prefix == "" then "limiter:" else prefix;
      expiry := ExpirySeconds(keyExpiry);
      maps := new WaitMaps();
    }

    /** What the store and the answer of one script run are to be. */
    ghost predicate Ran(before: Data, key: string, now: real, op: Op, clock: real, r: Result<Answer, Failure>)
      reads store
    {
      (store.data, r) == Exec(config, prefix, expiry, before, Call(key, Event(now, op), clock))
    }

    /** The first lines of every script: refill from the stored keys and store the time. */
    method LoadAndRefill(key: string, now: real, clock: real) returns (tokens: real, ok: bool)
      modifies store
      ensures ok <==> 0 < expiry
      ensures var bucket := Lookup(old(store.data), BucketKey(prefix, key), clock);
        var last := Lookup(old(store.data), TimestampKey(prefix, key), clock);
        tokens == Refill(config, State(if bucket.Some? then bucket.value else config.size as real,
                                       if last.Some? then last.value else now), now).tokens
      ensures store.data == if ok then old(store.data)[TimestampKey(prefix, key) := Entry(now, clock + expiry as real)]
                            else old(store.data)
    {
      var last := store.Get(TimestampKey(prefix, key), clock);
      var bucket := store.Get(BucketKey(prefix, key), clock);
      var lastRefill := if last.Some? then last.value else now;
      var currentTokens := if bucket.Some? then bucket.value else config.size as real;
      var elapsedSeconds := now - lastRefill;
      var tokensToAdd := elapsedSeconds * config.rate;
      tokens := Min(config.size as real, currentTokens + tokensToAdd);
      ok := store.SetEx(TimestampKey(prefix, key), now, expiry, clock);
    }

    method AllowScript(key: string, now: real, tokenCost: int, clock: real) returns (r: Result<Answer, Failure>)
      requires 0 < tokenCost
      modifies store
      ensures Ran(old(store.data), key, now, Allow(tokenCost), clock, r)
    {
      var currentTokens, ok := LoadAndRefill(key, now, clock);
      if !ok {
        return Err(BackendUnavailable);
      }
      if currentTokens >= tokenCost as real {
        ok := store.SetEx(BucketKey(prefix, key), currentTokens - tokenCost as real, expiry, clock);
        return Ok(Granted);
      } else {
        ok := store.SetEx(BucketKey(prefix, key), currentTokens, expiry, clock);
        return Ok(Refused);
      }
    }

    method GetAvailableScript(key: string, now: real, clock: real) returns (r: Result<Answer, Failure>)
      modifies store
      ensures Ran(old(store.data), key, now, Available, clock, r)
    {
      var newTokens, ok := LoadAndRefill(key, now, clock);
      if !ok {
        return Err(BackendUnavailable);
      }
      ok := store.SetEx(BucketKey(prefix, key), newTokens, expiry, clock);
      return Ok(Tokens(Truncate(newTokens)));
    }

    method ReserveScript(key: string, now: real, tokenCost: int, clock: real) returns (r: Result<Answer, Failure>)
      requires 0 < tokenCost
      modifies store
      ensures Ran(old(store.data), key, now, Reserve(tokenCost), clock, r)
    {
      var currentTokens, ok := LoadAndRefill(key, now, clock);
      if !ok {
        return Err(BackendUnavailable);
      }
      if currentTokens >= tokenCost as real {
        ok := store.SetEx(BucketKey(prefix, key), currentTokens - tokenCost as real, expiry, clock);
        return Ok(Granted);
      } else {
        ok := store.SetEx(BucketKey(prefix, key), currentTokens, expiry, clock);
        return Ok(Wait(tokenCost as real - currentTokens));
      }
    }

    /** `t` is the time read before the script is sent, `clock` the server's when it runs. */
    method AllowN(t: real, clock: real, key: string, tokenCost: int) returns (r: Result<bool, Error>)
      modifies store
      ensures var (d, answer) := Exec(config, prefix, expiry, old(store.data), Call(key, Event(UnixSeconds(t), Allow(tokenCost)), clock));
        && store.data == d
        && r == (if answer.Err? then Err(Unavailable)
                 else if answer.value == Invalid then Err(InvalidTokenCost)
                 else Ok(answer.value == Granted))
      ensures r == Err(InvalidTokenCost) <==> tokenCost <= 0
      ensures r == Err(Unavailable) <==> 0 < tokenCost && expiry <= 0
    {
      if tokenCost <= 0 {
        return Err(InvalidTokenCost);
      }
      var result := AllowScript(key, UnixSeconds(t), tokenCost, clock);
      if result.Err? {
        return Err(Unavailable);
      }
      return Ok(result.value == Granted);
    }

    method GetTokensAvailableN(t: real, clock: real, key: string) returns (r: Result<int, Error>)
      modifies store
      ensures var (d, answer) := Exec(config, prefix, expiry, old(store.data), Call(key, Event(UnixSeconds(t), Available), clock));
        && store.data == d
        && (r.Err? <==> answer.Err?)
        && (r.Ok? ==> answer.value == Tokens(r.value))
    {
      var result := GetAvailableScript(key, UnixSeconds(t), clock);
      if result.Err? {
        return Err(Unavailable);
      }
      return Ok(result.value.count);
    }

    /** A refused reservation lists a waiter, due after the wait the script names, from `issued` on. */
    method ReserveN(t: real, clock: real, issued: real, key: string, tokenCost: int, id: string)
      returns (r: Result<Reservation, Error>)
      requires config.Valid() && maps.Valid() && IsID(id) && id !in maps.waitersByID
      modifies store, maps
      ensures maps.Valid()
      ensures var (d, answer) := Exec(config, prefix, expiry, old(store.data), Call(key, Event(UnixSeconds(t), Reserve(tokenCost)), clock));
        && store.data == d
        && (r.Ok? <==> answer.Ok? && answer.value != Invalid)
        && (r.Err? ==> r.error == if answer.Err? then Unavailable else InvalidTokenCost)
        && (r.Ok? ==> fresh(r.value) && r.value.maps == maps && r.value.tokens == tokenCost
                      && r.value.reservationID == id && r.value.ok)
        && (r.Ok? && answer.value.Wait? ==>
              && r.value.timeToProcess == issued + WaitMillis(config, answer.value.needed) as real / 1000.0
              && exists ch :: fresh(ch) && maps.Contents() == Add(old(maps.Contents()), key, id, ch))
        && (r.Ok? && !answer.value.Wait? ==> r.value.timeToProcess == issued)
        && (r.Err? || !answer.value.Wait? ==> maps.Contents() == old(maps.Contents()))
    {
      if tokenCost <= 0 {
        return Err(InvalidTokenCost);
      }
      var result := ReserveScript(key, UnixSeconds(t), tokenCost, clock);
      if result.Err? {
        return Err(Unavailable);
      }
      if result.value == Granted {
        var granted := new Reservation(maps, tokenCost, issued, id);
        return Ok(granted);
      }
      var waitMs := WaitMillis(config, result.value.needed);
      var ch := maps.Enlist(key, id);
      var pending := new Reservation(maps, tokenCost, issued + waitMs as real / 1000.0, id);
      r := Ok(pending);
    }

    /**
     What the goroutine does after its sleep: it asks once more and notifies its waiter whether or
     not it got the tokens; only a failing backend leaves the waiter listed.
     */
    method Fulfil(t: real, clock: real, key: string, id: string, tokenCost: int) returns (r: Result<bool, Error>)
      requires 0 < tokenCost && maps.Valid() && IsID(id)
      modifies store, maps, maps.waiters.Values
      ensures maps.Valid()
      ensures var (d, answer) := Exec(config, prefix, expiry, old(store.data), Call(key, Event(UnixSeconds(t), Allow(tokenCost)), clock));
        && store.data == d
        && r == (if answer.Err? then Err(Unavailable) else Ok(answer.value == Granted))
      ensures var k := WaiterKey(key, id); var before := old(maps.waiters);
        && maps.Contents() == (if r.Ok? && k in before then Drop(old(maps.Contents()), k, id) else old(maps.Contents()))
        && (forall i :: i in before ==> (before[i].closed <==> r.Ok? && i == k))
    {
      r := AllowN(t, clock, key, tokenCost);
      if r.Ok? {
        maps.Notify(key, id);
      }
    }
  }
}
