/**
 The distributed token bucket: a keyed store whose keys expire, the three scripts that run on it
 atomically, and the bucket they implement.
 */
module RedisLimiter {
  import opened Common
  import opened Bucket

  // ---------------------------------------------------------------- the store

  datatype Entry = Entry(value: real, expiresAt: real)

  type Data = map<string, Entry>

  /** GET: a key that was never set, or has expired by the server's clock, has no value. */
  function Lookup(d: Data, key: string, clock: real): Option<real> {
    if key in d && clock < d[key].expiresAt then Some(d[key].value) else None
  }

  /** The server. Its clock is an argument of each command. */
  class Store {
    var data: Data

    constructor ()
      ensures data == map[]
    {
      data := map[];
    }

    method Get(key: string, clock: real) returns (v: Option<real>)
      ensures v == Lookup(data, key, clock)
      ensures v == if key in data && clock < data[key].expiresAt then Some(data[key].value) else None
    {
      if key in data && clock < data[key].expiresAt {
        v := Some(data[key].value);
      } else {
        v := None;
      }
    }

    /** SET key value EX seconds; a lifetime that is not positive is an error. */
    method SetEx(key: string, value: real, seconds: int, clock: real) returns (ok: bool)
      modifies this
      ensures ok <==> 0 < seconds
      ensures data == if ok then old(data)[key := Entry(value, clock + seconds as real)] else old(data)
    {
      ok := 0 < seconds;
      if ok {
        data := data[key := Entry(value, clock + seconds as real)];
      }
    }
  }

  // ---------------------------------------------------------------- keys

  function BucketKey(prefix: string, key: string): string {
    prefix + "bucket:" + key
  }

  function TimestampKey(prefix: string, key: string): string {
    prefix + "timestamp:" + key
  }

  /** Keys of the two kinds never collide, and keys of one kind determine the caller's key. */
  lemma KeysIsolated(prefix: string, k: string, k': string)
    ensures BucketKey(prefix, k) != TimestampKey(prefix, k')
    ensures BucketKey(prefix, k) == BucketKey(prefix, k') ==> k == k'
    ensures TimestampKey(prefix, k) == TimestampKey(prefix, k') ==> k == k'
  {
    var n := |prefix|;
    assert BucketKey(prefix, k)[n] == 'b' && TimestampKey(prefix, k')[n] == 't';
    assert BucketKey(prefix, k)[n + 7..] == k && BucketKey(prefix, k')[n + 7..] == k';
    assert TimestampKey(prefix, k)[n + 10..] == k && TimestampKey(prefix, k')[n + 10..] == k';
  }

  // ---------------------------------------------------------------- the bucket of one key

  /** What the store holds for one key: tokens and refill time, written together. */
  datatype Cell = Cell(bucket: State, expiresAt: real)

  /** One call: the limiter's reading of the time is in the event, the server's is `clock`. */
  datatype Call = Call(key: string, event: Event, clock: real)

  /** The scripts are run for Allow, Reserve and Available; costs are checked before. */
  predicate IsScript(e: Event) {
    !e.op.Settle?
  }

  predicate Live(s: Option<Cell>, clock: real) {
    s.Some? && clock < s.value.expiresAt
  }

  /** The bucket a script finds: a full one refilled now when the keys are missing. */
  function Load(c: Config, s: Option<Cell>, now: real, clock: real): State {
    if Live(s, clock) then s.value.bucket else Full(c, now)
  }

  function CellStep(c: Config, ttl: nat, s: Option<Cell>, call: Call): (Option<Cell>, Answer) {
    if !Refills(call.event) then (s, Invalid) else
    var (b, answer) := Step(c, Load(c, s, call.event.now, call.clock), call.event);
    (Some(Cell(b, call.clock + ttl as real)), answer)
  }

  function CellAnswers(c: Config, ttl: nat, s: Option<Cell>, calls: seq<Call>): (r: seq<Answer>)
    ensures |r| == |calls|
    decreases |calls|
  {
    if calls == [] then [] else
    [CellStep(c, ttl, s, calls[0]).1] + CellAnswers(c, ttl, CellStep(c, ttl, s, calls[0]).0, calls[1..])
  }

  function CellSpent(c: Config, ttl: nat, s: Option<Cell>, calls: seq<Call>): int
    decreases |calls|
  {
    if calls == [] then 0 else
    (if CellStep(c, ttl, s, calls[0]).1 == Granted then Cost(calls[0].event.op) else 0)
    + CellSpent(c, ttl, CellStep(c, ttl, s, calls[0]).0, calls[1..])
  }

  // ---------------------------------------------------------------- the scripts on the store

  datatype Failure = BackendUnavailable

  /** One call as the store sees it. */
  function Exec(c: Config, prefix: string, ttl: int, d: Data, call: Call): (Data, Result<Answer, Failure>) {
    var bk, tk, now := BucketKey(prefix, call.key), TimestampKey(prefix, call.key), call.event.now;
    if !Refills(call.event) then (d, Ok(Invalid)) else
    if ttl <= 0 then (d, Err(BackendUnavailable)) else
    var last := Lookup(d, tk, call.clock);
    var tokens := Lookup(d, bk, call.clock);
    var (b, answer) := Step(c, State(if tokens.Some? then tokens.value else c.size as real,
                                     if last.Some? then last.value else now), call.event);
    (d[tk := Entry(now, call.clock + ttl as real)][bk := Entry(b.tokens, call.clock + ttl as real)], Ok(answer))
  }

  /**
   What a script finds and leaves, in the store's own terms: the stored tokens, or a full bucket, refilled
   since the stored time and capped at the size; of that `have`, a granted cost is taken and all else stays.
   */
  lemma ScriptOnStore(c: Config, prefix: string, ttl: nat, d: Data, key: string, n: real, op: Op, clock: real,
                      bk: string, tk: string, tokens: real, last: real, have: real)
    requires 0 < ttl && (op.Available? || (!op.Settle? && 0 < op.cost))
    requires bk == prefix + "bucket:" + key && tk == prefix + "timestamp:" + key
    requires tokens == if bk in d && clock < d[bk].expiresAt then d[bk].value else c.size as real
    requires last == if tk in d && clock < d[tk].expiresAt then d[tk].value else n
    requires have == var sum := tokens + (n - last) * c.rate; if sum <= c.size as real then sum else c.size as real
    ensures var taken := if !op.Available? && op.cost as real <= have then op.cost as real else 0.0;
      var (d', answer) := Exec(c, prefix, ttl, d, Call(key, Event(n, op), clock));
      && d' == d[tk := Entry(n, clock + ttl as real)][bk := Entry(have - taken, clock + ttl as real)]
      && answer == Ok(match op
           case Available => Tokens(Truncate(have))
           case Allow(cost) => if cost as real <= have then Granted else Refused
           case Reserve(cost) => if cost as real <= have then Granted else Wait(cost as real - have))
  {
    hide Refill, Accrued, Step, Truncate;
    RefillFrom(c, tokens, last, n);
    StepInPlace(c, State(tokens, last), n, op);
  }

  lemma RefillFrom(c: Config, tokens: real, last: real, n: real)
    ensures var sum := tokens + (n - last) * c.rate;
      Refill(c, State(tokens, last), n) == State(if sum <= c.size as real then sum else c.size as real, n)
  {
    RefillIs(c, State(tokens, last), n);
  }

  lemma StepInPlace(c: Config, b: State, n: real, op: Op)
    requires op.Available? || (!op.Settle? && 0 < op.cost)
    ensures var have := Refill(c, b, n).tokens;
      var taken := if !op.Available? && op.cost as real <= have then op.cost as real else 0.0;
      Step(c, b, Event(n, op)) == (State(have - taken, n), match op
           case Available => Tokens(Truncate(have))
           case Allow(cost) => if cost as real <= have then Granted else Refused
           case Reserve(cost) => if cost as real <= have then Granted else Wait(cost as real - have))
  {
    RefillIs(c, b, n);
    hide Refill;
  }

  /** Both keys of a caller's key are absent, or both were written by the same script run. */
  predicate Paired(prefix: string, d: Data, key: string) {
    var bk, tk := BucketKey(prefix, key), TimestampKey(prefix, key);
    (bk in d <==> tk in d) && (bk in d ==> d[bk].expiresAt == d[tk].expiresAt)
  }

  function ReadCell(prefix: string, d: Data, key: string): Option<Cell> {
    var bk, tk := BucketKey(prefix, key), TimestampKey(prefix, key);
    if bk in d && tk in d then Some(Cell(State(d[bk].value, d[tk].value), d[bk].expiresAt)) else None
  }

  /** On its own key a script run is one step of that key's bucket; other keys are untouched. */
  lemma ExecOneKey(c: Config, prefix: string, ttl: nat, d: Data, call: Call, key: string)
    requires 0 < ttl && IsScript(call.event)
    requires Paired(prefix, d, key)
    ensures var (d', answer) := Exec(c, prefix, ttl, d, call);
      && Paired(prefix, d', key)
      && answer.Ok?
      && (call.key == key ==> (ReadCell(prefix, d', key), answer.value) == CellStep(c, ttl, ReadCell(prefix, d, key), call))
      && (call.key != key ==> ReadCell(prefix, d', key) == ReadCell(prefix, d, key))
  {
    KeysIsolated(prefix, call.key, key);
    KeysIsolated(prefix, key, call.key);
    hide Step, BucketKey, TimestampKey;
    if call.key == key && Refills(call.event) {
      var s := ReadCell(prefix, d, key);
      var b := Load(c, s, call.event.now, call.clock);
      StepPotential(c, b, call.event);
      assert Step(c, b, call.event).0.last == call.event.now;
    }
  }

  function Only(calls: seq<Call>, key: string): seq<Call>
    decreases |calls|
  {
    if calls == [] then [] else
    (if calls[0].key == key then [calls[0]] else []) + Only(calls[1..], key)
  }

  /** The calls on one key, each as often as it was made. */
  lemma {:induction false} OnlyOwn(calls: seq<Call>, key: string, x: Call)
    ensures multiset(Only(calls, key))[x] == if x.key == key then multiset(calls)[x] else 0
    decreases |calls|
  {
    if calls != [] {
      assert calls == [calls[0]] + calls[1..];
      OnlyOwn(calls[1..], key, x);
    }
  }

  /** The answers a run over all keys gives to the calls on one of them. */
  function AnswersOn(c: Config, prefix: string, ttl: int, d: Data, calls: seq<Call>, key: string): seq<Result<Answer, Failure>>
    decreases |calls|
  {
    if calls == [] then [] else
    var (d', answer) := Exec(c, prefix, ttl, d, calls[0]);
    (if calls[0].key == key then [answer] else []) + AnswersOn(c, prefix, ttl, d', calls[1..], key)
  }

  function SpentOn(c: Config, prefix: string, ttl: int, d: Data, calls: seq<Call>, key: string): int
    decreases |calls|
  {
    if calls == [] then 0 else
    var (d', answer) := Exec(c, prefix, ttl, d, calls[0]);
    (if calls[0].key == key && answer == Ok(Granted) then Cost(calls[0].event.op) else 0)
    + SpentOn(c, prefix, ttl, d', calls[1..], key)
  }

  function Succeed(answers: seq<Answer>): seq<Result<Answer, Failure>> {
    seq(|answers|, i requires 0 <= i < |answers| => Ok(answers[i]))
  }

  predicate Scripts(calls: seq<Call>) {
    forall i :: 0 <= i < |calls| ==> IsScript(calls[i].event)
  }

  /**
   Key isolation over whole runs: whatever calls on other keys are interleaved, the calls on one
   key get the answers, and spend the tokens, of a bucket that belongs to that key alone.
   */
  lemma {:induction false} Projection(c: Config, prefix: string, ttl: nat, d: Data, calls: seq<Call>, key: string)
    requires 0 < ttl && Scripts(calls) && Paired(prefix, d, key)
    ensures AnswersOn(c, prefix, ttl, d, calls, key)
         == Succeed(CellAnswers(c, ttl, ReadCell(prefix, d, key), Only(calls, key)))
    ensures SpentOn(c, prefix, ttl, d, calls, key) == CellSpent(c, ttl, ReadCell(prefix, d, key), Only(calls, key))
    decreases |calls|
  {
    hide Exec, CellStep, Paired, ReadCell;
    if calls != [] {
      var call, rest := calls[0], calls[1..];
      assert IsScript(call.event);
      var (d', answer) := Exec(c, prefix, ttl, d, call);
      var s := ReadCell(prefix, d, key);
      ExecOneKey(c, prefix, ttl, d, call, key);
      Projection(c, prefix, ttl, d', rest, key);
      if call.key == key {
        assert Only(calls, key)[1..] == Only(rest, key);
        assert Only(calls, key)[0] == call;
      } else {
        assert Only(calls, key) == Only(rest, key);
      }
    }
  }

  const DEFAULT_EXPIRY := 86400.0

  /** The lifetime of the keys in whole seconds, from the configured duration. */
  function ExpirySeconds(keyExpiry: real): (n: int)
    ensures keyExpiry <= 0.0 ==> n == 86400
    ensures 0.0 < keyExpiry ==> n as real <= keyExpiry < n as real + 1.0
  {
    Truncate(if keyExpiry <= 0.0 then DEFAULT_EXPIRY else keyExpiry)
  }

  /**
   A call that reaches a script fails exactly when the configured lifetime is positive and under a
   second, whatever the store holds; it then writes nothing.
   */
  lemma ScriptsFailIff(c: Config, prefix: string, keyExpiry: real, d: Data, call: Call)
    requires Refills(call.event)
    ensures var (d', answer) := Exec(c, prefix, ExpirySeconds(keyExpiry), d, call);
      && (answer.Err? <==> 0.0 < keyExpiry < 1.0)
      && (answer.Err? ==> (d', answer) == (d, Err(BackendUnavailable)))
  {
    hide Step;
    assert keyExpiry < 1.0 <==> keyExpiry.Floor < 1;
    assert 0.0 < keyExpiry ==> 0 <= keyExpiry.Floor;
  }

  // ---------------------------------------------------------------- capacity under arbitrary clocks

  function Events(calls: seq<Call>): (es: seq<Event>)
    ensures |es| == |calls|
    ensures forall i :: 0 <= i < |calls| ==> es[i] == calls[i].event
    decreases |calls|
  {
    if calls == [] then [] else [calls[0].event] + Events(calls[1..])
  }

  /** Each call finds the keys the previous ones wrote. */
  predicate Unexpired(c: Config, ttl: nat, s: Option<Cell>, calls: seq<Call>)
    decreases |calls|
  {
    calls == [] ||
    (Live(s, calls[0].clock) && Unexpired(c, ttl, CellStep(c, ttl, s, calls[0]).0, calls[1..]))
  }

  /** As long as the keys are found, a run of scripts is a run of the bucket they store. */
  lemma {:induction false} UnexpiredIsBucket(c: Config, ttl: nat, s: Option<Cell>, calls: seq<Call>)
    requires s.Some? && Unexpired(c, ttl, s, calls) && Scripts(calls)
    ensures CellAnswers(c, ttl, s, calls) == Answers(c, s.value.bucket, Events(calls))
    ensures CellSpent(c, ttl, s, calls) == TotalSpent(c, s.value.bucket, Events(calls))
    decreases |calls|
  {
    if calls != [] {
      assert IsScript(calls[0].event);
      var s' := CellStep(c, ttl, s, calls[0]).0;
      assert Events(calls)[1..] == Events(calls[1..]);
      assert s'.value.bucket == Step(c, s.value.bucket, calls[0].event).0;
      UnexpiredIsBucket(c, ttl, s', calls[1..]);
    }
  }

  /** A script run that refills finds or makes a bucket; the run from there is a bucket run. */
  lemma FirstCallStarts(c: Config, ttl: nat, s: Option<Cell>, calls: seq<Call>)
    requires 0 < |calls| && Scripts(calls) && Refills(calls[0].event)
    requires Unexpired(c, ttl, CellStep(c, ttl, s, calls[0]).0, calls[1..])
    ensures var b := Load(c, s, calls[0].event.now, calls[0].clock);
      && CellSpent(c, ttl, s, calls) == TotalSpent(c, b, Events(calls))
      && CellAnswers(c, ttl, s, calls) == Answers(c, b, Events(calls))
  {
    hide Step;
    var b := Load(c, s, calls[0].event.now, calls[0].clock);
    var s' := CellStep(c, ttl, s, calls[0]).0;
    UnexpiredIsBucket(c, ttl, s', calls[1..]);
    assert Events(calls)[1..] == Events(calls[1..]);
  }

  lemma {:induction false} AnswersAreSteps(c: Config, b: State, es: seq<Event>, i: nat)
    requires i < |es|
    ensures Answers(c, b, es)[i] == AnswerAt(c, b, es, i)
    decreases |es|
  {
    hide Step;
    if i == 0 {
      assert es[..0] == [];
    } else {
      AnswersAreSteps(c, Step(c, b, es[0]).0, es[1..], i - 1);
      assert es[..i][1..] == es[1..][..i - 1];
    }
  }

  /**
   Distributed capacity: on one key, for any readings of the time, even ones that go back, and with
   no expiry in between, the tokens deducted from a refilling call i through a granting call j are
   within bucket_size + rate * (now_j - now_i).
   */
  lemma CellBound(c: Config, ttl: nat, s: Option<Cell>, calls: seq<Call>)
    requires 0 < |calls| && Scripts(calls) && Refills(calls[0].event) && Refills(calls[|calls| - 1].event)
    requires Unexpired(c, ttl, CellStep(c, ttl, s, calls[0]).0, calls[1..])
    requires CellAnswers(c, ttl, s, calls)[|calls| - 1] == Granted
    ensures CellSpent(c, ttl, s, calls) as real
         <= c.size as real + Accrued(calls[0].event.now, calls[|calls| - 1].event.now, c.rate)
  {
    hide Step, Accrued, CellStep;
    var b := Load(c, s, calls[0].event.now, calls[0].clock);
    var es := Events(calls);
    FirstCallStarts(c, ttl, s, calls);
    AnswersAreSteps(c, b, es, |es| - 1);
    GrantEndingBound(c, b, es);
  }

  /** The same bound read off a store that many keys share. */
  lemma DistributedBound(c: Config, prefix: string, ttl: nat, d: Data, calls: seq<Call>, key: string)
    requires 0 < ttl && Scripts(calls) && Paired(prefix, d, key)
    requires var own := Only(calls, key); var answers := AnswersOn(c, prefix, ttl, d, calls, key);
      && 0 < |own| == |answers|
      && Refills(own[0].event) && Refills(own[|own| - 1].event) && answers[|own| - 1] == Ok(Granted)
      && Unexpired(c, ttl, CellStep(c, ttl, ReadCell(prefix, d, key), own[0]).0, own[1..])
    ensures var own := Only(calls, key);
      SpentOn(c, prefix, ttl, d, calls, key) as real
      <= c.size as real + Accrued(own[0].event.now, own[|own| - 1].event.now, c.rate)
  {
    hide Exec, CellStep, Unexpired, Paired, ReadCell, Accrued, Step;
    var own := Only(calls, key);
    Projection(c, prefix, ttl, d, calls, key);
    OnlyScripts(calls, key);
    CellBound(c, ttl, ReadCell(prefix, d, key), own);
  }

  lemma {:induction false} OnlyScripts(calls: seq<Call>, key: string)
    requires Scripts(calls)
    ensures Scripts(Only(calls, key))
    decreases |calls|
  {
    if calls != [] {
      OnlyScripts(calls[1..], key);
      assert IsScript(calls[0].event);
    }
  }

  /** Whole-second readings cost at most one extra second of rate against the real time that passed. */
  lemma WholeSecondBound(c: Config, ttl: nat, s: Option<Cell>, calls: seq<Call>, ti: real, tj: real)
    requires c.Valid() && 0 < |calls| && Scripts(calls)
    requires Refills(calls[0].event) && Refills(calls[|calls| - 1].event)
    requires Unexpired(c, ttl, CellStep(c, ttl, s, calls[0]).0, calls[1..])
    requires CellAnswers(c, ttl, s, calls)[|calls| - 1] == Granted
    requires calls[0].event.now == ti.Floor as real && calls[|calls| - 1].event.now == tj.Floor as real
    ensures CellSpent(c, ttl, s, calls) as real <= c.size as real + Accrued(ti, tj, c.rate) + c.rate
  {
    hide Step, CellStep;
    CellBound(c, ttl, s, calls);
    FloorAccrual(ti, tj, c.rate);
  }

  lemma FloorAccrual(ti: real, tj: real, rate: real)
    requires 0.0 <= rate
    ensures Accrued(ti.Floor as real, tj.Floor as real, rate) <= Accrued(ti, tj, rate) + rate
  {
    var a, b := ti.Floor as real, tj.Floor as real;
    assert a <= ti < a + 1.0 && b <= tj < b + 1.0;
    AccruedAdds(a, ti, tj, rate);
    AccruedAdds(a, b, tj, rate);
    AccruedNonNegative(b, tj, rate);
    AccruedNonNegative(ti, a + 1.0, rate);
    AccruedAdds(a, ti, a + 1.0, rate);
    assert Accrued(a, a + 1.0, rate) == rate;
  }
}
