/** What every run of the worker guarantees. */
module WorkerTheorems {
  import opened Common
  import Bucket
  import Fifo
  import opened WorkerSystem
  import opened WorkerPlaces
  import opened WorkerAccounting
  import opened WorkerLog

  // ---------------------------------------------------------------- conservation and replies

  /** EnqueueRequest put the request into the queue. */
  predicate Accepted(s: System, id: string) {
    id in s.requests && !s.requests[id].place.Submitting? && !s.requests[id].place.Withdrawing? && !s.requests[id].place.Rejected?
  }

  /** A job that still has to settle the request. */
  predicate Serves(s: System, j: nat, id: string) {
    j in s.jobs && s.jobs[j].item.id == id && Owner(s.jobs[j].phase)
  }

  /** The loop is about to start a job for it, or a job has it and has not settled it. */
  ghost predicate InFlight(s: System, id: string) {
    (s.loop.Launch? && s.loop.item.id == id) || (exists j :: Serves(s, j, id))
  }

  predicate WasAnswered(s: System, id: string) {
    id in s.inboxes && s.inboxes[id].sent == 1
  }

  predicate HasExpired(s: System, id: string) {
    id in s.requests && s.requests[id].place.Expired?
  }

  function One(b: bool): nat {
    if b then 1 else 0
  }

  lemma WhereQueued(s: System, id: string)
    requires Placed(s)
    ensures InQueue(s.queue, id) <==> id in s.requests && s.requests[id].place.Queued?
  {
    hide LoopInv, JobsInv, BoxInv, RegistryInv;
  }

  lemma WhereInFlight(s: System, id: string)
    requires Placed(s)
    ensures InFlight(s, id) <==> id in s.requests && (s.requests[id].place.Launching? || s.requests[id].place.InJob?)
  {
    hide QueueInv, BoxInv, RegistryInv;
    if id in s.requests && s.requests[id].place.InJob? {
      assert Serves(s, s.requests[id].place.job, id);
    }
    forall j | Serves(s, j, id) ensures id in s.requests && s.requests[id].place.InJob? {
      assert JobInv(s, j);
    }
  }

  lemma WhereAnswered(s: System, id: string)
    requires Placed(s)
    ensures WasAnswered(s, id) <==> id in s.requests && HasReply(s.requests[id].place)
    ensures id in s.inboxes ==> s.inboxes[id].sent <= 1
  {
    hide QueueInv, LoopInv, JobsInv, RegistryInv;
  }

  /**
   Conservation: in every reachable state an accepted request is in exactly one of queued, in flight,
   answered or expired, and a request that was not accepted is in none of them.
   */
  lemma Conservation(c: Settings, start: real, ls: seq<Label>, id: string)
    requires c.Valid()
    ensures var s := Reached(c, start, ls);
      One(InQueue(s.queue, id)) + One(InFlight(s, id)) + One(WasAnswered(s, id)) + One(HasExpired(s, id))
      == One(Accepted(s, id))
  {
    var s := Reached(c, start, ls);
    ReachedGood(c, start, ls);
    hide Placed, Reached, InFlight, InQueue, WasAnswered;
    WhereQueued(s, id);
    WhereInFlight(s, id);
    WhereAnswered(s, id);
  }

  /** It has one place in that part of the system: one position in the queue, or one holder. */
  lemma OneHolder(c: Settings, start: real, ls: seq<Label>)
    requires c.Valid()
    ensures var s := Reached(c, start, ls);
      && (forall i, k :: 0 <= i < k < |s.queue| ==> s.queue[i].id != s.queue[k].id)
      && (forall i, j, id :: Serves(s, i, id) && Serves(s, j, id) ==> i == j)
      && (forall j, id :: Serves(s, j, id) ==> !(s.loop.Launch? && s.loop.item.id == id))
  {
    var s := Reached(c, start, ls);
    ReachedGood(c, start, ls);
    hide Reached, BoxInv, RegistryInv;
    forall i, id | Serves(s, i, id) ensures id in s.requests && s.requests[id].place == InJob(i) {
      assert JobInv(s, i);
    }
  }

  /**
   At most one reply: in every reachable state at most one value was ever sent on a request's
   channel, and a job about to send finds the one-slot buffer empty, whether or not the client
   still listens.
   */
  lemma AtMostOneReply(c: Settings, start: real, ls: seq<Label>)
    requires c.Valid()
    ensures var s := Reached(c, start, ls);
      && (forall id :: id in s.inboxes ==> s.inboxes[id].sent <= 1)
      && (forall j :: j in s.jobs && s.jobs[j].phase.Reply? ==>
            s.jobs[j].item.id in s.inboxes && s.inboxes[s.jobs[j].item.id].buffered == 0)
  {
    var s := Reached(c, start, ls);
    ReachedGood(c, start, ls);
    hide Placed, Reached;
    forall id | id in s.inboxes ensures s.inboxes[id].sent <= 1 {
      WhereAnswered(s, id);
    }
    forall j | j in s.jobs && s.jobs[j].phase.Reply? ensures
      s.jobs[j].item.id in s.inboxes && s.inboxes[s.jobs[j].item.id].buffered == 0
    {
      ReplyEnabled(s, j);
    }
  }

  /**
   The registry in every reachable state: it holds the channel of each request that is queued, in
   flight, expired, or on its way into or out of EnqueueRequest, and otherwise only of answered ones
   whose job is about to remove it.
   */
  lemma RegistryExact(c: Settings, start: real, ls: seq<Label>, id: string)
    requires c.Valid()
    ensures var s := Reached(c, start, ls);
      id in s.registry <==>
        || InQueue(s.queue, id) || InFlight(s, id) || HasExpired(s, id)
        || At(s, id, Submitting) || At(s, id, Withdrawing)
        || (exists j :: j in s.jobs && s.jobs[j].phase.Unregister? && s.jobs[j].item.id == id)
  {
    var s := Reached(c, start, ls);
    ReachedGood(c, start, ls);
    hide Reached;
    WhereQueued(s, id);
    WhereInFlight(s, id);
    hide InFlight, InQueue, QueueInv, LoopInv, BoxInv;
    if id in s.requests && s.requests[id].place.Replied? {
      var j := s.requests[id].place.job;
      assert j in s.jobs && s.jobs[j].phase.Unregister? && s.jobs[j].item.id == id;
    }
    forall j | j in s.jobs && s.jobs[j].phase.Unregister? && s.jobs[j].item.id == id
      ensures id in s.requests && s.requests[id].place == Replied(j)
    {
      assert JobInv(s, j);
    }
  }

  // ---------------------------------------------------------------- expired requests

  lemma JobLeavesExpired(c: Settings, s: System, j: nat, stamp: real, after: real, id: string)
    requires Placed(s) && HasExpired(s, id) && j in s.jobs
    ensures HasExpired(JobNext(c, s, j, stamp, after), id)
  {
    hide Placed, Bucket.Step;
    assert JobInv(s, j) by { JobOwns(s, j); }
    match s.jobs[j].phase
    case Limit(_) => hide Move;
    case _ =>
  }

  lemma NextLeavesExpired(c: Settings, s: System, l: Label, id: string)
    requires Placed(s) && HasExpired(s, id)
    ensures HasExpired(Next(c, s, l), id)
  {
    hide Placed, LoopNext, JobNext;
    match l
    case JobStep(j, stamp, after) => if j in s.jobs { JobLeavesExpired(c, s, j, stamp, after, id); }
    case LoopStep => LoopLeavesExpired(c, s, id);
    case _ =>
  }

  lemma LoopLeavesExpired(c: Settings, s: System, id: string)
    requires Placed(s) && HasExpired(s, id)
    ensures HasExpired(LoopNext(c, s), id)
  {
    hide JobsInv, BoxInv, RegistryInv, Fifo.Without, Fifo.FirstReady;
    assert s.loop.Launch? ==> s.loop.item.id != id;
    assert forall i :: 0 <= i < |s.queue| ==> s.queue[i].id != id;
    hide QueueInv, LoopInv;
  }

  /** TTL cleanup does not unregister: the channel of an expired request stays registered for good, and gets no reply. */
  lemma {:induction false} ExpiredStaysRegistered(c: Settings, s: System, ls: seq<Label>, id: string)
    requires Placed(s) && HasExpired(s, id)
    ensures var s' := Run(c, s, ls); HasExpired(s', id) && id in s'.registry && id in s'.inboxes && s'.inboxes[id].sent == 0
    decreases |ls|
  {
    if ls == [] {
      hide QueueInv, LoopInv, JobsInv;
    } else {
      hide Placed, Next, HasExpired;
      NextPlaced(c, s, ls[0]);
      NextLeavesExpired(c, s, ls[0], id);
      ExpiredStaysRegistered(c, Next(c, s, ls[0]), ls[1..], id);
    }
  }

  /** Submitted at the start and never served: after one TTL the cleanup drops it and it stays registered. */
  lemma ExpiredReached(c: Settings, start: real, id: string, cost: int)
    requires c.Valid() && 0 < c.maxSize
    ensures var end := start + c.itemTTL;
      var s := Reached(c, start, [Register(id, cost), Submit(id, start), Tick(end), Cleanup(end)]);
      HasExpired(s, id) && id in s.registry
  {
    var end := start + c.itemTTL;
    var l1, l2, l3, l4 := Register(id, cost), Submit(id, start), Tick(end), Cleanup(end);
    var s1 := Next(c, Init(c, start), l1);
    var s2 := Next(c, s1, l2);
    assert s2.queue == [FirstItem(id, cost, start)] && At(s2, id, Queued) && id in s2.registry;
    var s3 := Next(c, s2, l3);
    assert s3 == s2.(clock := end);
    Fifo.UnexpiredOne(FirstItem(id, cost, start), c.itemTTL, end);
    var s4 := Next(c, s3, l4);
    assert s4.queue == [] && HasExpired(s4, id) && id in s4.registry;
    hide Next;
    RunFour(c, Init(c, start), l1, l2, l3, l4);
  }

  lemma RunFour(c: Settings, s: System, l1: Label, l2: Label, l3: Label, l4: Label)
    ensures Run(c, s, [l1, l2, l3, l4]) == Next(c, Next(c, Next(c, Next(c, s, l1), l2), l3), l4)
  {
    hide Next;
    assert [l1, l2, l3, l4][1..] == [l2, l3, l4] && [l2, l3, l4][1..] == [l3, l4];
    assert [l3, l4][1..] == [l4] && [l4][1..] == [];
    var s2 := Next(c, Next(c, s, l1), l2);
    assert Run(c, s, [l1, l2, l3, l4]) == Run(c, Next(c, s, l1), [l2, l3, l4]) == Run(c, s2, [l3, l4]);
    assert Run(c, s2, [l3, l4]) == Run(c, Next(c, s2, l3), [l4]);
  }

  /**
   Every refusal restarts the TTL: an item that waits in the queue again was stamped no earlier than
   the last refusal of its request, so a cleanup takes it only a whole TTL after that refusal.
   */
  lemma RefusalRestartsTTL(c: Settings, start: real, ls: seq<Label>, i: nat, k: nat, now: real)
    requires c.Valid() && i < |Reached(c, start, ls).queue| && k < |Reached(c, start, ls).log|
    requires Reached(c, start, ls).log[k].id == Reached(c, start, ls).queue[i].id
    ensures var s := Reached(c, start, ls); var x := s.queue[i];
      && !s.log[k].granted
      && x.enqueueTime.Some? && s.log[k].at <= x.enqueueTime.value
      && (!Fifo.Kept(x, c.itemTTL, now) ==> s.log[k].at + c.itemTTL <= now)
  {
    var s := Reached(c, start, ls);
    ReachedGood(c, start, ls);
    hide Reached, LoopInv, JobsInv, BoxInv, RegistryInv, JobLog, Spaced;
    assert EntryInv(c, s, k);
    assert s.requests[s.queue[i].id].place == Queued;
  }

  // ---------------------------------------------------------------- charges

  /** The cost of all hand-overs to the LLM service whose grant fell in [from, to], each one counted. */
  function HandedIn(log: seq<Entry>, from: real, to: real): int {
    if log == [] then 0 else
    var e := log[|log| - 1];
    HandedIn(log[..|log| - 1], from, to) + (if from <= e.at <= to then e.handed * e.cost else 0)
  }

  lemma {:induction false} HandedUpdate(log: seq<Entry>, k: nat, from: real, to: real)
    requires k < |log|
    ensures HandedIn(log[k := log[k].(handed := log[k].handed + 1)], from, to)
         == HandedIn(log, from, to) + if from <= log[k].at <= to then log[k].cost else 0
    decreases |log|
  {
    var n := |log| - 1;
    var log' := log[k := log[k].(handed := log[k].handed + 1)];
    if k == n {
      assert log'[..n] == log[..n];
      assert (log[k].handed + 1) * log[k].cost == log[k].handed * log[k].cost + log[k].cost;
    } else {
      assert log'[..n] == log[..n][k := log[k].(handed := log[k].handed + 1)];
      HandedUpdate(log[..n], k, from, to);
    }
  }

  /** Every step that hands a request over adds exactly its cost, in the windows its grant fell in. */
  lemma HandOverCounts(c: Settings, start: real, ls: seq<Label>, j: nat, stamp: real, after: real, from: real, to: real)
    requires c.Valid() && j in Reached(c, start, ls).jobs && Reached(c, start, ls).jobs[j].phase.Dispatch?
    ensures var s := Reached(c, start, ls); var k := s.jobs[j].phase.entry;
      && k < |s.log| && s.log[k].id == s.jobs[j].item.id
      && HandedIn(Next(c, s, JobStep(j, stamp, after)).log, from, to)
         == HandedIn(s.log, from, to) + if from <= s.log[k].at <= to then s.log[k].cost else 0
  {
    hide *;
    var s := Reached(c, start, ls);
    ReachedGood(c, start, ls);
    DispatchEntry(c, start, s, j, stamp, after);
    HandedUpdate(s.log, s.jobs[j].phase.entry, from, to);
  }

  lemma DispatchEntry(c: Settings, start: real, s: System, j: nat, stamp: real, after: real)
    requires Good(c, start, s) && j in s.jobs && s.jobs[j].phase.Dispatch?
    ensures var k := s.jobs[j].phase.entry;
      && k < |s.log| && s.log[k].id == s.jobs[j].item.id
      && Next(c, s, JobStep(j, stamp, after)).log == s.log[k := s.log[k].(handed := s.log[k].handed + 1)]
  {
    hide Placed, Replayed, EntryInv, Spaced, AskLimiter, RequeueStep, ReplyStep, UnregisterStep, FetchStep;
    assert JobLog(s, j);
  }

  lemma {:induction false} WindowAppend(c: Bucket.Config, b: Bucket.State, es: seq<Bucket.Event>, e: Bucket.Event, from: real, to: real)
    ensures Bucket.WindowSpent(c, b, es + [e], from, to)
         == Bucket.WindowSpent(c, b, es, from, to)
            + (if from <= e.now <= to then Bucket.Spent(c, Bucket.Run(c, b, es), e) else 0)
    decreases |es|
  {
    hide Bucket.Step, Bucket.Spent;
    if es == [] {
      assert es + [e] == [e] && [e][1..] == [];
      assert Bucket.WindowSpent(c, Bucket.Step(c, b, e).0, [], from, to) == 0;
    } else {
      assert (es + [e])[0] == es[0] && (es + [e])[1..] == es[1..] + [e];
      WindowAppend(c, Bucket.Step(c, b, es[0]).0, es[1..], e, from, to);
    }
  }

  lemma EntryFacts(c: Settings, s: System, k: nat)
    requires Logged(c, s) && k < |s.log|
    ensures 0 < s.log[k].cost && s.log[k].handed <= (if s.log[k].granted then 1 else 0)
  {
    assert EntryInv(c, s, k);
  }

  lemma {:induction false} HandedWasSpent(c: Settings, start: real, s: System, n: nat, from: real, to: real)
    requires Replayed(c, start, s) && Logged(c, s) && n <= |s.log|
    ensures HandedIn(s.log[..n], from, to)
         <= Bucket.WindowSpent(c.bucket, Start(c, start), Events(s.log)[..n], from, to)
    decreases n
  {
    hide Bucket.Step, Logged;
    if 0 < n {
      var es := Events(s.log);
      HandedWasSpent(c, start, s, n - 1, from, to);
      assert s.log[..n][..n - 1] == s.log[..n - 1];
      assert es[..n] == es[..n - 1] + [es[n - 1]];
      WindowAppend(c.bucket, Start(c, start), es[..n - 1], es[n - 1], from, to);
      EntryFacts(c, s, n - 1);
      assert s.log[n - 1].granted <==> Bucket.AnswerAt(c.bucket, Start(c, start), es, n - 1) == Bucket.Granted;
    } else {
      assert s.log[..0] == [] && Events(s.log)[..0] == [];
    }
  }

  lemma OnlyAllows(log: seq<Entry>)
    ensures Bucket.NoSettle(Events(log))
  {}

  /**
   End to end: for every interleaving and every window [from, to], the requests handed to the LLM
   service whose Allow fell in the window cost together at most bucketSize + tokensPerSecond * (to - from).
   */
  lemma HandedWithinRate(c: Settings, start: real, ls: seq<Label>, from: real, to: real)
    requires c.Valid() && from <= to
    ensures HandedIn(Reached(c, start, ls).log, from, to) as real
         <= c.bucket.size as real + Accrued(from, to, c.bucket.rate)
  {
    var s := Reached(c, start, ls);
    ReachedGood(c, start, ls);
    var es := Events(s.log);
    assert s.log[..|s.log|] == s.log && es[..|es|] == es;
    hide Reached, Logged, Placed, Bucket.Run, Accrued, Bucket.WindowSpent, HandedIn;
    HandedWasSpent(c, start, s, |s.log|, from, to);
    OnlyAllows(s.log);
    Bucket.WindowBound(c.bucket, Start(c, start), es, from, to);
  }

  /**
   Each request is charged its own cost at most once over all its retries; it is handed over at most
   once, and only if it was charged; every decision on it before that was a refusal, which took nothing.
   A job that is about to hand a request over holds a grant that was not handed over yet.
   */
  lemma ChargedOnce(c: Settings, start: real, ls: seq<Label>)
    requires c.Valid()
    ensures var s := Reached(c, start, ls);
      && (forall k :: 0 <= k < |s.log| ==>
            && s.log[k].id in s.requests && s.log[k].cost == s.requests[s.log[k].id].cost
            && s.log[k].handed <= (if s.log[k].granted then 1 else 0)
            && Bucket.Spent(c.bucket, Bucket.Before(c.bucket, Start(c, start), Events(s.log), k), EventOf(s.log[k]))
               == if s.log[k].granted then s.log[k].cost else 0)
      && (forall i, k :: 0 <= i < k < |s.log| && s.log[i].id == s.log[k].id ==> !s.log[i].granted)
      && (forall j :: j in s.jobs && s.jobs[j].phase.Dispatch? ==>
            var k := s.jobs[j].phase.entry;
            k < |s.log| && s.log[k].id == s.jobs[j].item.id && s.log[k].granted && s.log[k].handed == 0)
  {
    var s := Reached(c, start, ls);
    ReachedGood(c, start, ls);
    hide Reached, Placed, Bucket.Step, Bucket.Run;
    forall k | 0 <= k < |s.log|
      ensures s.log[k].id in s.requests && s.log[k].cost == s.requests[s.log[k].id].cost
      ensures s.log[k].handed <= (if s.log[k].granted then 1 else 0)
      ensures Bucket.Spent(c.bucket, Bucket.Before(c.bucket, Start(c, start), Events(s.log), k), EventOf(s.log[k]))
              == if s.log[k].granted then s.log[k].cost else 0
    {
      assert EntryInv(c, s, k);
      assert s.log[k].granted <==> Bucket.AnswerAt(c.bucket, Start(c, start), Events(s.log), k) == Bucket.Granted;
    }
    forall j | j in s.jobs ensures JobLog(s, j) {}
  }

  /** A request that costs more than the bucket holds is never handed over, however often it is retried. */
  lemma AboveSizeNeverHanded(c: Settings, start: real, ls: seq<Label>, k: nat)
    requires c.Valid() && k < |Reached(c, start, ls).log|
    requires c.bucket.size < Reached(c, start, ls).log[k].cost
    ensures !Reached(c, start, ls).log[k].granted && Reached(c, start, ls).log[k].handed == 0
  {
    var s := Reached(c, start, ls);
    ReachedGood(c, start, ls);
    hide Reached, Placed;
    EntryFacts(c, s, k);
    Bucket.NeverGrantedAboveSize(c.bucket, Bucket.Before(c.bucket, Start(c, start), Events(s.log), k), s.log[k].at, s.log[k].cost);
    hide Logged, Bucket.Step, Bucket.Run;
    assert s.log[k].granted <==> Bucket.AnswerAt(c.bucket, Start(c, start), Events(s.log), k) == Bucket.Granted;
  }

  // ---------------------------------------------------------------- retries

  /** The positions in [lo, hi) of the decisions on one request. */
  function Decisions(log: seq<Entry>, id: string, lo: nat, hi: nat): (r: seq<nat>)
    requires lo <= hi <= |log|
    ensures forall i :: 0 <= i < |r| ==> lo <= r[i] < hi && log[r[i]].id == id
    ensures forall i :: 0 < i < |r| ==> r[i - 1] < r[i]
    ensures forall k :: lo <= k < hi && log[k].id == id ==> k in r
    decreases hi
  {
    if lo == hi then [] else
    Decisions(log, id, lo, hi - 1) + (if log[hi - 1].id == id then [hi - 1] else [])
  }

  lemma SegmentAnswers(c: Bucket.Config, b: Bucket.State, es: seq<Bucket.Event>, lo: nat, hi: nat, k: nat)
    requires lo <= hi <= |es| && k < hi - lo
    ensures Bucket.AnswerAt(c, Bucket.Before(c, b, es, lo), es[lo..hi], k) == Bucket.AnswerAt(c, b, es, lo + k)
  {
    hide Bucket.Step;
    assert es[lo..hi][..k] == es[lo..lo + k];
    assert es[..lo] + es[lo..lo + k] == es[..lo + k];
    Bucket.RunAppend(c, b, es[..lo], es[lo..lo + k]);
  }

  lemma SegmentMonotone(c: Bucket.Config, b: Bucket.State, es: seq<Bucket.Event>, lo: nat, hi: nat)
    requires c.Valid() && 0.0 <= b.tokens <= c.size as real && Bucket.Monotone(b.last, es) && lo < hi <= |es|
    ensures var b' := Bucket.Before(c, b, es, lo);
      Bucket.Monotone(b'.last, es[lo..hi]) && 0.0 <= b'.tokens <= c.size as real
  {
    Bucket.MonotonePrefix(b.last, es, hi);
    Bucket.MonotoneSuffix(b.last, es[..hi], lo);
    assert es[..hi][lo..] == es[lo..hi];
    Bucket.BeforeRange(c, b, es, lo);
    Bucket.MonotoneWeaken(Bucket.Before(c, b, es, lo).last, es[lo].now, es[lo..hi]);
  }

  /**
   Retry progress: while the limiter grants nothing to anyone, a request whose cost fits the bucket is
   refused at most ceil(cost / (tokensPerSecond * RetryDelay)) times.
   */
  lemma {:induction false} RefusedOftenIsGranted(c: Settings, start: real, ls: seq<Label>, id: string, lo: nat, hi: nat)
    requires c.Valid() && id in Reached(c, start, ls).requests
    requires Reached(c, start, ls).requests[id].cost <= c.bucket.size
    requires lo <= hi <= |Reached(c, start, ls).log|
    requires forall k :: lo <= k < hi ==> !Reached(c, start, ls).log[k].granted
    ensures 0.0 < c.bucket.rate * c.retryDelay
    ensures Decisions(Reached(c, start, ls).log, id, lo, hi) == [] ||
      |Decisions(Reached(c, start, ls).log, id, lo, hi)|
      <= Bucket.MaxRefusals(c.bucket.rate, Reached(c, start, ls).requests[id].cost, c.retryDelay)
  {
    var s := Reached(c, start, ls);
    ReachedGood(c, start, ls);
    PositiveProduct(c.bucket.rate, c.retryDelay);
    hide Reached, Placed, Bucket.Step, Bucket.Run, Bucket.MaxRefusals;
    var all := Decisions(s.log, id, lo, hi);
    if all != [] {
      var cost := s.requests[id].cost;
      var b, es := Start(c, start), Events(s.log);
      var picks := seq(|all|, i requires 0 <= i < |all| => all[i] - lo);
      SegmentMonotone(c.bucket, b, es, lo, hi);
      forall k | 0 <= k < hi - lo
        ensures Bucket.AnswerAt(c.bucket, Bucket.Before(c.bucket, b, es, lo), es[lo..hi], k) != Bucket.Granted
      {
        SegmentAnswers(c.bucket, b, es, lo, hi, k);
        assert !s.log[lo + k].granted;
      }
      DecisionsAreRetries(c, s, id, lo, hi, picks);
      hide Logged, Bucket.AnswerAt;
      Bucket.RefusalsBounded(c.bucket, Bucket.Before(c.bucket, b, es, lo), es[lo..hi], picks, cost, c.retryDelay);
    }
  }

  /** The same without a quotient: over the retry delays between n such refusals less than the cost accrues. */
  lemma RefusalsAccrue(c: Settings, start: real, ls: seq<Label>, id: string, lo: nat, hi: nat)
    requires c.Valid() && id in Reached(c, start, ls).requests
    requires Reached(c, start, ls).requests[id].cost <= c.bucket.size
    requires lo <= hi <= |Reached(c, start, ls).log|
    requires forall k :: lo <= k < hi ==> !Reached(c, start, ls).log[k].granted
    ensures var s := Reached(c, start, ls); var n := |Decisions(s.log, id, lo, hi)|;
      n == 0 || (n - 1) as real * (c.bucket.rate * c.retryDelay) < s.requests[id].cost as real
  {
    hide *;
    RefusedOftenIsGranted(c, start, ls, id, lo, hi);
    var s := Reached(c, start, ls);
    Bucket.MaxRefusalsIs(c.bucket.rate, s.requests[id].cost, c.retryDelay, |Decisions(s.log, id, lo, hi)|);
  }

  lemma EntryCost(c: Settings, s: System, k: nat)
    requires Logged(c, s) && k < |s.log|
    ensures s.log[k].id in s.requests && s.log[k].cost == s.requests[s.log[k].id].cost && 0 < s.log[k].cost
  {
    assert EntryInv(c, s, k);
    hide GrantedAt, RefusedAt;
  }

  /** Two decisions on one request are at least the retry delay apart, and every decision charges its cost. */
  lemma DecisionsSpaced(c: Settings, s: System, id: string, all: seq<nat>)
    requires Logged(c, s) && id in s.requests
    requires forall i :: 0 <= i < |all| ==> all[i] < |s.log| && s.log[all[i]].id == id
    requires forall i :: 0 < i < |all| ==> all[i - 1] < all[i]
    ensures forall i :: 0 <= i < |all| ==> s.log[all[i]].cost == s.requests[id].cost
    ensures all != [] ==> 0 < s.requests[id].cost
    ensures forall i :: 0 < i < |all| ==> s.log[all[i - 1]].at + c.retryDelay <= s.log[all[i]].at
  {
    hide JobLog, EntryInv;
    assert Spaced(c, s.log);
    forall i | 0 <= i < |all| ensures s.log[all[i]].cost == s.requests[id].cost && 0 < s.log[all[i]].cost {
      EntryCost(c, s, all[i]);
    }
    if all != [] {
      EntryCost(c, s, all[0]);
    }
  }

  lemma {:induction false} DecisionsAreRetries(c: Settings, s: System, id: string, lo: nat, hi: nat, picks: seq<nat>)
    requires Logged(c, s) && lo <= hi <= |s.log| && id in s.requests
    requires var all := Decisions(s.log, id, lo, hi); all != [] && |picks| == |all| && forall i :: 0 <= i < |all| ==> picks[i] == all[i] - lo
    ensures 0 < s.requests[id].cost
    ensures Bucket.Retries(Events(s.log)[lo..hi], picks, s.requests[id].cost, c.retryDelay)
  {
    hide Logged, Decisions, Events;
    var all := Decisions(s.log, id, lo, hi);
    var es := Events(s.log)[lo..hi];
    DecisionsSpaced(c, s, id, all);
    forall i | 0 <= i < |picks| ensures picks[i] < |es| && es[picks[i]] == EventOf(s.log[all[i]]) {}
  }

  // ---------------------------------------------------------------- progress and stopping

  /** In every reachable state every job can take its next step, and needs at most eight to be over. */
  lemma JobsAlwaysProgress(c: Settings, start: real, ls: seq<Label>, j: nat)
    requires c.Valid() && j in Reached(c, start, ls).jobs
    ensures var s := Reached(c, start, ls); var s' := JobNext(c, s, j, s.clock, s.clock);
      && Rank(s.jobs[j].phase) <= 8
      && (j !in s'.jobs || Rank(s'.jobs[j].phase) < Rank(s.jobs[j].phase))
  {
    var s := Reached(c, start, ls);
    ReachedGood(c, start, ls);
    assert Counted(c, s) by {
      var s0 := Init(c, start);
      assert Holders(s0.jobs) == {};
      hide Placed, Logged, Replayed;
      RunCounted(c, s0, ls);
    }
    assert JobLog(s, j);
    hide Placed, Counted, Logged, Replayed, Reached, JobNext;
    JobNeverBlocks(c, s, j);
  }
}
