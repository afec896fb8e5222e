/**
 When Stop can return. The loop looks at the stop channel only between two Dequeue calls, and an
 in-memory Dequeue on an empty queue waits until something is queued or the context is canceled.
 */
module WorkerStop {
  import opened Common
  import Bucket
  import Fifo
  import opened WorkerSystem
  import opened WorkerPlaces
  import opened WorkerAccounting
  import opened WorkerLog

  /** No client puts a request into the queue, and nobody cancels the context. */
  predicate NothingArrives(ls: seq<Label>) {
    forall i :: 0 <= i < |ls| ==> !ls[i].Submit? && !ls[i].ContextCanceled?
  }

  // ---------------------------------------------------------------- sums over the jobs

  function Sum(weight: Job -> nat, jobs: map<nat, Job>, n: nat): nat {
    if n == 0 then 0 else Sum(weight, jobs, n - 1) + WeightAt(weight, jobs, n - 1)
  }

  function WeightAt(weight: Job -> nat, jobs: map<nat, Job>, j: nat): nat {
    if j in jobs then weight(jobs[j]) else 0
  }

  predicate OnlyJob(jobs: map<nat, Job>, jobs': map<nat, Job>, j: nat) {
    && (forall k :: k in jobs && k != j ==> k in jobs' && jobs'[k] == jobs[k])
    && (forall k :: k in jobs' && k != j ==> k in jobs)
  }

  lemma {:induction false} SumChanges(weight: Job -> nat, jobs: map<nat, Job>, jobs': map<nat, Job>, j: nat, n: nat)
    requires OnlyJob(jobs, jobs', j)
    ensures Sum(weight, jobs', n) == Sum(weight, jobs, n) + if j < n then WeightAt(weight, jobs', j) - WeightAt(weight, jobs, j) else 0
    decreases n
  {
    if 0 < n {
      SumChanges(weight, jobs, jobs', j, n - 1);
    }
  }

  lemma {:induction false} PartOfSum(weight: Job -> nat, jobs: map<nat, Job>, j: nat, n: nat)
    requires j < n
    ensures WeightAt(weight, jobs, j) <= Sum(weight, jobs, n)
    decreases n
  {
    if j < n - 1 {
      PartOfSum(weight, jobs, j, n - 1);
    }
  }

  lemma {:induction false} SomePart(weight: Job -> nat, jobs: map<nat, Job>, n: nat) returns (j: nat)
    requires 0 < Sum(weight, jobs, n)
    ensures j < n && j in jobs && 0 < weight(jobs[j])
    decreases n
  {
    if 0 < WeightAt(weight, jobs, n - 1) {
      j := n - 1;
    } else {
      j := SomePart(weight, jobs, n - 1);
    }
  }

  // ---------------------------------------------------------------- what the jobs may still be refused

  /** The tokens a job is still going to ask the limiter for. */
  function Ask(job: Job): nat {
    if (job.phase.Fetch? || job.phase.Limit?) && job.item.data.Request? && 0 < job.item.data.tokenCost
    then job.item.data.tokenCost else 0
  }

  function JobRank(job: Job): nat {
    Rank(job.phase)
  }

  /** What the bucket holds when it is refilled now. */
  function Tokens(c: Settings, s: System): real {
    Bucket.Refill(c.bucket, s.bucket, s.clock).tokens
  }

  function Asked(s: System): nat {
    Sum(Ask, s.jobs, s.nextJob)
  }

  /**
   Nothing can wake the loop: it is inside Dequeue, or on its way there with a free slot; the queue is
   empty, the context is not canceled, no job is putting its request back, and the tokens cover
   everything the running jobs still ask for, so that none of them will.
   */
  ghost predicate Blocked(c: Settings, s: System) {
    && s.queue == [] && !s.canceled
    && (s.loop.Take? || (s.loop.Acquire? && s.slots < c.maxConcurrent))
    && (forall j :: j in s.jobs ==> !s.jobs[j].phase.Requeue?)
    && Asked(s) as real <= Tokens(c, s)
  }

  /** Some run in which nothing arrives lets the loop, and with it Stop, return. */
  ghost predicate CanExit(c: Settings, s: System) {
    exists ls :: NothingArrives(ls) && Run(c, s, ls).loop.Exited?
  }

  // ---------------------------------------------------------------- one step of a job

  lemma AfterGrant(c: Bucket.Config, b: Bucket.State, now: real, cost: int)
    requires Bucket.Step(c, b, Bucket.Event(now, Bucket.Allow(cost))).1 == Bucket.Granted
    ensures var b' := Bucket.Step(c, b, Bucket.Event(now, Bucket.Allow(cost))).0;
      Bucket.Refill(c, b', now).tokens == Bucket.Refill(c, b, now).tokens - cost as real
  {
    AccruedNothing(now, c.rate);
    hide Accrued;
  }

  lemma AfterRefusal(c: Bucket.Config, b: Bucket.State, now: real)
    ensures Bucket.Refill(c, Bucket.Refill(c, b, now), now) == Bucket.Refill(c, b, now)
  {
    AccruedNothing(now, c.rate);
    hide Accrued;
  }

  /** Asking the limiter: granted jobs take what they ask for, and only a shortage sends a job back. */
  lemma LimiterBalance(c: Settings, s: System, j: nat)
    requires j in s.jobs && s.jobs[j].phase == Limit(true) && s.jobs[j].item.data.Request?
    ensures var s' := AskLimiter(c, s, j, true);
      && s'.queue == s.queue && s'.clock == s.clock && s'.canceled == s.canceled
      && j in s'.jobs && Ask(s'.jobs[j]) == 0
      && (if Ask(s.jobs[j]) as real <= Tokens(c, s) || Ask(s.jobs[j]) == 0
          then !s'.jobs[j].phase.Requeue? && Tokens(c, s') == Tokens(c, s) - Ask(s.jobs[j]) as real
          else s'.jobs[j].phase.Requeue?)
  {
    hide Accrued;
    var cost := s.jobs[j].item.data.tokenCost;
    var e := Bucket.Event(s.clock, Bucket.Allow(cost));
    if Bucket.Step(c.bucket, s.bucket, e).1 == Bucket.Granted {
      AfterGrant(c.bucket, s.bucket, s.clock, cost);
    }
  }

  /** A job step that neither asks the limiter nor puts the request back. */
  predicate Steady(s: System, s': System, j: nat)
    requires j in s.jobs
  {
    && s'.queue == s.queue && s'.clock == s.clock && s'.canceled == s.canceled && s'.bucket == s.bucket
    && (j in s'.jobs ==> !s'.jobs[j].phase.Requeue? && Ask(s'.jobs[j]) == Ask(s.jobs[j]))
  }

  lemma ReplySteady(s: System, j: nat, id: string)
    requires j in s.jobs
    ensures s.jobs[j].phase.Reply? ==> Steady(s, ReplyStep(s, j, id), j)
    ensures s.jobs[j].phase.Unregister? ==> Steady(s, UnregisterStep(s, j, id), j)
  {}

  lemma EarlySteady(c: Settings, s: System, j: nat)
    requires j in s.jobs
    ensures s.jobs[j].phase.Fetch? ==> Steady(s, FetchStep(s, j), j)
    ensures s.jobs[j].phase.Dispatch? ==> Steady(s, DispatchStep(s, j, s.jobs[j].phase.found, s.jobs[j].phase.entry), j)
  {}

  lemma JobSteady(c: Settings, s: System, j: nat, stamp: real, after: real)
    requires j in s.jobs && !s.jobs[j].phase.Requeue? && !s.jobs[j].phase.Limit?
    ensures Steady(s, JobNext(c, s, j, stamp, after), j)
  {
    hide AskLimiter, RequeueStep, ReplyStep, UnregisterStep, FetchStep, DispatchStep;
    ReplySteady(s, j, s.jobs[j].item.id);
    EarlySteady(c, s, j);
    match s.jobs[j].phase
    case Fetch => hide Steady;
    case Dispatch(_, _) => hide Steady;
    case Reply => hide Steady;
    case Unregister => hide Steady;
    case _ =>
  }

  lemma ShapeIsLocal(s: System, s': System, j: nat)
    requires j in s.jobs && JobShape(s, s', j)
    ensures OnlyJob(s.jobs, s'.jobs, j) && s'.loop == s.loop && s'.nextJob == s.nextJob && s'.slots <= s.slots
    ensures j !in s'.jobs ==> Ask(s.jobs[j]) == 0
  {
    hide Move;
  }

  /** The job's next step asks the limiter for more than the bucket holds. */
  predicate IsRefused(c: Settings, s: System, j: nat)
    requires j in s.jobs
  {
    s.jobs[j].phase.Limit? && Ask(s.jobs[j]) != 0 && Tokens(c, s) < Ask(s.jobs[j]) as real
  }

  /** What one step of a job does to the tokens left over once all jobs have asked. */
  lemma JobBalance(c: Settings, s: System, j: nat, stamp: real, after: real)
    requires Placed(s) && j in s.jobs && j < s.nextJob && !s.jobs[j].phase.Requeue?
    ensures var s' := JobNext(c, s, j, stamp, after);
      && s'.queue == s.queue && s'.clock == s.clock && s'.canceled == s.canceled
      && s'.loop == s.loop && s'.nextJob == s.nextJob && s'.slots <= s.slots && OnlyJob(s.jobs, s'.jobs, j)
      && (IsRefused(c, s, j) ==> j in s'.jobs && s'.jobs[j].phase.Requeue?)
      && (!IsRefused(c, s, j) ==>
            && (j in s'.jobs ==> !s'.jobs[j].phase.Requeue?)
            && Tokens(c, s') - Asked(s') as real == Tokens(c, s) - Asked(s) as real)
  {
    hide Placed, JobNext, AskLimiter, JobShape, Steady, Ask, Asked, Tokens, OnlyJob;
    var s' := JobNext(c, s, j, stamp, after);
    JobHasShape(c, s, j, stamp, after);
    ShapeIsLocal(s, s', j);
    AskedChanges(s, s', j);
    if s.jobs[j].phase.Limit? {
      LimitFound(s, j);
      LimiterBalance(c, s, j);
      LimitStep(c, s, j, stamp, after);
    } else {
      JobSteady(c, s, j, stamp, after);
      SteadyBalance(c, s, s', j);
    }
  }

  lemma AskedChanges(s: System, s': System, j: nat)
    requires j in s.jobs && j < s.nextJob == s'.nextJob && OnlyJob(s.jobs, s'.jobs, j)
    ensures Asked(s') == Asked(s) - Ask(s.jobs[j]) + if j in s'.jobs then Ask(s'.jobs[j]) else 0
  {
    hide Ask, OnlyJob;
    SumChanges(Ask, s.jobs, s'.jobs, j, s.nextJob);
  }

  lemma LimitFound(s: System, j: nat)
    requires Placed(s) && j in s.jobs && s.jobs[j].phase.Limit?
    ensures s.jobs[j].phase == Limit(true) && s.jobs[j].item.data.Request?
  {
    hide QueueInv, LoopInv, BoxInv, RegistryInv;
    assert JobInv(s, j);
  }

  lemma LimitStep(c: Settings, s: System, j: nat, stamp: real, after: real)
    requires j in s.jobs && s.jobs[j].phase == Limit(true) && s.jobs[j].item.data.Request?
    ensures JobNext(c, s, j, stamp, after) == AskLimiter(c, s, j, true)
  {
    hide AskLimiter;
  }

  lemma SteadyBalance(c: Settings, s: System, s': System, j: nat)
    requires j in s.jobs && Steady(s, s', j)
    requires Asked(s') == Asked(s) - Ask(s.jobs[j]) + if j in s'.jobs then Ask(s'.jobs[j]) else 0
    requires j !in s'.jobs ==> Ask(s.jobs[j]) == 0
    ensures s'.queue == s.queue && s'.clock == s.clock && s'.canceled == s.canceled
    ensures j in s'.jobs ==> !s'.jobs[j].phase.Requeue?
    ensures Tokens(c, s') - Asked(s') as real == Tokens(c, s) - Asked(s) as real
  {
    hide Ask, Asked, Bucket.Refill;
  }

  // ---------------------------------------------------------------- blocked for good

  lemma MoreLater(c: Bucket.Config, b: Bucket.State, now: real, later: real)
    requires c.Valid() && now <= later
    ensures Bucket.Refill(c, b, now).tokens <= Bucket.Refill(c, b, later).tokens
  {
    AccruedAdds(b.last, now, later, c.rate);
    AccruedNonNegative(now, later, c.rate);
    hide Accrued;
  }

  lemma AskedPart(c: Settings, s: System, j: nat)
    requires j in s.jobs && j < s.nextJob
    ensures Ask(s.jobs[j]) <= Asked(s)
  {
    hide Ask;
    PartOfSum(Ask, s.jobs, j, s.nextJob);
  }

  lemma BlockedJob(c: Settings, s: System, j: nat, stamp: real, after: real)
    requires Placed(s) && Blocked(c, s) && j in s.jobs && j < s.nextJob
    ensures Blocked(c, JobNext(c, s, j, stamp, after))
  {
    hide Placed, JobNext, Asked, Ask, Tokens;
    JobBalance(c, s, j, stamp, after);
    AskedPart(c, s, j);
  }

  lemma BlockedElsewhere(c: Settings, s: System, s': System)
    requires c.Valid() && Blocked(c, s)
    requires s'.queue == [] && s'.canceled == s.canceled && s'.jobs == s.jobs && s'.nextJob == s.nextJob
    requires s'.slots == s.slots && s'.bucket == s.bucket && s.clock <= s'.clock && s'.loop == s.loop
    ensures Blocked(c, s')
  {
    hide Asked, Bucket.Refill;
    MoreLater(c.bucket, s.bucket, s.clock, s'.clock);
    assert Asked(s') == Asked(s) by { AskedFrame(s, s'); }
  }

  lemma AskedFrame(s: System, s': System)
    requires s'.jobs == s.jobs && s'.nextJob == s.nextJob
    ensures Asked(s') == Asked(s)
  {}

  lemma BlockedLoop(c: Settings, s: System)
    requires Blocked(c, s)
    ensures Blocked(c, LoopNext(c, s))
  {
    hide LaunchStep, Bucket.Refill, Asked;
    AskedFrame(s, LoopNext(c, s));
  }

  lemma BlockedNext(c: Settings, s: System, l: Label)
    requires c.Valid() && Placed(s) && Counted(c, s) && Blocked(c, s) && !l.Submit? && !l.ContextCanceled?
    ensures Blocked(c, Next(c, s, l))
  {
    hide Placed, Counted, LoopNext, JobNext, Blocked;
    match l
    case LoopStep => BlockedLoop(c, s);
    case JobStep(j, stamp, after) => if j in s.jobs { JobNumber(c, s, j); BlockedJob(c, s, j, stamp, after); }
    case _ => ClientFrame(c, s, l); BlockedElsewhere(c, s, Next(c, s, l));
  }

  lemma JobNumber(c: Settings, s: System, j: nat)
    requires Counted(c, s) && j in s.jobs
    ensures j < s.nextJob
  {}

  lemma ClientFrame(c: Settings, s: System, l: Label)
    requires Blocked(c, s) && !l.LoopStep? && !l.JobStep? && !l.Submit? && !l.ContextCanceled?
    ensures var s' := Next(c, s, l);
      && s'.queue == [] && s'.canceled == s.canceled && s'.jobs == s.jobs && s'.nextJob == s.nextJob
      && s'.slots == s.slots && s'.bucket == s.bucket && s.clock <= s'.clock && s'.loop == s.loop
  {
    hide Asked, Tokens;
  }

  /** While nothing arrives a blocked loop stays blocked, whatever Stop, clients, jobs and clock do. */
  lemma {:induction false} BlockedStays(c: Settings, s: System, ls: seq<Label>)
    requires c.Valid() && Placed(s) && Counted(c, s) && Blocked(c, s) && NothingArrives(ls)
    ensures Blocked(c, Run(c, s, ls))
    decreases |ls|
  {
    hide Placed, Counted, Blocked, Next;
    if ls != [] {
      assert !ls[0].Submit? && !ls[0].ContextCanceled?;
      assert forall i :: 0 <= i < |ls| - 1 ==> ls[1..][i] == ls[i + 1];
      BlockedNext(c, s, ls[0]);
      NextPlaced(c, s, ls[0]);
      NextCounted(c, s, ls[0]);
      BlockedStays(c, Next(c, s, ls[0]), ls[1..]);
    }
  }

  // ---------------------------------------------------------------- runs that end the loop

  /** A reachable state, as far as this module needs to know. */
  ghost predicate Reachable(c: Settings, start: real, s: System) {
    Good(c, start, s) && Counted(c, s)
  }

  lemma ReachedReachable(c: Settings, start: real, ls: seq<Label>)
    requires c.Valid()
    ensures Reachable(c, start, Reached(c, start, ls))
  {
    hide Good, Counted;
    ReachedGood(c, start, ls);
    InitCounted(c, start);
    RunCounted(c, Init(c, start), ls);
  }

  lemma InitCounted(c: Settings, start: real)
    ensures Counted(c, Init(c, start))
  {
    assert Holders(Init(c, start).jobs) == {};
  }

  lemma NextReachable(c: Settings, start: real, s: System, l: Label)
    requires c.Valid() && Reachable(c, start, s)
    ensures Reachable(c, start, Next(c, s, l))
  {
    hide Placed, Replayed, Logged, Counted, Next;
    NextPlaced(c, s, l);
    NextReplayed(c, start, s, l);
    NextLogged(c, s, l);
    NextCounted(c, s, l);
  }

  lemma ExitAfter(c: Settings, s: System, l: Label)
    requires !l.Submit? && !l.ContextCanceled? && CanExit(c, Next(c, s, l))
    ensures CanExit(c, s)
  {
    hide Next;
    var ls :| NothingArrives(ls) && Run(c, Next(c, s, l), ls).loop.Exited?;
    assert ([l] + ls)[1..] == ls;
    assert NothingArrives([l] + ls);
    assert Run(c, s, [l] + ls).loop.Exited?;
  }

  lemma ExitedAlready(c: Settings, s: System)
    requires s.loop.Exited?
    ensures CanExit(c, s)
  {
    assert NothingArrives([]) && Run(c, s, []) == s;
  }

  /** Letting one job take its step brings its end nearer. */
  lemma JobNearer(c: Settings, start: real, s: System, j: nat)
    requires c.Valid() && Reachable(c, start, s) && j in s.jobs
    ensures var s' := Next(c, s, JobStep(j, s.clock, s.clock));
      && Reachable(c, start, s') && s'.loop == s.loop && s'.nextJob == s.nextJob && s'.slots <= s.slots
      && Sum(JobRank, s'.jobs, s'.nextJob) < Sum(JobRank, s.jobs, s.nextJob)
  {
    hide *;
    var s' := Next(c, s, JobStep(j, s.clock, s.clock));
    NextReachable(c, start, s, JobStep(j, s.clock, s.clock));
    JobReady(c, start, s, j);
    JobNeverBlocks(c, s, j);
    JobHasShape(c, s, j, s.clock, s.clock);
    ShapeIsLocal(s, s', j);
    SumChanges(JobRank, s.jobs, s'.jobs, j, s.nextJob);
    RankWeight(s, s', j);
  }

  lemma JobReady(c: Settings, start: real, s: System, j: nat)
    requires Reachable(c, start, s) && j in s.jobs
    ensures Placed(s) && Counted(c, s) && j < s.nextJob
    ensures s.jobs[j].phase.Requeue? ==> s.jobs[j].phase.refusedAt <= s.clock
    ensures s.jobs[j].phase.Dispatch? ==> s.jobs[j].phase.entry < |s.log|
    ensures Next(c, s, JobStep(j, s.clock, s.clock)) == JobNext(c, s, j, s.clock, s.clock)
  {
    hide Placed, Replayed, EntryInv, Spaced, JobNext;
    assert JobLog(s, j);
  }

  lemma RankWeight(s: System, s': System, j: nat)
    requires j in s.jobs && (j !in s'.jobs || Rank(s'.jobs[j].phase) < Rank(s.jobs[j].phase))
    ensures WeightAt(JobRank, s'.jobs, j) < WeightAt(JobRank, s.jobs, j)
  {}

  /** Once the loop waits for the jobs it returns: they all come to their ends. */
  lemma {:induction false} DrainExits(c: Settings, start: real, s: System)
    requires c.Valid() && Reachable(c, start, s) && s.loop.Drain?
    ensures CanExit(c, s)
    decreases Sum(JobRank, s.jobs, s.nextJob)
  {
    hide Reachable, JobNext, CanExit, Sum;
    if s.jobs == map[] {
      NobodyLeft(c, start, s);
      ExitedAlready(c, Next(c, s, LoopStep));
      ExitAfter(c, s, LoopStep);
    } else {
      var j :| j in s.jobs;
      JobNearer(c, start, s, j);
      DrainExits(c, start, Next(c, s, JobStep(j, s.clock, s.clock)));
      ExitAfter(c, s, JobStep(j, s.clock, s.clock));
    }
  }

  lemma NobodyLeft(c: Settings, start: real, s: System)
    requires Reachable(c, start, s) && s.jobs == map[]
    ensures s.waitGroup == 0
    ensures s.slots == if LoopHolds(s.loop) then 1 else 0
  {
    hide Good;
    assert Holders(s.jobs) == {};
  }

  lemma CheckExits(c: Settings, start: real, s: System)
    requires c.Valid() && Reachable(c, start, s) && s.loop.Check?
    ensures CanExit(c, s)
  {
    hide Reachable, CanExit;
    var s1 := Next(c, s, StopCalled);
    NextReachable(c, start, s, StopCalled);
    NextReachable(c, start, s1, LoopStep);
    DrainExits(c, start, Next(c, s1, LoopStep));
    ExitAfter(c, s1, LoopStep);
    ExitAfter(c, s, StopCalled);
  }

  /** A loop that does not wait in Dequeue comes back to the stop channel. */
  lemma ReturningExits(c: Settings, start: real, s: System)
    requires c.Valid() && Reachable(c, start, s)
    requires s.loop.GiveBack? || s.loop.Launch? || (s.loop.Acquire? && c.maxConcurrent <= s.slots)
    ensures CanExit(c, s)
  {
    hide CanExit, Good, LaunchStep;
    var s' := Next(c, s, LoopStep);
    NextReachable(c, start, s, LoopStep);
    hide Reachable, Counted;
    if s.loop.Launch? {
      LaunchChecks(s, s.loop.item);
    }
    CheckExits(c, start, s');
    ExitAfter(c, s, LoopStep);
  }

  lemma LaunchChecks(s: System, x: Fifo.Item)
    ensures LaunchStep(s, x).loop.Check?
  {}

  /** Dequeue returns when it finds an item, ready or not, or when the canceled context wakes it. */
  lemma TakeExits(c: Settings, start: real, s: System)
    requires c.Valid() && Reachable(c, start, s) && s.loop.Take? && (s.queue != [] || s.canceled)
    ensures CanExit(c, s)
  {
    hide Reachable, CanExit;
    var s' := Next(c, s, LoopStep);
    NextReachable(c, start, s, LoopStep);
    TakeLeads(c, s);
    if s.queue != [] {
      ReturningExits(c, start, s');
    } else {
      NextReachable(c, start, s', GiveUp);
      ReturningExits(c, start, Next(c, s', GiveUp));
      ExitAfter(c, s', GiveUp);
    }
    ExitAfter(c, s, LoopStep);
  }

  lemma TakeLeads(c: Settings, s: System)
    requires s.loop.Take?
    ensures var s' := Next(c, s, LoopStep);
      if s.queue != [] then s'.loop.GiveBack? || s'.loop.Launch?
      else s'.loop == Take(true) && (s.canceled ==> Next(c, s', GiveUp).loop.GiveBack?)
  {
    hide Fifo.FirstReady, Fifo.Without;
  }

  /** The loop gets out of Dequeue, or does not get in, unless the queue is empty and stays so. */
  lemma DequeueExits(c: Settings, start: real, s: System)
    requires c.Valid() && Reachable(c, start, s)
    requires s.loop.Take? || s.loop.Acquire?
    requires s.queue != [] || s.canceled || (s.loop.Acquire? && c.maxConcurrent <= s.slots)
    ensures CanExit(c, s)
  {
    hide Reachable, CanExit;
    if s.loop.Take? {
      TakeExits(c, start, s);
    } else if c.maxConcurrent <= s.slots {
      ReturningExits(c, start, s);
    } else {
      NextReachable(c, start, s, LoopStep);
      TakeExits(c, start, Next(c, s, LoopStep));
      ExitAfter(c, s, LoopStep);
    }
  }

  /** A refused job puts its request into the empty queue. */
  lemma RequeueExits(c: Settings, start: real, s: System, j: nat)
    requires c.Valid() && 0 < c.maxSize && Reachable(c, start, s) && j in s.jobs && s.jobs[j].phase.Requeue?
    requires s.queue == [] && (s.loop.Take? || s.loop.Acquire?)
    ensures CanExit(c, s)
  {
    hide Reachable, CanExit, JobNext;
    var l := JobStep(j, s.clock, s.clock);
    JobNearer(c, start, s, j);
    JobReady(c, start, s, j);
    RequeueFills(c, s, j);
    DequeueExits(c, start, Next(c, s, l));
    ExitAfter(c, s, l);
  }

  lemma RequeueFills(c: Settings, s: System, j: nat)
    requires j in s.jobs && s.jobs[j].phase.Requeue? && s.jobs[j].phase.refusedAt <= s.clock && |s.queue| < c.maxSize
    ensures JobNext(c, s, j, s.clock, s.clock).queue != []
  {}

  /** When the jobs together ask for more than the bucket holds, one of them is refused. */
  lemma {:induction false} ShortageExits(c: Settings, start: real, s: System)
    requires c.Valid() && 0 < c.maxSize && Reachable(c, start, s)
    requires s.queue == [] && !s.canceled && (s.loop.Take? || s.loop.Acquire?)
    requires (exists j :: j in s.jobs && s.jobs[j].phase.Requeue?) || Tokens(c, s) < Asked(s) as real
    ensures CanExit(c, s)
    decreases Sum(JobRank, s.jobs, s.nextJob)
  {
    hide *;
    if j :| j in s.jobs && s.jobs[j].phase.Requeue? {
      RequeueExits(c, start, s, j);
    } else {
      TokensLeft(c, start, s);
      var j := SomeAsker(s);
      var l := JobStep(j, s.clock, s.clock);
      JobReady(c, start, s, j);
      JobNearer(c, start, s, j);
      JobBalance(c, s, j, s.clock, s.clock);
      ShortageExits(c, start, Next(c, s, l));
      ExitAfter(c, s, l);
    }
  }

  lemma SomeAsker(s: System) returns (j: nat)
    requires 0 < Asked(s)
    ensures j < s.nextJob && j in s.jobs
  {
    hide Ask, Sum;
    j := SomePart(Ask, s.jobs, s.nextJob);
  }

  lemma TokensLeft(c: Settings, start: real, s: System)
    requires c.Valid() && Reachable(c, start, s)
    ensures 0.0 <= Tokens(c, s)
  {
    hide Placed, Logged, Counted, Bucket.Run;
    var es := Events(s.log);
    Bucket.RunRange(c.bucket, Start(c, start), es);
    Bucket.RefillRange(c.bucket, s.bucket, s.clock);
  }

  /**
   When Stop can return: in every reachable state some run in which nothing arrives and nobody
   cancels the context ends the loop, if and only if the loop is not blocked on the empty queue.
   */
  lemma StopReturnsIff(c: Settings, start: real, ls: seq<Label>)
    requires c.Valid() && 0 < c.maxSize
    ensures CanExit(c, Reached(c, start, ls)) <==> !Blocked(c, Reached(c, start, ls))
  {
    var s := Reached(c, start, ls);
    ReachedReachable(c, start, ls);
    hide Reached;
    if Blocked(c, s) {
      forall ms | NothingArrives(ms) ensures !Run(c, s, ms).loop.Exited? {
        hide Good, Counted, Run;
        BlockedStays(c, s, ms);
      }
    } else {
      hide Reachable, CanExit, Tokens, Asked;
      match s.loop
      case Check => CheckExits(c, start, s);
      case Drain => DrainExits(c, start, s);
      case Exited => ExitedAlready(c, s);
      case Launch(_) => ReturningExits(c, start, s);
      case GiveBack => ReturningExits(c, start, s);
      case _ =>
        if s.queue != [] || s.canceled || (s.loop.Acquire? && c.maxConcurrent <= s.slots) {
          DequeueExits(c, start, s);
        } else {
          ShortageExits(c, start, s);
        }
    }
  }

  /** Without running jobs: Stop can return unless the loop is in or before a Dequeue on an empty queue. */
  lemma StopOfIdleReturnsIff(c: Settings, start: real, ls: seq<Label>)
    requires c.Valid() && 0 < c.maxSize && 0 < c.maxConcurrent
    requires Reached(c, start, ls).jobs == map[] && !Reached(c, start, ls).canceled
    ensures var s := Reached(c, start, ls);
      CanExit(c, s) <==> !(s.queue == [] && (s.loop.Take? || s.loop.Acquire?))
  {
    var s := Reached(c, start, ls);
    ReachedReachable(c, start, ls);
    StopReturnsIff(c, start, ls);
    hide Reached, Reachable, CanExit;
    NobodyLeft(c, start, s);
    TokensLeft(c, start, s);
    NobodyAsks(s);
    hide Asked, Tokens;
  }

  lemma NobodyAsks(s: System)
    requires s.jobs == map[]
    ensures Asked(s) == 0
  {
    if 0 < Asked(s) {
      var j := SomeAsker(s);
    }
  }

  /** Two turns after its start the loop of an unused worker is blocked, and Stop does not change that. */
  lemma BlockedReached(c: Settings, start: real)
    requires c.Valid() && 0 < c.maxConcurrent && 0 < c.maxSize
    ensures var s := Reached(c, start, [LoopStep, LoopStep, StopCalled]);
      s.stopping && s.jobs == map[] && s.queue == [] && s.loop.Take? && Blocked(c, s) && !CanExit(c, s)
  {
    var ls := [LoopStep, LoopStep, StopCalled];
    var s0 := Init(c, start);
    var s1 := Next(c, s0, LoopStep);
    var s2 := Next(c, s1, LoopStep);
    assert ls[1..] == [LoopStep, StopCalled] && ls[1..][1..] == [StopCalled] && ls[1..][1..][1..] == [];
    assert Run(c, s0, ls) == Run(c, s1, ls[1..]) == Run(c, s2, [StopCalled]);
    assert s2 == s0.(slots := 1, loop := Take(false));
    hide Next, CanExit;
    assert Run(c, s2, [StopCalled]) == Next(c, s2, StopCalled);
    StopOfIdleReturnsIff(c, start, ls);
    StopReturnsIff(c, start, ls);
  }
}
