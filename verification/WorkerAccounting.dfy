/** Semaphore slots and wait-group counts: who holds them, and in which order they are given back. */
module WorkerAccounting {
  import Bucket
  import Fifo
  import opened WorkerSystem
  import opened WorkerPlaces

  /** The jobs that have not freed their slot yet. */
  function Holders(jobs: map<nat, Job>): set<nat> {
    set j | j in jobs && !jobs[j].phase.Finish?
  }

  predicate LoopHolds(p: LoopPhase) {
    p.Take? || p.GiveBack? || p.Launch?
  }

  ghost predicate Counted(c: Settings, s: System) {
    && s.slots == (if LoopHolds(s.loop) then 1 else 0) + |Holders(s.jobs)|
    && s.slots <= c.maxConcurrent
    && s.waitGroup == |s.jobs|
    && (s.loop.Exited? ==> s.jobs == map[])
    && (forall j :: j in s.jobs ==> j < s.nextJob)
  }

  lemma EnterCounts(s: System, j: nat, phase: JobPhase)
    requires j in s.jobs
    ensures Enter(s, j, phase).jobs.Keys == s.jobs.Keys && |Enter(s, j, phase).jobs| == |s.jobs|
    ensures Holders(Enter(s, j, phase).jobs) == if phase.Finish? then Holders(s.jobs) - {j} else Holders(s.jobs) + {j}
  {
    var m := Enter(s, j, phase).jobs;
    assert m.Keys == s.jobs.Keys;
    assert |m| == |m.Keys| && |s.jobs| == |s.jobs.Keys|;
  }

  /** A job step that keeps the slot moves no count. */
  lemma HeldCounted(c: Settings, s: System, s': System, j: nat, phase: JobPhase)
    requires Counted(c, s) && j in s.jobs && !s.jobs[j].phase.Finish? && !phase.Finish?
    requires s'.jobs == Enter(s, j, phase).jobs
    requires s'.slots == s.slots && s'.waitGroup == s.waitGroup && s'.loop == s.loop && s'.nextJob == s.nextJob
    ensures Counted(c, s')
  {
    EnterCounts(s, j, phase);
    assert Holders(s.jobs) + {j} == Holders(s.jobs);
  }

  lemma ReleaseCounted(c: Settings, s: System, j: nat)
    requires Counted(c, s) && j in s.jobs && s.jobs[j].phase.Release?
    ensures 0 < s.slots && Counted(c, Enter(s.(slots := s.slots - 1), j, Finish))
  {
    EnterCounts(s, j, Finish);
    assert j in Holders(s.jobs);
    assert Holders(s.jobs) == (Holders(s.jobs) - {j}) + {j};
  }

  lemma FinishCounted(c: Settings, s: System, j: nat)
    requires Counted(c, s) && j in s.jobs && s.jobs[j].phase.Finish?
    ensures 0 < s.waitGroup && Counted(c, s.(waitGroup := s.waitGroup - 1, jobs := s.jobs - {j}))
  {
    var m := s.jobs - {j};
    assert m.Keys == s.jobs.Keys - {j};
    assert |m| == |m.Keys| && |s.jobs| == |s.jobs.Keys|;
    assert s.jobs.Keys == m.Keys + {j};
    assert Holders(m) == Holders(s.jobs);
  }

  /** What a job step does to the counts and to the table of jobs. */
  ghost predicate JobShape(s: System, s': System, j: nat)
    requires j in s.jobs
  {
    var p := s.jobs[j].phase;
    && s'.loop == s.loop && s'.nextJob == s.nextJob
    && (p.Release? ==> s' == ReleaseStep(s, j))
    && (p.Finish? ==> s' == FinishStep(s, j))
    && (!p.Release? && !p.Finish? ==>
          && s'.slots == s.slots && s'.waitGroup == s.waitGroup
          && j in s'.jobs && !s'.jobs[j].phase.Finish?
          && s'.jobs == s.jobs[j := s.jobs[j].(phase := s'.jobs[j].phase)])
  }

  lemma LimiterShape(c: Settings, s: System, j: nat, found: bool)
    requires j in s.jobs && s.jobs[j].phase.Limit? && s.jobs[j].item.data.Request?
    ensures JobShape(s, AskLimiter(c, s, j, found), j)
  {
    hide Bucket.Step, ReleaseStep, FinishStep;
  }

  lemma RequeueShape(c: Settings, s: System, j: nat, found: bool, stamp: real, after: real)
    requires j in s.jobs && s.jobs[j].phase.Requeue?
    ensures JobShape(s, RequeueStep(c, s, j, found, stamp, after), j)
  {
    hide ReleaseStep, FinishStep;
  }

  lemma ReplyShape(s: System, j: nat, id: string)
    requires j in s.jobs
    ensures s.jobs[j].phase.Reply? ==> JobShape(s, ReplyStep(s, j, id), j)
    ensures s.jobs[j].phase.Unregister? ==> JobShape(s, UnregisterStep(s, j, id), j)
  {
    hide ReleaseStep, FinishStep;
  }

  lemma JobHasShape(c: Settings, s: System, j: nat, stamp: real, after: real)
    requires j in s.jobs
    ensures JobShape(s, JobNext(c, s, j, stamp, after), j)
  {
    hide AskLimiter, RequeueStep, ReplyStep, UnregisterStep;
    ReplyShape(s, j, s.jobs[j].item.id);
    match s.jobs[j].phase
    case Limit(found) => if s.jobs[j].item.data.Request? { LimiterShape(c, s, j, found); }
    case Requeue(found, refusedAt) => RequeueShape(c, s, j, found, stamp, after);
    case Reply => hide JobShape;
    case Unregister => hide JobShape;
    case _ =>
  }

  lemma JobCounted(c: Settings, s: System, j: nat, stamp: real, after: real)
    requires Counted(c, s) && j in s.jobs
    ensures Counted(c, JobNext(c, s, j, stamp, after))
  {
    var s' := JobNext(c, s, j, stamp, after);
    JobHasShape(c, s, j, stamp, after);
    hide JobNext, Counted;
    if s.jobs[j].phase.Release? {
      ReleaseCounted(c, s, j);
    } else if s.jobs[j].phase.Finish? {
      FinishCounted(c, s, j);
    } else {
      HeldCounted(c, s, s', j, s'.jobs[j].phase);
    }
  }

  lemma SameCounts(c: Settings, s: System, s': System)
    requires Counted(c, s) && s'.jobs == s.jobs && s'.slots == s.slots && s'.waitGroup == s.waitGroup
    requires s'.nextJob == s.nextJob && (s'.loop == s.loop || (LoopHolds(s.loop) && LoopHolds(s'.loop)))
    ensures Counted(c, s')
  {}

  lemma LaunchCounted(c: Settings, s: System)
    requires Counted(c, s) && s.loop.Launch?
    ensures Counted(c, LaunchStep(s, s.loop.item))
  {
    var j, job := s.nextJob, Job(s.loop.item, Fetch);
    var m := s.jobs[j := job];
    assert m.Keys == s.jobs.Keys + {j};
    assert |m| == |m.Keys| && |s.jobs| == |s.jobs.Keys|;
    assert Holders(m) == Holders(s.jobs) + {j};
    var s' := LaunchStep(s, s.loop.item);
    assert s'.jobs == m && s'.loop == Check && s'.slots == s.slots && s'.waitGroup == s.waitGroup + 1;
  }

  /** What a loop step other than a launch does to the counts. */
  ghost predicate QuietLoop(c: Settings, s: System, s': System) {
    && s'.jobs == s.jobs && s'.waitGroup == s.waitGroup && s'.nextJob == s.nextJob
    && s'.slots + (if LoopHolds(s.loop) then 1 else 0) == s.slots + (if LoopHolds(s'.loop) then 1 else 0)
    && s'.slots <= c.maxConcurrent
    && (s'.loop.Exited? ==> s.loop.Exited? || s.waitGroup == 0)
  }

  lemma TakeShape(c: Settings, s: System)
    requires s.loop.Take? && s.slots <= c.maxConcurrent
    ensures QuietLoop(c, s, TakeStep(s))
  {
    hide Fifo.FirstReady, Fifo.Without;
  }

  lemma LoopShape(c: Settings, s: System)
    requires !s.loop.Launch? && s.slots <= c.maxConcurrent && (s.loop.GiveBack? ==> 0 < s.slots)
    ensures QuietLoop(c, s, LoopNext(c, s))
  {
    hide TakeStep, LaunchStep;
    if s.loop.Take? {
      TakeShape(c, s);
    }
  }

  lemma LoopCounted(c: Settings, s: System)
    requires Counted(c, s)
    ensures Counted(c, LoopNext(c, s))
  {
    if s.loop.Launch? {
      LaunchCounted(c, s);
    } else {
      LoopShape(c, s);
      hide LoopNext, Holders;
      assert |s.jobs| == 0 ==> s.jobs == map[];
    }
  }

  lemma NextCounted(c: Settings, s: System, l: Label)
    requires Counted(c, s)
    ensures Counted(c, Next(c, s, l))
  {
    hide Counted, LoopNext, JobNext;
    match l
    case LoopStep => LoopCounted(c, s);
    case JobStep(j, stamp, after) => if j in s.jobs { JobCounted(c, s, j, stamp, after); }
    case _ => SameCounts(c, s, Next(c, s, l));
  }

  lemma {:induction false} RunCounted(c: Settings, s: System, ls: seq<Label>)
    requires Counted(c, s)
    ensures Counted(c, Run(c, s, ls))
    decreases |ls|
  {
    hide Counted, Next;
    if ls != [] {
      NextCounted(c, s, ls[0]);
      RunCounted(c, Next(c, s, ls[0]), ls[1..]);
    }
  }

  /**
   In every reachable state the slots taken are the one the loop holds plus one for each job that has
   not freed its own, never more than MaxConcurrent; the wait group counts the jobs; and once `done`
   is closed no job is running.
   */
  lemma ConcurrencyAccounted(c: Settings, start: real, ls: seq<Label>)
    ensures var s := Reached(c, start, ls);
      && s.slots == (if LoopHolds(s.loop) then 1 else 0) + |Holders(s.jobs)|
      && s.slots <= c.maxConcurrent
      && s.waitGroup == |s.jobs|
      && (s.loop.Exited? ==> s.jobs == map[])
  {
    var s := Init(c, start);
    assert Holders(s.jobs) == {};
    RunCounted(c, s, ls);
  }

  // ---------------------------------------------------------------- how a job ends

  function Rank(p: JobPhase): nat {
    match p
    case Fetch => 8
    case Limit(_) => 7
    case Requeue(_, _) => 6
    case Dispatch(_, _) => 6
    case Working(_) => 5
    case Reply => 4
    case Unregister => 3
    case Release => 2
    case Finish => 1
  }

  /**
   A job frees exactly one slot and then one wait-group count: a slot is freed only by the step from
   Release to Finish, a count only by the step that ends a job in Finish, and no other step of a
   job changes either.
   */
  lemma JobGivesBackInOrder(c: Settings, s: System, j: nat, stamp: real, after: real)
    requires Counted(c, s) && j in s.jobs
    ensures var s' := JobNext(c, s, j, stamp, after); var p := s.jobs[j].phase;
      && s'.slots == (if p.Release? then s.slots - 1 else s.slots)
      && s'.waitGroup == (if p.Finish? then s.waitGroup - 1 else s.waitGroup)
      && (j !in s'.jobs <==> p.Finish?)
      && (p.Release? ==> s'.jobs[j].phase.Finish?)
      && (j in s'.jobs && s'.jobs[j].phase.Finish? ==> p.Release?)
  {
    JobHasShape(c, s, j, stamp, after);
    if s.jobs[j].phase.Release? {
      ReleaseCounted(c, s, j);
    } else if s.jobs[j].phase.Finish? {
      FinishCounted(c, s, j);
    }
    hide JobNext, Counted;
  }

  lemma LimiterRank(c: Settings, s: System, j: nat, found: bool)
    requires j in s.jobs && s.jobs[j].phase.Limit? && s.jobs[j].item.data.Request?
    ensures var s' := AskLimiter(c, s, j, found); j in s'.jobs && Rank(s'.jobs[j].phase) < 7
  {
    hide Bucket.Step;
  }

  lemma RequeueRank(c: Settings, s: System, j: nat, found: bool, stamp: real, after: real)
    requires j in s.jobs
    ensures var s' := RequeueStep(c, s, j, found, stamp, after); j in s'.jobs && Rank(s'.jobs[j].phase) < 6
  {}

  lemma ReplyRank(s: System, j: nat, id: string)
    requires j in s.jobs && id in s.inboxes && s.inboxes[id].buffered == 0
    ensures var s' := ReplyStep(s, j, id); j in s'.jobs && Rank(s'.jobs[j].phase) < 4
  {}

  lemma RankFalls(c: Settings, s: System, j: nat)
    requires j in s.jobs && s.jobs[j].item.data.Request?
    requires s.jobs[j].phase.Requeue? ==> s.jobs[j].phase.refusedAt <= s.clock
    requires s.jobs[j].phase.Dispatch? ==> s.jobs[j].phase.entry < |s.log|
    requires s.jobs[j].phase.Reply? ==> s.jobs[j].item.id in s.inboxes && s.inboxes[s.jobs[j].item.id].buffered == 0
    requires s.jobs[j].phase.Release? ==> 0 < s.slots
    requires s.jobs[j].phase.Finish? ==> 0 < s.waitGroup
    ensures var s' := JobNext(c, s, j, s.clock, s.clock);
      j !in s'.jobs || Rank(s'.jobs[j].phase) < Rank(s.jobs[j].phase)
  {
    hide AskLimiter, RequeueStep, ReplyStep;
    match s.jobs[j].phase
    case Limit(found) => LimiterRank(c, s, j, found); hide Enter, Move;
    case Requeue(found, _) => RequeueRank(c, s, j, found, s.clock, s.clock); hide Enter, Move;
    case Reply => ReplyRank(s, j, s.jobs[j].item.id); hide Enter, Move;
    case _ =>
  }

  /**
   No job ever blocks: in a reachable state each of its own steps lowers its rank or ends it, so a
   job is over after at most eight steps of its own. In particular sending a reply never waits.
   */
  lemma JobNeverBlocks(c: Settings, s: System, j: nat)
    requires Placed(s) && Counted(c, s) && j in s.jobs
    requires s.jobs[j].phase.Requeue? ==> s.jobs[j].phase.refusedAt <= s.clock
    requires s.jobs[j].phase.Dispatch? ==> s.jobs[j].phase.entry < |s.log|
    ensures var s' := JobNext(c, s, j, s.clock, s.clock);
      j !in s'.jobs || Rank(s'.jobs[j].phase) < Rank(s.jobs[j].phase)
  {
    assert JobInv(s, j);
    hide JobNext;
    if s.jobs[j].phase.Reply? {
      ReplyEnabled(s, j);
    }
    if s.jobs[j].phase.Release? {
      ReleaseCounted(c, s, j);
    }
    if s.jobs[j].phase.Finish? {
      FinishCounted(c, s, j);
    }
    hide Placed, Counted;
    RankFalls(c, s, j);
  }
}
