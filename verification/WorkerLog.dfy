/**
 The limiter's decisions over whole runs of the worker: the bucket is the one they produce, each
 request is charged at most once, and refused requests come back no sooner than the retry delay.
 */
module WorkerLog {
  import opened Common
  import Bucket
  import Fifo
  import opened WorkerSystem
  import opened WorkerPlaces

  // ---------------------------------------------------------------- the bucket and the log

  function EventOf(e: Entry): Bucket.Event {
    Bucket.Event(e.at, Bucket.Allow(e.cost))
  }

  function Events(log: seq<Entry>): (es: seq<Bucket.Event>)
    ensures |es| == |log|
    ensures forall k :: 0 <= k < |log| ==> es[k] == EventOf(log[k])
  {
    seq(|log|, k requires 0 <= k < |log| => EventOf(log[k]))
  }

  lemma EventsAppend(log: seq<Entry>, e: Entry)
    ensures Events(log + [e]) == Events(log) + [EventOf(e)]
  {}

  function Start(c: Settings, start: real): Bucket.State {
    Bucket.Full(c.bucket, start)
  }

  /** The bucket is what the logged decisions make of a full one, and each was the bucket's own. */
  ghost predicate Replayed(c: Settings, start: real, s: System) {
    var es := Events(s.log);
    && s.bucket == Bucket.Run(c.bucket, Start(c, start), es)
    && Bucket.Monotone(start, es)
    && Bucket.LastReading(start, es) <= s.clock
    && (forall k :: 0 <= k < |s.log| ==>
          (s.log[k].granted <==> Bucket.AnswerAt(c.bucket, Start(c, start), es, k) == Bucket.Granted))
  }

  lemma DecidedReplayed(c: Settings, start: real, s: System, e: Entry)
    requires Replayed(c, start, s) && e.at == s.clock
    requires e.granted <==> Bucket.Step(c.bucket, s.bucket, EventOf(e)).1 == Bucket.Granted
    ensures Replayed(c, start, Decide(s, Bucket.Step(c.bucket, s.bucket, EventOf(e)).0, e))
  {
    hide Bucket.Step, Bucket.Run;
    var b, es := Start(c, start), Events(s.log);
    EventsAppend(s.log, e);
    var es' := es + [EventOf(e)];
    assert es'[..|es|] == es;
    Bucket.RunLast(c.bucket, b, es');
    Bucket.MonotoneAppend(start, es, EventOf(e));
    forall k | 0 <= k < |es| ensures Bucket.AnswerAt(c.bucket, b, es', k) == Bucket.AnswerAt(c.bucket, b, es, k) {
      assert es'[..k] == es[..k];
    }
  }

  lemma ReplayedFrame(c: Settings, start: real, s: System, s': System)
    requires Replayed(c, start, s) && s'.bucket == s.bucket && s.clock <= s'.clock
    requires |s'.log| == |s.log| && Events(s'.log) == Events(s.log)
    requires forall k :: 0 <= k < |s.log| ==> s'.log[k].granted == s.log[k].granted
    ensures Replayed(c, start, s')
  {
    hide Bucket.Run, Bucket.AnswerAt, Bucket.Monotone;
  }

  lemma LimiterReplayed(c: Settings, start: real, s: System, j: nat, found: bool)
    requires Replayed(c, start, s) && j in s.jobs && s.jobs[j].item.data.Request?
    ensures Replayed(c, start, AskLimiter(c, s, j, found))
  {
    hide Replayed, Bucket.Step;
    var id, cost := s.jobs[j].item.data.requestID, s.jobs[j].item.data.tokenCost;
    var (b, answer) := Bucket.Step(c.bucket, s.bucket, Bucket.Event(s.clock, Bucket.Allow(cost)));
    var s1 := AskLimiter(c, s, j, found);
    if answer == Bucket.Granted || answer == Bucket.Refused {
      var e := Entry(id, cost, s.clock, answer == Bucket.Granted, 0);
      DecidedReplayed(c, start, s, e);
      ReplayedFrame(c, start, Decide(s, b, e), s1);
    } else {
      ReplayedFrame(c, start, s, s1);
    }
  }

  lemma DispatchReplayed(c: Settings, start: real, s: System, j: nat, found: bool, k: nat)
    requires Replayed(c, start, s)
    ensures Replayed(c, start, DispatchStep(s, j, found, k))
  {
    hide Replayed;
    var s' := DispatchStep(s, j, found, k);
    assert Events(s'.log) == Events(s.log);
    ReplayedFrame(c, start, s, s');
  }

  lemma RequeueElsewhere(c: Settings, s: System, j: nat, found: bool, stamp: real, after: real)
    requires j in s.jobs
    ensures var s' := RequeueStep(c, s, j, found, stamp, after); s'.bucket == s.bucket && s'.log == s.log && s'.clock == s.clock
  {}

  lemma ReplyElsewhere(s: System, j: nat, id: string)
    ensures var s' := ReplyStep(s, j, id); s'.bucket == s.bucket && s'.log == s.log && s'.clock == s.clock
    ensures var s' := UnregisterStep(s, j, id); s'.bucket == s.bucket && s'.log == s.log && s'.clock == s.clock
  {}

  lemma JobElsewhere(c: Settings, s: System, j: nat, stamp: real, after: real)
    requires j in s.jobs && !s.jobs[j].phase.Limit? && !s.jobs[j].phase.Dispatch?
    ensures var s' := JobNext(c, s, j, stamp, after); s'.bucket == s.bucket && s'.log == s.log && s'.clock == s.clock
  {
    hide RequeueStep, ReplyStep, UnregisterStep, AskLimiter, DispatchStep;
    ReplyElsewhere(s, j, s.jobs[j].item.id);
    if s.jobs[j].phase.Requeue? {
      RequeueElsewhere(c, s, j, s.jobs[j].phase.found, stamp, after);
    }
  }

  lemma TakeElsewhere(s: System)
    ensures var s' := TakeStep(s); s'.bucket == s.bucket && s'.log == s.log && s'.clock == s.clock
  {
    hide Fifo.FirstReady, Fifo.Without;
  }

  lemma LaunchElsewhere(s: System, x: Fifo.Item)
    ensures var s' := LaunchStep(s, x); s'.bucket == s.bucket && s'.log == s.log && s'.clock == s.clock
  {}

  lemma LoopElsewhere(c: Settings, s: System)
    ensures var s' := LoopNext(c, s); s'.bucket == s.bucket && s'.log == s.log && s'.clock == s.clock
  {
    hide TakeStep, LaunchStep;
    match s.loop
    case Take(_) => TakeElsewhere(s);
    case Launch(item) => LaunchElsewhere(s, item);
    case _ =>
  }

  lemma JobReplayed(c: Settings, start: real, s: System, j: nat, stamp: real, after: real)
    requires Replayed(c, start, s) && j in s.jobs
    ensures Replayed(c, start, JobNext(c, s, j, stamp, after))
  {
    if s.jobs[j].phase.Limit? {
      hide Replayed, AskLimiter;
      if s.jobs[j].item.data.Request? {
        LimiterReplayed(c, start, s, j, s.jobs[j].phase.found);
      }
    } else if s.jobs[j].phase.Dispatch? {
      hide Replayed, DispatchStep;
      DispatchReplayed(c, start, s, j, s.jobs[j].phase.found, s.jobs[j].phase.entry);
    } else {
      hide Replayed, JobNext;
      JobElsewhere(c, s, j, stamp, after);
      ReplayedFrame(c, start, s, JobNext(c, s, j, stamp, after));
    }
  }

  lemma NextReplayed(c: Settings, start: real, s: System, l: Label)
    requires Replayed(c, start, s)
    ensures Replayed(c, start, Next(c, s, l))
  {
    hide Replayed, LoopNext, JobNext;
    match l
    case JobStep(j, stamp, after) => if j in s.jobs { JobReplayed(c, start, s, j, stamp, after); }
    case LoopStep => LoopElsewhere(c, s); ReplayedFrame(c, start, s, LoopNext(c, s));
    case _ => ReplayedFrame(c, start, s, Next(c, s, l));
  }

  // ---------------------------------------------------------------- one entry and its request

  /** A queued item stamped since `at`, which will not be served before `at` plus the retry delay. */
  predicate NotBefore(c: Settings, x: Fifo.Item, at: real) {
    && x.processAfter.Some? && at + c.retryDelay <= x.processAfter.value
    && x.enqueueTime.Some? && at <= x.enqueueTime.value
  }

  /** Where the request of granted entry k can be: it never goes back to the queue. */
  ghost predicate GrantedAt(s: System, k: nat)
    requires k < |s.log| && s.log[k].id in s.requests
  {
    var e, p := s.log[k], s.requests[s.log[k].id].place;
    || (e.handed == 1 && (p.Replied? || p.Answered?))
    || (p.InJob? && p.job in s.jobs &&
          var phase := s.jobs[p.job].phase;
          || (e.handed == 1 && (phase.Working? || phase.Reply?))
          || (e.handed == 0 && phase.Dispatch? && phase.entry == k))
  }

  /** How long the request of refused entry k still has to wait, wherever it is. */
  ghost predicate RefusedAt(c: Settings, s: System, k: nat)
    requires k < |s.log| && s.log[k].id in s.requests
  {
    var e, p := s.log[k], s.requests[s.log[k].id].place;
    && e.handed == 0
    && !p.Submitting? && !p.Withdrawing?
    && (p.Queued? ==> forall x :: x in s.queue && x.id == e.id ==> NotBefore(c, x, e.at))
    && (p.Launching? ==> e.at + c.retryDelay <= s.clock)
    && (p.InJob? && p.job in s.jobs ==>
          var phase := s.jobs[p.job].phase;
          && (phase.Fetch? || phase.Limit? ==> e.at + c.retryDelay <= s.clock)
          && (phase.Requeue? ==> e.at <= phase.refusedAt))
  }

  ghost predicate EntryInv(c: Settings, s: System, k: nat)
    requires k < |s.log|
  {
    var e := s.log[k];
    && e.id in s.requests && e.cost == s.requests[e.id].cost && 0 < e.cost && e.at <= s.clock
    && (if e.granted then GrantedAt(s, k) else RefusedAt(c, s, k))
  }

  /** An earlier decision on the same request was a refusal, at least the retry delay before. */
  ghost predicate Spaced(c: Settings, log: seq<Entry>) {
    forall i, k :: 0 <= i < k < |log| && log[i].id == log[k].id ==>
      !log[i].granted && log[i].at + c.retryDelay <= log[k].at
  }

  ghost predicate JobLog(s: System, j: nat)
    requires j in s.jobs
  {
    var phase := s.jobs[j].phase;
    && (phase.Requeue? ==> phase.refusedAt <= s.clock)
    && (phase.Dispatch? ==>
          && phase.entry < |s.log|
          && s.log[phase.entry].id == s.jobs[j].item.id
          && s.log[phase.entry].granted && s.log[phase.entry].handed == 0)
  }

  ghost predicate Logged(c: Settings, s: System) {
    && (forall k :: 0 <= k < |s.log| ==> EntryInv(c, s, k))
    && (forall j :: j in s.jobs ==> JobLog(s, j))
    && Spaced(c, s.log)
  }

  /** What an entry depends on is unchanged, but for the clock. */
  ghost predicate Unmoved(s: System, s': System, id: string) {
    && id in s.requests && id in s'.requests && s'.requests[id] == s.requests[id]
    && s.clock <= s'.clock
    && (s.requests[id].place.Queued? ==> forall x :: x in s'.queue && x.id == id ==> x in s.queue)
    && (s.requests[id].place.InJob? ==>
          var j := s.requests[id].place.job; j in s.jobs && j in s'.jobs && s'.jobs[j] == s.jobs[j])
  }

  lemma EntryFrame(c: Settings, s: System, s': System, k: nat)
    requires k < |s.log| && EntryInv(c, s, k) && k < |s'.log| && s'.log[k] == s.log[k]
    requires Unmoved(s, s', s.log[k].id)
    ensures EntryInv(c, s', k)
  {}

  /** The log is unchanged and only the request `id` has moved. */
  lemma MovedLogged(c: Settings, s: System, s': System, id: string)
    requires Logged(c, s) && s'.log == s.log
    requires forall i :: i in s.requests && i != id ==> Unmoved(s, s', i)
    requires forall k :: 0 <= k < |s.log| && s.log[k].id == id ==> EntryInv(c, s', k)
    requires forall j :: j in s'.jobs ==> JobLog(s', j)
    ensures Logged(c, s')
  {
    hide Spaced, JobLog, Unmoved, GrantedAt, RefusedAt;
    forall k | 0 <= k < |s'.log| ensures EntryInv(c, s', k) {
      if s.log[k].id != id {
        assert EntryInv(c, s, k);
        EntryFrame(c, s, s', k);
      }
    }
  }

  // ---------------------------------------------------------------- clients, clock and cleanup

  /** Nothing an entry or a job depends on has changed, but for the clock. */
  lemma QuietLogged(c: Settings, s: System, s': System)
    requires Logged(c, s) && Placed(s) && s'.log == s.log && s'.jobs == s.jobs && s.clock <= s'.clock
    requires s'.queue == s.queue && s'.requests == s.requests
    ensures Logged(c, s')
  {
    hide QueueInv, LoopInv, BoxInv, RegistryInv, Spaced;
    forall k | 0 <= k < |s'.log| ensures EntryInv(c, s', k) {
      assert EntryInv(c, s, k);
      assert Unmoved(s, s', s.log[k].id);
      EntryFrame(c, s, s', k);
    }
    forall j | j in s'.jobs ensures JobLog(s', j) {
      assert JobLog(s, j);
    }
  }

  /** No entry belongs to a request that is still on its way into the queue. */
  lemma NoEntryYet(c: Settings, s: System, k: nat)
    requires Logged(c, s) && k < |s.log|
    ensures s.log[k].id in s.requests && !s.requests[s.log[k].id].place.Submitting?
    ensures !s.requests[s.log[k].id].place.Withdrawing?
  {
    assert EntryInv(c, s, k);
    hide Spaced;
  }

  /** A client step moves a request that has no entry. */
  lemma ClientLogged(c: Settings, s: System, s': System, id: string)
    requires Logged(c, s) && Placed(s) && s'.log == s.log && s'.jobs == s.jobs && s'.clock == s.clock
    requires id !in s.requests || s.requests[id].place.Submitting? || s.requests[id].place.Withdrawing?
    requires forall i :: i in s.requests && i != id ==> i in s'.requests && s'.requests[i] == s.requests[i]
    requires forall x :: x in s'.queue && x.id != id ==> x in s.queue
    ensures Logged(c, s')
  {
    hide QueueInv, LoopInv, BoxInv, RegistryInv, EntryInv, JobLog;
    forall k | 0 <= k < |s.log| ensures s.log[k].id != id {
      NoEntryYet(c, s, k);
    }
    forall j | j in s'.jobs ensures JobLog(s', j) {
      assert JobLog(s, j);
      SameJobLog(s, s', j);
    }
    MovedLogged(c, s, s', id);
  }

  lemma SameJobLog(s: System, s': System, j: nat)
    requires j in s.jobs && JobLog(s, j) && j in s'.jobs && s'.jobs[j] == s.jobs[j]
    requires s'.log == s.log && s.clock <= s'.clock
    ensures JobLog(s', j)
  {}

  lemma CleanupLogged(c: Settings, s: System, now: real)
    requires Logged(c, s) && Placed(s)
    ensures Logged(c, DoCleanup(c, s, now))
  {
    var s' := DoCleanup(c, s, now);
    CleanupQueue(c, s, now);
    forall x | x in s'.queue ensures x in s.queue {
      UnexpiredIn(s.queue, c.itemTTL, now, x);
    }
    hide DoCleanup, QueueInv, LoopInv, BoxInv, RegistryInv, Spaced;
    forall k | 0 <= k < |s'.log| ensures EntryInv(c, s', k) {
      assert EntryInv(c, s, k);
      var id := s.log[k].id;
      if s'.requests[id] == s.requests[id] {
        EntryFrame(c, s, s', k);
      }
    }
    forall j | j in s'.jobs ensures JobLog(s', j) {
      assert JobLog(s, j);
    }
  }

  // ---------------------------------------------------------------- the loop

  /** The job that owns a request is not another job. */
  lemma OwnJob(s: System, id: string)
    requires Placed(s) && id in s.requests && s.requests[id].place.InJob?
    ensures var j := s.requests[id].place.job; j in s.jobs && s.jobs[j].item.id == id && Owner(s.jobs[j].phase)
  {
    hide QueueInv, LoopInv, BoxInv, RegistryInv;
  }

  lemma TakeLogged(c: Settings, s: System, i: nat)
    requires Logged(c, s) && Placed(s) && i < |s.queue| && Fifo.Ready(s.queue[i], s.clock)
    ensures Logged(c, TakeAt(s, i))
  {
    var x, s' := s.queue[i], TakeAt(s, i);
    assert OwnItem(s, x) && s.requests[x.id].place == Queued && x in s.queue;
    assert forall y :: y in s'.queue ==> y in s.queue;
    forall j | j in s'.jobs ensures JobLog(s', j) {
      assert JobLog(s, j);
    }
    hide QueueInv, LoopInv, BoxInv, RegistryInv, Fifo.Without;
    forall k | 0 <= k < |s.log| && s.log[k].id == x.id ensures EntryInv(c, s', k) {
      assert EntryInv(c, s, k);
    }
    hide EntryInv, JobLog, Spaced;
    MovedLogged(c, s, s', x.id);
  }

  lemma LaunchLogged(c: Settings, s: System)
    requires Logged(c, s) && Placed(s) && s.loop.Launch?
    ensures Logged(c, LaunchStep(s, s.loop.item))
  {
    var id, s' := s.loop.item.id, LaunchStep(s, s.loop.item);
    assert OwnItem(s, s.loop.item) && s.requests[id].place == Launching;
    NewHandle(s);
    hide QueueInv, LoopInv, BoxInv, RegistryInv;
    forall i | i in s.requests && i != id ensures Unmoved(s, s', i) {}
    forall j | j in s'.jobs ensures JobLog(s', j) {
      if j in s.jobs {
        assert JobLog(s, j);
      }
    }
    hide JobsInv;
    forall k | 0 <= k < |s.log| && s.log[k].id == id ensures EntryInv(c, s', k) {
      assert EntryInv(c, s, k);
    }
    hide EntryInv, JobLog, Spaced, Unmoved;
    MovedLogged(c, s, s', id);
  }

  lemma NewHandle(s: System)
    requires Placed(s)
    ensures s.nextJob !in s.jobs
  {
    hide QueueInv, LoopInv, BoxInv, RegistryInv;
    forall j | j in s.jobs ensures j < s.nextJob {
      assert JobInv(s, j);
    }
  }

  lemma LoopLogged(c: Settings, s: System)
    requires Logged(c, s) && Placed(s)
    ensures Logged(c, LoopNext(c, s))
  {
    hide Logged, Placed, LaunchStep, TakeAt;
    match s.loop
    case Launch(item) => LaunchLogged(c, s);
    case Take(_) =>
      var i := Fifo.FirstReady(s.queue, s.clock);
      if s.queue != [] && i < |s.queue| {
        TakeLogged(c, s, i);
      } else {
        QuietLogged(c, s, LoopNext(c, s));
      }
    case _ => QuietLogged(c, s, LoopNext(c, s));
  }

  // ---------------------------------------------------------------- jobs

  /** Job j has moved, perhaps together with its request; every other job and request is as before. */
  ghost predicate JobMoved(s: System, s': System, j: nat)
    requires j in s.jobs
  {
    var id := s.jobs[j].item.id;
    && s'.clock == s.clock
    && id in s.requests
    && (forall i :: i in s.requests && i != id ==> i in s'.requests && s'.requests[i] == s.requests[i])
    && (forall k :: k in s.jobs && k != j ==> k in s'.jobs && s'.jobs[k] == s.jobs[k])
    && (forall k :: k in s'.jobs && k != j ==> k in s.jobs)
    && (forall x :: x in s'.queue && x.id != id ==> x in s.queue)
  }

  lemma OthersUnmoved(s: System, s': System, j: nat)
    requires Placed(s) && j in s.jobs && JobMoved(s, s', j)
    ensures forall i :: i in s.requests && i != s.jobs[j].item.id ==> Unmoved(s, s', i)
  {
    hide QueueInv, LoopInv, BoxInv, RegistryInv;
    forall i | i in s.requests && i != s.jobs[j].item.id ensures Unmoved(s, s', i) {
      if s.requests[i].place.InJob? {
        OwnJob(s, i);
      }
    }
  }

  /** A job step that leaves the log alone. */
  lemma JobMovedLogged(c: Settings, s: System, s': System, j: nat)
    requires Logged(c, s) && Placed(s) && j in s.jobs && JobMoved(s, s', j) && s'.log == s.log
    requires forall k :: 0 <= k < |s.log| && s.log[k].id == s.jobs[j].item.id ==> EntryInv(c, s', k)
    requires j in s'.jobs ==> JobLog(s', j)
    ensures Logged(c, s')
  {
    OthersUnmoved(s, s', j);
    hide EntryInv, Placed, Unmoved;
    forall k | k in s'.jobs ensures JobLog(s', k) {
      if k != j {
        assert JobLog(s, k);
      }
    }
    hide JobLog, Spaced;
    MovedLogged(c, s, s', s.jobs[j].item.id);
  }

  /** A job that owns its request enters a phase that asks no more of the entries than the old one. */
  lemma PhaseLogged(c: Settings, s: System, j: nat, phase: JobPhase)
    requires Logged(c, s) && Placed(s) && j in s.jobs && Owner(s.jobs[j].phase)
    requires var before := s.jobs[j].phase;
      || (before.Fetch? && phase.Limit?)
      || ((before.Limit? || before.Requeue? || before.Working?) && phase.Reply?)
    ensures Logged(c, Enter(s, j, phase))
  {
    assert JobInv(s, j);
    var id, s' := s.jobs[j].item.id, Enter(s, j, phase);
    assert s.requests[id].place == InJob(j);
    assert JobMoved(s, s', j);
    forall k | 0 <= k < |s.log| && s.log[k].id == id ensures EntryInv(c, s', k) {
      assert EntryInv(c, s, k);
    }
    hide EntryInv, Placed, Spaced;
    JobMovedLogged(c, s, s', j);
  }

  /** A job that no longer owns its request changes nothing an entry depends on. */
  lemma LooseLogged(c: Settings, s: System, s': System, j: nat)
    requires Logged(c, s) && Placed(s) && j in s.jobs && !Owner(s.jobs[j].phase)
    requires s'.log == s.log && s'.clock == s.clock && s'.queue == s.queue && s'.requests == s.requests
    requires s'.jobs == s.jobs || s'.jobs == s.jobs - {j} || s'.jobs == Enter(s, j, Finish).jobs
    ensures Logged(c, s')
  {
    hide QueueInv, LoopInv, BoxInv, RegistryInv, Spaced;
    forall i | i in s.requests ensures Unmoved(s, s', i) {
      if s.requests[i].place.InJob? {
        OwnJob(s, i);
      }
    }
    hide Placed;
    forall k | 0 <= k < |s.log| ensures EntryInv(c, s', k) {
      assert EntryInv(c, s, k);
      EntryFrame(c, s, s', k);
    }
    forall k | k in s'.jobs ensures JobLog(s', k) {
      assert JobLog(s, k);
    }
  }

  lemma RequeueLogged(c: Settings, s: System, j: nat, x: Fifo.Item, after: real)
    requires Logged(c, s) && Placed(s) && j in s.jobs && s.jobs[j].phase.Requeue?
    requires s.jobs[j].phase.refusedAt <= after && x.id == s.jobs[j].item.id
    requires x.processAfter == Some(after + c.retryDelay)
    requires x.enqueueTime.Some? && s.jobs[j].phase.refusedAt <= x.enqueueTime.value
    ensures Logged(c, Append(Enter(s, j, Release), x))
  {
    hide Placed, Spaced;
    JobOwns(s, j);
    var id, s' := x.id, Append(Enter(s, j, Release), x);
    assert s.requests[id].place == InJob(j);
    assert JobMoved(s, s', j);
    forall k | 0 <= k < |s.log| && s.log[k].id == id ensures EntryInv(c, s', k) {
      assert EntryInv(c, s, k);
      forall y | y in s'.queue && y.id == id ensures y == x {
        var i :| 0 <= i < |s'.queue| && s'.queue[i] == y;
      }
    }
    hide EntryInv, Placed, Spaced;
    JobMovedLogged(c, s, s', j);
  }

  lemma ReplyLogged(c: Settings, s: System, j: nat)
    requires Logged(c, s) && Placed(s) && j in s.jobs && s.jobs[j].phase.Reply?
    ensures Logged(c, ReplyStep(s, j, s.jobs[j].item.id))
  {
    hide Placed, Spaced;
    ReplyEnabled(s, j);
    JobOwns(s, j);
    var id, s' := s.jobs[j].item.id, ReplyStep(s, j, s.jobs[j].item.id);
    assert s.requests[id].place == InJob(j);
    assert JobMoved(s, s', j);
    forall k | 0 <= k < |s.log| && s.log[k].id == id ensures EntryInv(c, s', k) {
      assert EntryInv(c, s, k);
    }
    hide EntryInv, Spaced;
    JobMovedLogged(c, s, s', j);
  }

  lemma UnregisterLogged(c: Settings, s: System, j: nat)
    requires Logged(c, s) && Placed(s) && j in s.jobs && s.jobs[j].phase.Unregister?
    ensures Logged(c, UnregisterStep(s, j, s.jobs[j].item.id))
  {
    hide Placed, Spaced;
    JobOwns(s, j);
    var id, s' := s.jobs[j].item.id, UnregisterStep(s, j, s.jobs[j].item.id);
    assert s.requests[id].place == Replied(j);
    assert JobMoved(s, s', j);
    forall k | 0 <= k < |s.log| && s.log[k].id == id ensures EntryInv(c, s', k) {
      assert EntryInv(c, s, k);
    }
    hide EntryInv, Spaced;
    JobMovedLogged(c, s, s', j);
  }

  /** Only the job in Dispatch can set the mark, and only on its own entry. */
  lemma DispatchLogged(c: Settings, s: System, j: nat, k: nat)
    requires Logged(c, s) && Placed(s) && j in s.jobs && s.jobs[j].phase == Dispatch(true, k)
    ensures Logged(c, DispatchStep(s, j, true, k))
  {
    hide Placed;
    JobOwns(s, j);
    assert JobLog(s, j);
    var id, s' := s.jobs[j].item.id, DispatchStep(s, j, true, k);
    assert s.requests[id].place == InJob(j) && s.log[k].id == id;
    assert JobMoved(s, s', j);
    OthersUnmoved(s, s', j);
    forall i | i in s.jobs && i != j ensures s.jobs[i].phase.Dispatch? ==> s.jobs[i].phase.entry != k {
      JobOwns(s, i);
      assert JobLog(s, i);
    }
    forall i | 0 <= i < |s'.log| ensures EntryInv(c, s', i) {
      assert EntryInv(c, s, i);
      assert s.log[i].id == id ==> i <= k && (i < k ==> !s.log[i].granted);
      if s.log[i].id != id {
        EntryFrame(c, s, s', i);
      }
    }
    forall i | i in s'.jobs ensures JobLog(s', i) {
      assert JobLog(s, i);
    }
  }

  /** The limiter's answer is logged: earlier entries on the request were refusals long enough ago. */
  lemma DecidedLogged(c: Settings, s: System, j: nat, b: Bucket.State, e: Entry, phase: JobPhase)
    requires Logged(c, s) && Placed(s) && j in s.jobs && s.jobs[j].phase == Limit(true) && 0.0 < c.retryDelay
    requires e.id == s.jobs[j].item.id && e.id in s.requests && e.cost == s.requests[e.id].cost && 0 < e.cost
    requires e.at == s.clock && e.handed == 0
    requires phase == if e.granted then Dispatch(true, |s.log|) else Requeue(true, s.clock)
    ensures Logged(c, Enter(Decide(s, b, e), j, phase))
  {
    hide Placed;
    JobOwns(s, j);
    var id, s' := e.id, Enter(Decide(s, b, e), j, phase);
    assert s.requests[id].place == InJob(j);
    assert JobMoved(s, s', j);
    OthersUnmoved(s, s', j);
    assert s'.jobs == s.jobs[j := s.jobs[j].(phase := phase)] && s'.log == s.log + [e] && s'.clock == s.clock;
    forall i | i in s'.jobs ensures JobLog(s', i) {
      assert JobLog(s, i);
    }
    hide Placed, JobMoved, JobLog;
    forall i | 0 <= i < |s.log|
      ensures EntryInv(c, s', i)
      ensures s.log[i].id == id ==> !s.log[i].granted && s.log[i].at + c.retryDelay <= e.at
    {
      assert EntryInv(c, s, i);
      if s.log[i].id != id {
        EntryFrame(c, s, s', i);
      }
    }
    assert EntryInv(c, s', |s.log|);
    hide EntryInv, Unmoved;
    assert Spaced(c, s'.log);
  }

  lemma LimiterLogged(c: Settings, s: System, j: nat)
    requires Logged(c, s) && Placed(s) && j in s.jobs && s.jobs[j].phase == Limit(true) && 0.0 < c.retryDelay
    requires s.jobs[j].item.data.Request?
    ensures Logged(c, AskLimiter(c, s, j, true))
  {
    assert JobInv(s, j);
    hide Logged, Placed;
    var id, cost := s.jobs[j].item.data.requestID, s.jobs[j].item.data.tokenCost;
    var ev := Bucket.Event(s.clock, Bucket.Allow(cost));
    var (b, answer) := Bucket.Step(c.bucket, s.bucket, ev);
    assert answer == Bucket.Granted || answer == Bucket.Refused ==> 0 < cost;
    hide Bucket.Step;
    if answer == Bucket.Granted {
      DecidedLogged(c, s, j, b, Entry(id, cost, s.clock, true, 0), Dispatch(true, |s.log|));
    } else if answer == Bucket.Refused {
      DecidedLogged(c, s, j, b, Entry(id, cost, s.clock, false, 0), Requeue(true, s.clock));
    } else {
      PhaseLogged(c, s, j, Reply);
    }
  }

  lemma JobLogged(c: Settings, s: System, j: nat, stamp: real, after: real)
    requires Logged(c, s) && Placed(s) && j in s.jobs && 0.0 < c.retryDelay
    ensures Logged(c, JobNext(c, s, j, stamp, after))
  {
    assert JobInv(s, j);
    var item := s.jobs[j].item;
    assert item.data.Request? && item.data.requestID == item.id;
    FetchFinds(s, j);
    hide Logged, Placed, AskLimiter, DispatchStep, ReplyStep, UnregisterStep, Append;
    match s.jobs[j].phase
    case Fetch => PhaseLogged(c, s, j, Limit(true));
    case Limit(found) => LimiterLogged(c, s, j);
    case Requeue(found, refusedAt) =>
      if c.maxSize <= |s.queue| {
        PhaseLogged(c, s, j, Reply);
      } else if refusedAt <= stamp <= after <= s.clock {
        RequeueLogged(c, s, j, DelayedItem(c, item, stamp, after), after);
      }
    case Dispatch(found, k) => DispatchLogged(c, s, j, k);
    case Working(found) => PhaseLogged(c, s, j, Reply);
    case Reply => ReplyLogged(c, s, j);
    case Unregister => UnregisterLogged(c, s, j);
    case Release => LooseLogged(c, s, ReleaseStep(s, j), j);
    case Finish => LooseLogged(c, s, FinishStep(s, j), j);
  }

  lemma SubmitLogged(c: Settings, s: System, id: string, stamp: real)
    requires Logged(c, s) && Placed(s) && At(s, id, Submitting)
    ensures Logged(c, DoSubmit(c, s, id, stamp))
  {
    hide Logged, Placed;
    var s' := DoSubmit(c, s, id, stamp);
    forall x | x in s'.queue && x.id != id ensures x in s.queue {
      assert s'.queue == s.queue || s'.queue == s.queue + [FirstItem(id, s.requests[id].cost, stamp)];
    }
    ClientLogged(c, s, s', id);
  }

  lemma NextLogged(c: Settings, s: System, l: Label)
    requires Logged(c, s) && Placed(s) && 0.0 < c.retryDelay
    ensures Logged(c, Next(c, s, l))
  {
    hide Logged, Placed, LoopNext, JobNext, DoCleanup, DoSubmit;
    match l
    case Tick(now) => QuietLogged(c, s, Next(c, s, l));
    case Register(id, cost) => if id !in s.requests { ClientLogged(c, s, Next(c, s, l), id); }
    case Submit(id, stamp) => if At(s, id, Submitting) { SubmitLogged(c, s, id, stamp); }
    case MarshalFails(id) => if At(s, id, Submitting) { ClientLogged(c, s, Next(c, s, l), id); }
    case Withdraw(id) => if At(s, id, Withdrawing) { ClientLogged(c, s, Next(c, s, l), id); }
    case Receive(id) => QuietLogged(c, s, Next(c, s, l));
    case Cleanup(now) => CleanupLogged(c, s, now);
    case StopCalled => QuietLogged(c, s, Next(c, s, l));
    case ContextCanceled => QuietLogged(c, s, Next(c, s, l));
    case LoopStep => LoopLogged(c, s);
    case GiveUp => QuietLogged(c, s, Next(c, s, l));
    case JobStep(j, stamp, after) => if j in s.jobs { JobLogged(c, s, j, stamp, after); }
  }

  // ---------------------------------------------------------------- reachable states

  ghost predicate Good(c: Settings, start: real, s: System) {
    Placed(s) && Replayed(c, start, s) && Logged(c, s)
  }

  lemma {:induction false} RunGood(c: Settings, start: real, s: System, ls: seq<Label>)
    requires Good(c, start, s) && 0.0 < c.retryDelay
    ensures Good(c, start, Run(c, s, ls))
    decreases |ls|
  {
    hide Placed, Replayed, Logged, Next;
    if ls != [] {
      NextPlaced(c, s, ls[0]);
      NextReplayed(c, start, s, ls[0]);
      NextLogged(c, s, ls[0]);
      RunGood(c, start, Next(c, s, ls[0]), ls[1..]);
    }
  }

  lemma ReachedGood(c: Settings, start: real, ls: seq<Label>)
    requires c.Valid()
    ensures Good(c, start, Reached(c, start, ls))
  {
    InitPlaced(c, start);
    hide Placed;
    assert Events([]) == [];
    RunGood(c, start, Init(c, start), ls);
  }
}
