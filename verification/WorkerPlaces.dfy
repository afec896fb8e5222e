/** Every request is in one place: the invariant behind conservation and at-most-once reply. */
module WorkerPlaces {
  import Bucket
  import Fifo
  import opened WorkerSystem

  /** Phases in which the job still has to settle its request. */
  predicate Owner(p: JobPhase) {
    p.Fetch? || p.Limit? || p.Requeue? || p.Dispatch? || p.Working? || p.Reply?
  }

  predicate ChannelFound(p: JobPhase) {
    match p
    case Limit(found) => found
    case Requeue(found, _) => found
    case Dispatch(found, _) => found
    case Working(found) => found
    case _ => true
  }

  /** The item carries the request it was made for. */
  predicate OwnItem(s: System, x: Fifo.Item) {
    x.id in s.requests && x.data == Fifo.Request(x.id, s.requests[x.id].cost)
  }

  ghost predicate QueueInv(s: System) {
    && (forall i :: 0 <= i < |s.queue| ==> OwnItem(s, s.queue[i]) && s.requests[s.queue[i].id].place == Queued)
    && (forall i, k :: 0 <= i < k < |s.queue| ==> s.queue[i].id != s.queue[k].id)
    && (forall id :: id in s.requests && s.requests[id].place == Queued ==> InQueue(s.queue, id))
  }

  ghost predicate LoopInv(s: System) {
    && (s.loop.Launch? ==> OwnItem(s, s.loop.item) && s.requests[s.loop.item.id].place == Launching)
    && (forall id :: id in s.requests && s.requests[id].place == Launching ==> s.loop.Launch? && s.loop.item.id == id)
  }

  ghost predicate JobInv(s: System, j: nat)
    requires j in s.jobs
  {
    var job := s.jobs[j];
    && j < s.nextJob
    && OwnItem(s, job.item)
    && ChannelFound(job.phase)
    && (Owner(job.phase) ==> s.requests[job.item.id].place == InJob(j))
    && (job.phase.Unregister? ==> s.requests[job.item.id].place == Replied(j))
  }

  ghost predicate JobsInv(s: System) {
    && (forall j :: j in s.jobs ==> JobInv(s, j))
    && (forall id :: id in s.requests && s.requests[id].place.InJob? ==>
          var j := s.requests[id].place.job; j in s.jobs && Owner(s.jobs[j].phase) && s.jobs[j].item.id == id)
    && (forall id :: id in s.requests && s.requests[id].place.Replied? ==>
          var j := s.requests[id].place.job; j in s.jobs && s.jobs[j].phase.Unregister? && s.jobs[j].item.id == id)
  }

  predicate HasReply(p: Place) {
    p.Replied? || p.Answered?
  }

  ghost predicate BoxInv(s: System) {
    && s.inboxes.Keys == s.requests.Keys
    && (forall id :: id in s.requests ==>
          && s.inboxes[id].sent == (if HasReply(s.requests[id].place) then 1 else 0)
          && s.inboxes[id].buffered <= s.inboxes[id].sent)
  }

  /** The registry holds exactly the requests that were neither rejected nor answered; expired ones stay. */
  ghost predicate RegistryInv(s: System) {
    forall id :: id in s.registry <==> id in s.requests && !s.requests[id].place.Rejected? && !s.requests[id].place.Answered?
  }

  ghost predicate Placed(s: System) {
    QueueInv(s) && LoopInv(s) && JobsInv(s) && BoxInv(s) && RegistryInv(s)
  }

  lemma JobOwns(s: System, j: nat)
    requires Placed(s) && j in s.jobs
    ensures JobInv(s, j)
    ensures Owner(s.jobs[j].phase) ==> forall i :: 0 <= i < |s.queue| ==> s.queue[i].id != s.jobs[j].item.id
  {
    hide LoopInv, BoxInv, RegistryInv;
  }

  // ---------------------------------------------------------------- moving one request

  /** s' has the requests of s, except that `id` is now in `place`. */
  predicate Moved(s: System, s': System, id: string, place: Place) {
    id in s.requests && s'.requests == s.requests[id := s.requests[id].(place := place)]
  }

  lemma QueueFrame(s: System, s': System, id: string, place: Place)
    requires QueueInv(s) && Moved(s, s', id, place) && s'.queue == s.queue
    requires s.requests[id].place != Queued && place != Queued
    ensures QueueInv(s')
  {
    hide InQueue;
  }

  lemma LoopFrame(s: System, s': System, id: string, place: Place)
    requires LoopInv(s) && Moved(s, s', id, place) && s'.loop == s.loop
    requires s.requests[id].place != Launching && place != Launching
    ensures LoopInv(s')
  {}

  lemma JobsFrame(s: System, s': System, id: string, place: Place)
    requires JobsInv(s) && Moved(s, s', id, place) && s'.jobs == s.jobs && s'.nextJob == s.nextJob
    requires !s.requests[id].place.InJob? && !s.requests[id].place.Replied? && !place.InJob? && !place.Replied?
    ensures JobsInv(s')
  {
    forall j | j in s'.jobs ensures JobInv(s', j) {
      assert JobInv(s, j);
    }
  }

  /** What a job's phase says about its request's place, and the other way round. */
  predicate PhaseFits(j: nat, phase: JobPhase, place: Place) {
    && (Owner(phase) <==> place == InJob(j))
    && (phase.Unregister? <==> place == Replied(j))
    && (place.InJob? ==> place.job == j)
    && (place.Replied? ==> place.job == j)
  }

  /** Job j and its request move together. */
  lemma JobsMove(s: System, s': System, j: nat, phase: JobPhase, place: Place)
    requires JobsInv(s) && j in s.jobs && PhaseFits(j, s.jobs[j].phase, s.requests[s.jobs[j].item.id].place)
    requires Moved(s, s', s.jobs[j].item.id, place) && s'.nextJob == s.nextJob
    requires s'.jobs == s.jobs[j := s.jobs[j].(phase := phase)]
    requires ChannelFound(phase) && PhaseFits(j, phase, place)
    ensures JobsInv(s')
  {
    forall k | k in s'.jobs ensures JobInv(s', k) {
      assert JobInv(s, k) && JobInv(s, j);
    }
  }

  lemma BoxFrame(s: System, s': System, id: string, place: Place)
    requires BoxInv(s) && Moved(s, s', id, place)
    requires s'.inboxes == s.inboxes && HasReply(place) == HasReply(s.requests[id].place)
    ensures BoxInv(s')
  {}

  // ---------------------------------------------------------------- clients and clock

  lemma RegisterJobs(s: System, id: string, cost: int)
    requires JobsInv(s) && id !in s.requests
    ensures JobsInv(DoRegister(s, id, cost))
  {
    forall j | j in s.jobs ensures JobInv(DoRegister(s, id, cost), j) {
      assert JobInv(s, j);
    }
  }

  lemma RegisterPlaced(s: System, id: string, cost: int)
    requires Placed(s) && id !in s.requests
    ensures Placed(DoRegister(s, id, cost))
  {
    hide QueueInv, LoopInv, JobsInv;
    RegisterQueue(s, id, cost);
    RegisterJobs(s, id, cost);
  }

  lemma RegisterQueue(s: System, id: string, cost: int)
    requires QueueInv(s) && LoopInv(s) && id !in s.requests
    ensures QueueInv(DoRegister(s, id, cost)) && LoopInv(DoRegister(s, id, cost))
  {
    hide InQueue;
  }

  /** A client moves between places that concern nobody else. */
  lemma ClientPlaced(s: System, s': System, id: string, place: Place)
    requires Placed(s) && Moved(s, s', id, place)
    requires s.requests[id].place.Submitting? || s.requests[id].place.Withdrawing?
    requires place.Withdrawing? || place.Rejected?
    requires s' == s.(requests := s'.requests, registry := if place.Rejected? then s.registry - {id} else s.registry)
    ensures Placed(s')
  {
    QueueFrame(s, s', id, place);
    LoopFrame(s, s', id, place);
    JobsFrame(s, s', id, place);
    BoxFrame(s, s', id, place);
    hide QueueInv, LoopInv, JobsInv, BoxInv;
  }

  lemma WithdrawnPlaced(s: System, id: string)
    requires Placed(s) && id in s.requests && s.requests[id].place == Submitting
    ensures Placed(Move(s, id, Withdrawing))
  {
    hide Placed;
    ClientPlaced(s, Move(s, id, Withdrawing), id, Withdrawing);
  }

  lemma RejectedPlaced(s: System, id: string)
    requires Placed(s) && id in s.requests && s.requests[id].place == Withdrawing
    ensures Placed(Move(s.(registry := s.registry - {id}), id, Rejected))
  {
    hide Placed;
    ClientPlaced(s, Move(s.(registry := s.registry - {id}), id, Rejected), id, Rejected);
  }

  lemma ReceivePlaced(s: System, id: string)
    requires Placed(s) && id in s.inboxes && 0 < s.inboxes[id].buffered
    ensures Placed(s.(inboxes := s.inboxes[id := s.inboxes[id].(buffered := s.inboxes[id].buffered - 1)]))
  {}

  lemma InQueueAppend(q: seq<Fifo.Item>, x: Fifo.Item, id: string)
    ensures InQueue(q + [x], id) <==> InQueue(q, id) || x.id == id
  {
    if InQueue(q, id) {
      var i :| 0 <= i < |q| && q[i].id == id;
      assert (q + [x])[i].id == id;
    }
    if x.id == id {
      assert (q + [x])[|q|].id == id;
    }
    if InQueue(q + [x], id) {
      var i :| 0 <= i < |q + [x]| && (q + [x])[i].id == id;
    }
  }

  /** Appending an item that nothing in the queue belongs to keeps the queue part. */
  lemma AppendQueue(s: System, x: Fifo.Item)
    requires QueueInv(s) && OwnItem(s, x) && s.requests[x.id].place != Queued
    ensures QueueInv(Append(s, x))
  {
    var s' := Append(s, x);
    forall id | id in s'.requests && s'.requests[id].place == Queued ensures InQueue(s'.queue, id) {
      InQueueAppend(s.queue, x, id);
    }
  }

  lemma SubmitPlaced(c: Settings, s: System, id: string, stamp: real)
    requires Placed(s) && id in s.requests && s.requests[id].place == Submitting
    ensures Placed(DoSubmit(c, s, id, stamp))
  {
    if |s.queue| < c.maxSize {
      var x := FirstItem(id, s.requests[id].cost, stamp);
      AppendQueue(s, x);
      var s' := Append(s, x);
      assert RegistryInv(s') && Moved(s, s', id, Queued);
      hide QueueInv, RegistryInv;
      LoopFrame(s, s', id, Queued);
      JobsFrame(s, s', id, Queued);
      BoxFrame(s, s', id, Queued);
      hide LoopInv, JobsInv, BoxInv;
    } else {
      WithdrawnPlaced(s, id);
    }
  }

  // ---------------------------------------------------------------- cleanup

  lemma {:induction false} UnexpiredIn(q: seq<Fifo.Item>, ttl: real, now: real, x: Fifo.Item)
    requires x in Fifo.Unexpired(q, ttl, now)
    ensures x in q
  {
    if q != [] && x != q[0] {
      UnexpiredIn(q[1..], ttl, now, x);
    }
  }

  lemma {:induction false} UnexpiredDistinct(q: seq<Fifo.Item>, ttl: real, now: real)
    requires forall i, k :: 0 <= i < k < |q| ==> q[i].id != q[k].id
    ensures var r := Fifo.Unexpired(q, ttl, now); forall i, k :: 0 <= i < k < |r| ==> r[i].id != r[k].id
  {
    if q != [] {
      var rest := Fifo.Unexpired(q[1..], ttl, now);
      UnexpiredDistinct(q[1..], ttl, now);
      forall k | 0 <= k < |rest| ensures rest[k].id != q[0].id {
        UnexpiredIn(q[1..], ttl, now, rest[k]);
        var i :| 0 <= i < |q[1..]| && q[1..][i] == rest[k];
        assert q[i + 1] == rest[k];
      }
    }
  }

  /** Some queued requests of s have expired in s'. */
  predicate SomeExpired(s: System, s': System) {
    && s'.requests.Keys == s.requests.Keys
    && (forall id :: id in s.requests ==>
          s'.requests[id] == s.requests[id] ||
          (s.requests[id].place == Queued && s'.requests[id] == s.requests[id].(place := Expired)))
  }

  lemma CleanupQueue(c: Settings, s: System, now: real)
    requires QueueInv(s)
    ensures QueueInv(DoCleanup(c, s, now)) && SomeExpired(s, DoCleanup(c, s, now))
  {
    UnexpiredDistinct(s.queue, c.itemTTL, now);
    var s' := DoCleanup(c, s, now);
    hide Fifo.Unexpired;
    forall i | 0 <= i < |s'.queue|
      ensures OwnItem(s', s'.queue[i]) && s'.requests[s'.queue[i].id].place == Queued
    {
      UnexpiredIn(s.queue, c.itemTTL, now, s'.queue[i]);
      assert InQueue(s'.queue, s'.queue[i].id);
    }
  }

  lemma ExpiredElsewhere(s: System, s': System)
    requires LoopInv(s) && JobsInv(s) && BoxInv(s) && RegistryInv(s) && SomeExpired(s, s')
    requires s'.loop == s.loop && s'.jobs == s.jobs && s'.nextJob == s.nextJob
    requires s'.inboxes == s.inboxes && s'.registry == s.registry
    ensures LoopInv(s') && JobsInv(s') && BoxInv(s') && RegistryInv(s')
  {
    ExpiredJobs(s, s');
    hide JobsInv;
  }

  lemma ExpiredJobs(s: System, s': System)
    requires JobsInv(s) && SomeExpired(s, s') && s'.jobs == s.jobs && s'.nextJob == s.nextJob && s'.registry == s.registry
    ensures JobsInv(s')
  {
    forall j | j in s'.jobs ensures JobInv(s', j) {
      assert JobInv(s, j);
    }
  }

  lemma CleanupPlaced(c: Settings, s: System, now: real)
    requires Placed(s)
    ensures Placed(DoCleanup(c, s, now))
  {
    hide QueueInv, LoopInv, JobsInv, BoxInv, RegistryInv, SomeExpired;
    CleanupQueue(c, s, now);
    ExpiredElsewhere(s, DoCleanup(c, s, now));
  }

  // ---------------------------------------------------------------- the loop

  lemma TakeQueue(s: System, i: nat)
    requires QueueInv(s) && i < |s.queue|
    ensures QueueInv(TakeAt(s, i))
  {
    hide InQueue, Fifo.Without;
    var s' := TakeAt(s, i);
    TakenQueue(s.queue, i);
    forall id | id in s'.requests && s'.requests[id].place == Queued ensures InQueue(s'.queue, id) {
      assert InQueue(s.queue, id);
      StillQueued(s.queue, i, id);
    }
  }

  lemma TakenQueue(q: seq<Fifo.Item>, i: nat)
    requires i < |q|
    ensures var q' := Fifo.Without(q, i);
      |q'| == |q| - 1 && forall k :: 0 <= k < |q'| ==> q'[k] == q[if k < i then k else k + 1]
  {}

  lemma StillQueued(q: seq<Fifo.Item>, i: nat, id: string)
    requires i < |q| && InQueue(q, id) && q[i].id != id
    ensures InQueue(Fifo.Without(q, i), id)
  {
    var k :| 0 <= k < |q| && q[k].id == id;
    assert Fifo.Without(q, i)[if k < i then k else k - 1].id == id;
  }

  lemma TakePlaced(s: System, i: nat)
    requires Placed(s) && i < |s.queue| && !s.loop.Launch?
    ensures Placed(TakeAt(s, i))
  {
    var x := s.queue[i];
    var s' := TakeAt(s, i);
    TakeQueue(s, i);
    assert OwnItem(s, x) && Moved(s, s', x.id, Launching) && s.requests[x.id].place == Queued;
    hide QueueInv, Fifo.Without;
    JobsFrame(s, s', x.id, Launching);
    BoxFrame(s, s', x.id, Launching);
  }

  lemma LaunchJobs(c: Settings, s: System)
    requires JobsInv(s) && LoopInv(s) && s.loop.Launch?
    ensures JobsInv(LoopNext(c, s))
  {
    var s' := LoopNext(c, s);
    forall k | k in s.jobs ensures k != s.nextJob && JobInv(s', k) {
      assert JobInv(s, k);
    }
    assert JobInv(s', s.nextJob);
  }

  lemma LaunchPlaced(c: Settings, s: System)
    requires Placed(s) && s.loop.Launch?
    ensures Placed(LoopNext(c, s))
  {
    var s' := LoopNext(c, s);
    var id := s.loop.item.id;
    LaunchJobs(c, s);
    assert LoopInv(s') && Moved(s, s', id, InJob(s.nextJob)) && s.requests[id].place == Launching;
    hide JobsInv, LoopInv;
    QueueFrame(s, s', id, InJob(s.nextJob));
    BoxFrame(s, s', id, InJob(s.nextJob));
    hide QueueInv, BoxInv;
  }

  lemma LoopPlaced(c: Settings, s: System)
    requires Placed(s)
    ensures Placed(LoopNext(c, s))
  {
    hide *;
    if s.loop.Launch? {
      LaunchPlaced(c, s);
    } else if s.loop.Take? && Fifo.FirstReady(s.queue, s.clock) < |s.queue| {
      LoopTakes(c, s);
      TakePlaced(s, Fifo.FirstReady(s.queue, s.clock));
    } else {
      LoopQuiet(c, s);
      SameRequests(s, LoopNext(c, s));
    }
  }

  lemma LoopTakes(c: Settings, s: System)
    requires s.loop.Take? && Fifo.FirstReady(s.queue, s.clock) < |s.queue|
    ensures LoopNext(c, s) == TakeAt(s, Fifo.FirstReady(s.queue, s.clock))
  {
    hide Fifo.FirstReady, TakeAt;
  }

  /** Requests, queue, jobs and channels stay as they are, and no launch starts. */
  predicate Quiet(s: System, s': System) {
    && s'.requests == s.requests && s'.queue == s.queue && s'.jobs == s.jobs && s'.nextJob == s.nextJob
    && s'.inboxes == s.inboxes && s'.registry == s.registry
    && (s'.loop.Launch? ==> s.loop.Launch? && s'.loop == s.loop)
    && (s.loop.Launch? ==> s'.loop == s.loop)
  }

  lemma StepsQuiet(c: Settings, s: System)
    requires !s.loop.Launch?
    ensures Quiet(s, AcquireStep(c, s)) && Quiet(s, GiveBackStep(s))
  {}

  lemma TakeQuiet(s: System)
    requires !s.loop.Launch? && !(Fifo.FirstReady(s.queue, s.clock) < |s.queue|)
    ensures Quiet(s, TakeStep(s))
  {
    hide Fifo.FirstReady, TakeAt;
  }

  /** The loop moves an item only when it takes one and when it launches one. */
  lemma LoopQuiet(c: Settings, s: System)
    requires !s.loop.Launch? && !(s.loop.Take? && Fifo.FirstReady(s.queue, s.clock) < |s.queue|)
    ensures Quiet(s, LoopNext(c, s))
  {
    hide Fifo.FirstReady, TakeStep, AcquireStep, GiveBackStep, LaunchStep;
    StepsQuiet(c, s);
    if s.loop.Take? {
      TakeQuiet(s);
    }
  }

  /** A step that touches neither requests, queue, jobs nor channels, and neither starts nor ends a launch. */
  lemma SameRequests(s: System, s': System)
    requires Placed(s) && Quiet(s, s')
    ensures Placed(s')
  {
    forall j | j in s'.jobs ensures JobInv(s', j) {
      assert JobInv(s, j);
    }
  }

  // ---------------------------------------------------------------- jobs

  /** A job moves between two phases in which it owns its request. */
  lemma PhasePlaced(s: System, j: nat, phase: JobPhase)
    requires Placed(s) && j in s.jobs && Owner(s.jobs[j].phase) && Owner(phase) && ChannelFound(phase)
    ensures Placed(Enter(s, j, phase))
  {
    assert JobInv(s, j);
    var s' := Enter(s, j, phase);
    assert QueueInv(s') && LoopInv(s') && BoxInv(s') && RegistryInv(s');
    hide QueueInv, LoopInv, BoxInv, RegistryInv;
    forall k | k in s'.jobs ensures JobInv(s', k) {
      assert JobInv(s, k);
    }
  }

  /** A job that no longer owns a request moves on. */
  lemma ReleasedPlaced(s: System, j: nat)
    requires Placed(s) && j in s.jobs && s.jobs[j].phase.Release?
    ensures Placed(Enter(s, j, Finish))
  {
    assert JobInv(s, j);
    var s' := Enter(s, j, Finish);
    assert QueueInv(s') && LoopInv(s') && BoxInv(s') && RegistryInv(s');
    hide QueueInv, LoopInv, BoxInv, RegistryInv;
    forall k | k in s'.jobs ensures JobInv(s', k) {
      assert JobInv(s, k);
    }
  }

  lemma FinishedPlaced(s: System, j: nat)
    requires Placed(s) && j in s.jobs && s.jobs[j].phase.Finish?
    ensures Placed(s.(jobs := s.jobs - {j}))
  {
    var s' := s.(jobs := s.jobs - {j});
    assert QueueInv(s') && LoopInv(s') && BoxInv(s') && RegistryInv(s');
    hide QueueInv, LoopInv, BoxInv, RegistryInv;
    forall k | k in s'.jobs ensures JobInv(s', k) {
      assert JobInv(s, k);
    }
  }

  lemma RequeuePlaced(c: Settings, s: System, j: nat, x: Fifo.Item)
    requires Placed(s) && j in s.jobs && s.jobs[j].phase.Requeue?
    requires OwnItem(s, x) && x.id == s.jobs[j].item.id
    ensures Placed(Append(Enter(s, j, Release), x))
  {
    assert JobInv(s, j);
    var s1 := Enter(s, j, Release);
    assert QueueInv(s1);
    AppendQueue(s1, x);
    var s' := Append(s1, x);
    hide QueueInv;
    LoopFrame(s, s', x.id, Queued);
    BoxFrame(s, s', x.id, Queued);
    JobsMove(s, s', j, Release, Queued);
  }

  /** The buffer of an unanswered request's channel is empty, so sending never blocks. */
  lemma ReplyEnabled(s: System, j: nat)
    requires Placed(s) && j in s.jobs && s.jobs[j].phase.Reply?
    ensures s.jobs[j].item.id in s.inboxes && s.inboxes[s.jobs[j].item.id] == Inbox(0, 0)
  {
    hide QueueInv, LoopInv;
    assert JobInv(s, j);
  }

  lemma ReplyPlaced(s: System, j: nat)
    requires Placed(s) && j in s.jobs && s.jobs[j].phase.Reply?
    ensures Placed(ReplyStep(s, j, s.jobs[j].item.id))
  {
    hide JobsInv;
    ReplyEnabled(s, j);
    JobOwns(s, j);
    var id, s' := s.jobs[j].item.id, ReplyStep(s, j, s.jobs[j].item.id);
    QueueFrame(s, s', id, Replied(j));
    LoopFrame(s, s', id, Replied(j));
    JobsMove(s, s', j, Unregister, Replied(j));
    hide QueueInv, LoopInv, JobsInv, JobInv;
  }

  lemma UnregisterPlaced(s: System, j: nat)
    requires Placed(s) && j in s.jobs && s.jobs[j].phase.Unregister?
    ensures Placed(UnregisterStep(s, j, s.jobs[j].item.id))
  {
    assert JobInv(s, j);
    var id, s' := s.jobs[j].item.id, UnregisterStep(s, j, s.jobs[j].item.id);
    QueueFrame(s, s', id, Answered);
    LoopFrame(s, s', id, Answered);
    JobsMove(s, s', j, Release, Answered);
    BoxFrame(s, s', id, Answered);
    hide QueueInv, LoopInv, JobsInv, JobInv, BoxInv;
  }

  /** Fields outside the places may change with a step of the job. */
  lemma Elsewhere(s: System, s': System)
    requires Placed(s) && s' == s.(bucket := s'.bucket, log := s'.log, slots := s'.slots, waitGroup := s'.waitGroup,
                                   clock := s'.clock, stopping := s'.stopping, canceled := s'.canceled)
    ensures Placed(s')
  {
    SameRequests(s, s');
  }

  lemma LimiterPlaced(c: Settings, s: System, j: nat)
    requires Placed(s) && j in s.jobs && s.jobs[j].phase == Limit(true)
    requires s.jobs[j].item.data.Request?
    ensures Placed(AskLimiter(c, s, j, true))
  {
    hide Placed, Bucket.Step;
    var s' := AskLimiter(c, s, j, true);
    var s1 := s.(bucket := s'.bucket, log := s'.log);
    Elsewhere(s, s1);
    PhasePlaced(s1, j, s'.jobs[j].phase);
  }

  lemma DispatchPlaced(s: System, j: nat, k: nat)
    requires Placed(s) && j in s.jobs && s.jobs[j].phase == Dispatch(true, k)
    ensures Placed(DispatchStep(s, j, true, k))
  {
    hide Placed;
    if k < |s.log| {
      var s1 := s.(log := s.log[k := s.log[k].(handed := s.log[k].handed + 1)]);
      Elsewhere(s, s1);
      PhasePlaced(s1, j, Working(true));
    }
  }

  lemma ReleasePlaced(s: System, j: nat)
    requires Placed(s) && j in s.jobs && s.jobs[j].phase.Release?
    ensures Placed(ReleaseStep(s, j))
  {
    hide Placed;
    if s.slots != 0 {
      var s1 := s.(slots := s.slots - 1);
      Elsewhere(s, s1);
      ReleasedPlaced(s1, j);
    }
  }

  lemma FinishPlaced(s: System, j: nat)
    requires Placed(s) && j in s.jobs && s.jobs[j].phase.Finish?
    ensures Placed(FinishStep(s, j))
  {
    hide Placed;
    if s.waitGroup != 0 {
      var s1 := s.(waitGroup := s.waitGroup - 1);
      Elsewhere(s, s1);
      FinishedPlaced(s1, j);
    }
  }

  lemma JobPlaced(c: Settings, s: System, j: nat, stamp: real, after: real)
    requires Placed(s) && j in s.jobs
    ensures Placed(JobNext(c, s, j, stamp, after))
  {
    assert JobInv(s, j);
    var item := s.jobs[j].item;
    assert item.data.Request? && item.data.requestID == item.id;
    FetchFinds(s, j);
    hide Placed, AskLimiter, DispatchStep, ReplyStep, UnregisterStep, ReleaseStep, FinishStep, Append;
    match s.jobs[j].phase
    case Fetch => PhasePlaced(s, j, Limit(true));
    case Limit(found) => LimiterPlaced(c, s, j);
    case Requeue(found, refusedAt) =>
      if c.maxSize <= |s.queue| {
        PhasePlaced(s, j, Reply);
      } else {
        RequeuePlaced(c, s, j, DelayedItem(c, item, stamp, after));
      }
    case Dispatch(found, k) => DispatchPlaced(s, j, k);
    case Working(found) => PhasePlaced(s, j, Reply);
    case Reply => ReplyPlaced(s, j);
    case Unregister => UnregisterPlaced(s, j);
    case Release => ReleasePlaced(s, j);
    case Finish => FinishPlaced(s, j);
  }

  /** The registry still holds the channel of every request a job is to settle. */
  lemma FetchFinds(s: System, j: nat)
    requires Placed(s) && j in s.jobs
    ensures Owner(s.jobs[j].phase) ==> s.jobs[j].item.id in s.registry
  {
    assert JobInv(s, j);
    hide QueueInv, LoopInv;
  }

  lemma NextPlaced(c: Settings, s: System, l: Label)
    requires Placed(s)
    ensures Placed(Next(c, s, l))
  {
    hide Placed, LoopNext, JobNext, DoCleanup, DoSubmit, DoRegister;
    match l
    case Tick(now) => Elsewhere(s, Next(c, s, l));
    case Register(id, cost) => if id !in s.requests { RegisterPlaced(s, id, cost); }
    case Submit(id, stamp) => if At(s, id, Submitting) { SubmitPlaced(c, s, id, stamp); }
    case MarshalFails(id) => if At(s, id, Submitting) { WithdrawnPlaced(s, id); }
    case Withdraw(id) => if At(s, id, Withdrawing) { RejectedPlaced(s, id); }
    case Receive(id) => if id in s.inboxes && 0 < s.inboxes[id].buffered { ReceivePlaced(s, id); }
    case Cleanup(now) => CleanupPlaced(c, s, now);
    case StopCalled => Elsewhere(s, Next(c, s, l));
    case ContextCanceled => Elsewhere(s, Next(c, s, l));
    case LoopStep => LoopPlaced(c, s);
    case GiveUp => SameRequests(s, GiveUpStep(s));
    case JobStep(j, stamp, after) => if j in s.jobs { JobPlaced(c, s, j, stamp, after); }
  }

  lemma {:induction false} RunPlaced(c: Settings, s: System, ls: seq<Label>)
    requires Placed(s)
    ensures Placed(Run(c, s, ls))
    decreases |ls|
  {
    hide Placed, Next;
    if ls != [] {
      NextPlaced(c, s, ls[0]);
      RunPlaced(c, Next(c, s, ls[0]), ls[1..]);
    }
  }

  lemma InitPlaced(c: Settings, start: real)
    ensures Placed(Init(c, start))
  {}
}
