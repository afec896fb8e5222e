/** The times in queued items: none lies in the future by more than the retry delay. */
module WorkerTimes {
  import opened Common
  import Fifo
  import opened WorkerSystem
  import opened WorkerPlaces
  import opened WorkerStop

  predicate Timely(c: Settings, x: Fifo.Item, clock: real) {
    && x.enqueueTime.Some? && x.enqueueTime.value <= clock
    && (x.processAfter.None? || x.processAfter.value <= clock + c.retryDelay)
  }

  predicate Timed(c: Settings, s: System) {
    forall x :: x in s.queue ==> Timely(c, x, s.clock)
  }

  lemma FewerTimed(c: Settings, s: System, s': System)
    requires Timed(c, s) && s.clock <= s'.clock
    requires forall x :: x in s'.queue ==> x in s.queue
    ensures Timed(c, s')
  {}

  lemma AppendTimed(c: Settings, s: System, x: Fifo.Item)
    requires Timed(c, s) && Timely(c, x, s.clock)
    ensures Timed(c, Append(s, x))
  {
    hide Timely;
  }

  lemma JobTimed(c: Settings, s: System, j: nat, stamp: real, after: real)
    requires Timed(c, s) && Placed(s) && j in s.jobs
    ensures Timed(c, JobNext(c, s, j, stamp, after))
  {
    hide Placed, Timely, AskLimiter, RequeueStep, Append;
    match s.jobs[j].phase
    case Requeue(found, refusedAt) =>
      if refusedAt <= stamp <= after <= s.clock {
        RequeueTimed(c, s, j, found, stamp, after);
      }
    case Limit(found) =>
      LimitFound(s, j);
      LimiterBalance(c, s, j);
      FewerTimed(c, s, JobNext(c, s, j, stamp, after));
    case _ =>
      JobSteady(c, s, j, stamp, after);
      FewerTimed(c, s, JobNext(c, s, j, stamp, after));
  }

  lemma RequeueTimed(c: Settings, s: System, j: nat, found: bool, stamp: real, after: real)
    requires Timed(c, s) && j in s.jobs && stamp <= after <= s.clock
    ensures Timed(c, RequeueStep(c, s, j, found, stamp, after))
  {
    hide Append;
    var s1 := Enter(s, j, Release);
    assert s1.queue == s.queue && s1.clock == s.clock;
    AppendTimed(c, s1, DelayedItem(c, s.jobs[j].item, stamp, after));
  }

  lemma LoopTimed(c: Settings, s: System)
    requires Timed(c, s)
    ensures Timed(c, LoopNext(c, s))
  {
    hide Timely, Fifo.FirstReady;
    var s' := LoopNext(c, s);
    if s.loop.Take? && Fifo.FirstReady(s.queue, s.clock) < |s.queue| {
      LoopTakes(c, s);
      assert s'.queue == Fifo.Without(s.queue, Fifo.FirstReady(s.queue, s.clock));
    }
    FewerTimed(c, s, s');
  }

  lemma NextTimed(c: Settings, s: System, l: Label)
    requires Timed(c, s) && Placed(s) && 0.0 <= c.retryDelay
    ensures Timed(c, Next(c, s, l))
  {
    hide Placed, Timed, LoopNext, JobNext, Append, Fifo.Unexpired;
    match l
    case LoopStep => LoopTimed(c, s);
    case JobStep(j, stamp, after) => if j in s.jobs { JobTimed(c, s, j, stamp, after); }
    case Submit(id, stamp) =>
      if At(s, id, Submitting) && stamp <= s.clock {
        if |s.queue| < c.maxSize {
          AppendTimed(c, s, FirstItem(id, s.requests[id].cost, stamp));
        } else {
          FewerTimed(c, s, Next(c, s, l));
        }
      }
    case Cleanup(now) =>
      Fifo.YoungRemain(s.queue, c.itemTTL, now);
      FewerTimed(c, s, Next(c, s, l));
    case _ => FewerTimed(c, s, Next(c, s, l));
  }

  lemma {:induction false} RunTimed(c: Settings, s: System, ls: seq<Label>)
    requires Timed(c, s) && Placed(s) && 0.0 <= c.retryDelay
    ensures Timed(c, Run(c, s, ls))
    decreases |ls|
  {
    hide Placed, Timed, Next;
    if ls != [] {
      NextTimed(c, s, ls[0]);
      NextPlaced(c, s, ls[0]);
      RunTimed(c, Next(c, s, ls[0]), ls[1..]);
    }
  }

  /**
   In every reachable state a queued item was stamped at a time that has passed, and is ready to be
   served once the retry delay has gone by, however often its request was refused before.
   */
  lemma QueuedBecomesReady(c: Settings, start: real, ls: seq<Label>, x: Fifo.Item, now: real)
    requires c.Valid() && x in Reached(c, start, ls).queue && Reached(c, start, ls).clock + c.retryDelay <= now
    ensures x.enqueueTime.Some? && x.enqueueTime.value <= Reached(c, start, ls).clock
    ensures x.processAfter.None? || x.processAfter.value <= now
  {
    InitPlaced(c, start);
    hide Placed, Run;
    RunTimed(c, Init(c, start), ls);
  }
}
