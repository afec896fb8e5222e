/**
 The worker's own code over the queue, limiter, registry and channel objects. A ghost model follows
 each access to shared state with one label of the transition system, so that what is proved of all
 runs of the system holds of this code.
 */
module Worker {
  import opened Common
  import Bucket
  import Fifo
  import opened WorkerSystem
  import opened WorkerPlaces
  import opened WorkerAccounting
  import MemoryQueue
  import InMemoryLimiter
  import Registry = ChannelRegistry

  /** A response channel with a one-slot buffer; sending to a full buffer would block. */
  class ResponseChannel {
    var sent: nat
    var buffered: nat

    constructor ()
      ensures sent == 0 && buffered == 0
    {
      sent, buffered := 0, 0;
    }

    method Send()
      requires buffered == 0
      modifies this
      ensures sent == old(sent) + 1 && buffered == 1
    {
      sent, buffered := sent + 1, 1;
    }

    method Receive()
      requires 0 < buffered
      modifies this
      ensures sent == old(sent) && buffered == old(buffered) - 1
    {
      buffered := buffered - 1;
    }
  }

  function Repeat(l: Label, n: nat): seq<Label> {
    seq(n, _ => l)
  }

  lemma {:induction false} RunOneMore(c: Settings, s: System, l: Label, n: nat)
    ensures Run(c, s, Repeat(l, n + 1)) == Next(c, Run(c, s, Repeat(l, n)), l)
    decreases n
  {
    hide Next;
    assert Repeat(l, n + 1)[1..] == Repeat(l, n);
    if n == 0 {
      assert Repeat(l, 1)[1..] == [] == Repeat(l, 0);
    } else {
      assert Repeat(l, n)[1..] == Repeat(l, n - 1);
      RunOneMore(c, Next(c, s, l), l, n - 1);
    }
  }

  /** What every run of the model keeps. */
  ghost predicate Sound(c: Settings, s: System) {
    Placed(s) && Counted(c, s)
  }

  /** Each request's channel has the model's contents, and the registry leads to it. */
  ghost predicate ChannelsMatch(m: System, boxes: map<string, ResponseChannel>, channels: map<string, ResponseChannel>)
    reads boxes.Values
  {
    && boxes.Keys == m.inboxes.Keys
    && (forall id :: id in boxes ==> m.inboxes[id] == Inbox(boxes[id].sent, boxes[id].buffered))
    && (forall i, k :: i in boxes && k in boxes && boxes[i] == boxes[k] ==> i == k)
    && channels.Keys == m.registry
    && (forall id :: id in channels ==> id in boxes && channels[id] == boxes[id])
  }

  lemma ChannelAdded(c: Settings, m: System, boxes: map<string, ResponseChannel>, channels: map<string, ResponseChannel>,
                     id: string, cost: int, ch: ResponseChannel)
    requires ChannelsMatch(m, boxes, channels)
    requires id !in m.requests && id !in boxes && ch !in boxes.Values && ch.sent == ch.buffered == 0
    ensures ChannelsMatch(Next(c, m, Register(id, cost)), boxes[id := ch], channels[id := ch])
  {
    hide Next, At;
    RegisterEffect(c, m, id, cost);
    var boxes', m' := boxes[id := ch], Next(c, m, Register(id, cost));
    assert m'.inboxes == m.inboxes[id := Inbox(0, 0)] && m'.registry == m.registry + {id};
    forall k | k in boxes ensures boxes[k] != ch && k in boxes' && boxes'[k] == boxes[k] {
      assert boxes[k] in boxes.Values;
    }
  }

  class Worker {
    const queue: MemoryQueue.InMemoryFIFO
    const limiter: InMemoryLimiter.TokenBucket
    const registry: Registry.ChannelRegistry<ResponseChannel>
    const maxConcurrent: nat
    const retryDelay: real
    var semaphore: nat
    var waitGroup: nat
    /** Whether the stop channel is closed. */
    var stopRequested: bool

    ghost var model: System
    ghost var boxes: map<string, ResponseChannel>

    ghost function Config(): Settings {
      Settings(limiter.config, queue.maxSize, queue.itemTTL, maxConcurrent, retryDelay)
    }

    /** The objects hold what the model says. */
    ghost predicate Coupled()
      reads this, queue, queue.buffer, limiter, registry, boxes.Values
    {
      && queue.Valid()
      && model.queue == queue.Contents()
      && model.bucket == limiter.View()
      && model.slots == semaphore && model.waitGroup == waitGroup && model.stopping == stopRequested
      && ChannelsMatch(model, boxes, registry.channels)
    }

    constructor (rate: real, size: int, maxSize: int, itemTTL: real, maxConcurrent: int, retryDelay: real, now: real)
      ensures Coupled() && model == Init(Config(), now)
      ensures this.maxConcurrent == if maxConcurrent <= 0 then 10 else maxConcurrent
      ensures this.retryDelay == if retryDelay <= 0.0 then 0.5 else retryDelay
      ensures Config().Valid()
      ensures limiter.config == Bucket.Configure(rate, size)
      ensures queue.maxSize == (if maxSize <= 0 then 1000 else maxSize) && queue.itemTTL == if itemTTL <= 0.0 then 86400.0 else itemTTL
    {
      queue := new MemoryQueue.InMemoryFIFO(maxSize, itemTTL);
      limiter := new InMemoryLimiter.TokenBucket(rate, size, now);
      registry := new Registry.ChannelRegistry<ResponseChannel>();
      this.maxConcurrent := if maxConcurrent <= 0 then 10 else maxConcurrent;
      this.retryDelay := if retryDelay <= 0.0 then 0.5 else retryDelay;
      semaphore, waitGroup, stopRequested := 0, 0, false;
      boxes := map[];
      new;
      model := Init(Config(), now);
    }

    // -------------------------------------------------------------- EnqueueRequest

    /** A fresh ID and its channel enter the registry. */
    method RegisterChannel(id: string, ghost cost: int, ch: ResponseChannel)
      requires Coupled() && id !in model.requests && id !in boxes && ch !in boxes.Values
      requires ch.sent == ch.buffered == 0
      modifies this`model, this`boxes, registry
      ensures Coupled() && model == Next(Config(), old(model), Register(id, cost))
      ensures registry.channels == old(registry.channels)[id := ch]
    {
      hide Next, Config, ChannelsMatch, At;
      RegisterEffect(Config(), model, id, cost);
      ChannelAdded(Config(), model, boxes, registry.channels, id, cost, ch);
      registry.Register(id, ch);
      boxes := boxes[id := ch];
      model := Next(Config(), model, Register(id, cost));
    }

    /** The item goes to the queue, or the queue is full. */
    method SubmitItem(id: string, cost: int, now: real) returns (ok: bool)
      requires Coupled() && At(model, id, Submitting) && model.requests[id].cost == cost && now <= model.clock
      modifies this`model, queue`buffer, queue`length, queue.buffer
      ensures Coupled() && model == Next(Config(), old(model), Submit(id, now))
      ensures queue.buffer == old(queue.buffer) || fresh(queue.buffer)
      ensures ok <==> old(|queue.Contents()|) < queue.maxSize
      ensures queue.Contents() == if ok then old(queue.Contents()) + [FirstItem(id, cost, now)] else old(queue.Contents())
      ensures ok ==> var q, n := queue.Contents(), old(|queue.Contents()|);
        && |q| == n + 1 && q[..n] == old(queue.Contents()) && q[n].id == id && q[n].data == Fifo.Request(id, cost)
        && q[n].enqueueTime == Some(now) && q[n].processAfter == None
    {
      hide Next;
      SubmitEffect(Config(), model, id, now);
      var r := queue.Enqueue(Some(Fifo.Item(id, Fifo.Request(id, cost), Some(now), None)), now);
      ok := r.Ok?;
      model := Next(Config(), model, Submit(id, now));
    }

    method WithdrawChannel(id: string)
      requires Coupled() && At(model, id, Withdrawing)
      modifies this`model, registry
      ensures Coupled() && model == Next(Config(), old(model), Withdraw(id))
      ensures registry.channels == old(registry.channels) - {id}
    {
      registry.Remove(id);
      model := Next(Config(), model, Withdraw(id));
    }

    /** Encoding the request failed; no object changes. */
    ghost method FailEncoding(id: string)
      requires Coupled() && At(model, id, Submitting)
      modifies this`model
      ensures Coupled() && model == Next(Config(), old(model), MarshalFails(id))
    {
      model := Next(Config(), model, MarshalFails(id));
    }

    /**
     Without interference: the request ends up last in the queue with its channel registered, or, when
     its encoding fails or the queue is full, registry and queue are as before.
     */
    method EnqueueRequest(id: string, tokenCost: int, ch: ResponseChannel, encodable: bool, now: real) returns (ok: bool)
      requires Coupled() && Placed(model) && id !in model.requests && now <= model.clock
      requires ch !in boxes.Values && ch.sent == ch.buffered == 0
      modifies this`model, this`boxes, registry, queue`buffer, queue`length, queue.buffer
      ensures Coupled()
      ensures ok <==> encodable && old(|queue.Contents()|) < queue.maxSize
      ensures queue.Contents() == if ok then old(queue.Contents()) + [FirstItem(id, tokenCost, now)] else old(queue.Contents())
      ensures ok ==> var q, n := queue.Contents(), old(|queue.Contents()|);
        && |q| == n + 1 && q[..n] == old(queue.Contents()) && q[n].id == id && q[n].data == Fifo.Request(id, tokenCost)
        && q[n].enqueueTime == Some(now) && q[n].processAfter == None
      ensures registry.channels == if ok then old(registry.channels)[id := ch] else old(registry.channels)
      ensures model == Run(Config(), old(model), EnqueueLabels(id, tokenCost, encodable, now))
    {
      hide *;
      ghost var c, m0 := Config(), model;
      NotYetRegistered(id);
      EnqueueRun(c, m0, id, tokenCost, encodable, now);
      RegisterChannel(id, tokenCost, ch);
      if encodable {
        ok := SubmitItem(id, tokenCost, now);
      } else {
        ok := false;
        FailEncoding(id);
      }
      if !ok {
        WithdrawChannel(id);
        assert old(registry.channels)[id := ch] - {id} == old(registry.channels);
      }
    }

    lemma NotYetRegistered(id: string)
      requires Coupled() && Placed(model) && id !in model.requests
      ensures id !in registry.channels && id !in boxes
      ensures Config().maxSize == queue.maxSize && queue.Valid() && model.queue == queue.Contents()
    {
      hide QueueInv, LoopInv, JobsInv;
    }

    // -------------------------------------------------------------- the sections of processItem

    /** The lookup in the registry finds the request's channel. */
    method Fetch(ghost j: nat, item: Fifo.Item, ghost now: real) returns (ch: Option<ResponseChannel>)
      requires Coupled() && j in model.jobs && model.jobs[j] == Job(item, JobPhase.Fetch)
      requires item.data.Request? && item.data.requestID == item.id && item.id in model.registry
      modifies this`model
      ensures Coupled() && model == Next(Config(), old(model), JobStep(j, now, now)) && SameObjects(old(model), model)
      ensures item.id in boxes && ch == Some(boxes[item.id])
      ensures j in model.jobs && model.jobs[j] == Job(item, Limit(true))
    {
      hide Next;
      FetchEffect(Config(), model, j, now);
      ch := registry.Get(item.data.requestID);
      model := Next(Config(), model, JobStep(j, now, now));
    }

    method AskRateLimiter(ghost j: nat, item: Fifo.Item, now: real) returns (r: Result<bool, InMemoryLimiter.Error>)
      requires Coupled() && j in model.jobs && model.jobs[j] == Job(item, Limit(true))
      requires item.data.Request? && now == model.clock
      modifies this`model, limiter
      ensures Coupled() && model == Next(Config(), old(model), JobStep(j, now, now)) && SameObjects(old(model), model)
      ensures j in model.jobs && model.jobs[j].item == item
      ensures r.Err? ==> model.jobs[j].phase == Reply
      ensures r == Ok(true) ==> model.jobs[j].phase.Dispatch? && model.jobs[j].phase.found && model.jobs[j].phase.entry < |model.log|
      ensures r == Ok(false) ==> model.jobs[j].phase == Requeue(true, now)
    {
      hide Bucket.Step, Next;
      LimiterEffect(Config(), model, j, now);
      r := limiter.AllowN(now, item.data.tokenCost);
      model := Next(Config(), model, JobStep(j, now, now));
    }

    /** The delayed item goes back to the queue, or the queue is full and the job has to answer. */
    method Reenqueue(ghost j: nat, item: Fifo.Item, now: real) returns (ok: bool)
      requires Coupled() && j in model.jobs && model.jobs[j].item == item
      requires model.jobs[j].phase.Requeue? && model.jobs[j].phase.found && model.jobs[j].phase.refusedAt <= now <= model.clock
      modifies this`model, queue`buffer, queue`length, queue.buffer
      ensures Coupled() && model == Next(Config(), old(model), JobStep(j, now, now))
      ensures SameObjects(old(model).(queue := model.queue), model)
      ensures queue.buffer == old(queue.buffer) || fresh(queue.buffer)
      ensures ok <==> old(|queue.Contents()|) < queue.maxSize
      ensures queue.Contents() == if ok then old(queue.Contents()) + [DelayedItem(Config(), item, now, now)] else old(queue.Contents())
      ensures ok ==> var q, n := queue.Contents(), old(|queue.Contents()|);
        && |q| == n + 1 && q[..n] == old(queue.Contents()) && q[n].id == item.id && q[n].data == item.data
        && q[n].enqueueTime == Some(now) && q[n].processAfter == Some(now + retryDelay)
      ensures j in model.jobs && model.jobs[j] == Job(item, if ok then Release else Reply)
    {
      hide Next;
      RequeueEffect(Config(), model, j, now);
      var delayed := item.(enqueueTime := Some(now), processAfter := Some(now + retryDelay));
      var r := queue.Enqueue(Some(delayed), now);
      ok := r.Ok?;
      model := Next(Config(), model, JobStep(j, now, now));
    }

    /** Handing the request to the LLM service and waiting for it touch no shared state of the worker. */
    ghost method CallService(j: nat, item: Fifo.Item, now: real)
      requires Coupled() && j in model.jobs && model.jobs[j].item == item
      requires model.jobs[j].phase.Dispatch? && model.jobs[j].phase.found && model.jobs[j].phase.entry < |model.log|
      modifies this`model
      ensures Coupled() && SameObjects(old(model), model)
      ensures model == Next(Config(), Next(Config(), old(model), JobStep(j, now, now)), JobStep(j, now, now))
      ensures j in model.jobs && model.jobs[j] == Job(item, Reply)
    {
      hide Next;
      ServiceEffect(Config(), model, j, now);
      model := Next(Config(), Next(Config(), model, JobStep(j, now, now)), JobStep(j, now, now));
    }

    /** The one send. */
    method SendReply(ghost j: nat, ghost item: Fifo.Item, ch: ResponseChannel, ghost now: real)
      requires Coupled() && j in model.jobs && model.jobs[j] == Job(item, Reply)
      requires item.id in boxes && ch == boxes[item.id] && ch.buffered == 0
      modifies this`model, ch
      ensures Coupled() && model == Next(Config(), old(model), JobStep(j, now, now))
      ensures SameObjects(old(model).(inboxes := model.inboxes), model)
      ensures ch.sent == old(ch.sent) + 1 && ch.buffered == 1
      ensures j in model.jobs && model.jobs[j] == Job(item, Unregister)
    {
      hide Next;
      ReplyEffect(Config(), model, j, now);
      ch.Send();
      model := Next(Config(), model, JobStep(j, now, now));
    }

    method RemoveChannel(ghost j: nat, item: Fifo.Item, ghost now: real)
      requires Coupled() && j in model.jobs && model.jobs[j] == Job(item, Unregister)
      modifies this`model, registry
      ensures Coupled() && model == Next(Config(), old(model), JobStep(j, now, now))
      ensures SameObjects(old(model).(registry := model.registry), model)
      ensures registry.channels == old(registry.channels) - {item.id}
      ensures j in model.jobs && model.jobs[j] == Job(item, Release)
    {
      hide Next;
      UnregisterEffect(Config(), model, j, now);
      registry.Remove(item.id);
      model := Next(Config(), model, JobStep(j, now, now));
    }

    /** The deferred release of the slot. */
    method FreeSlot(ghost j: nat, ghost item: Fifo.Item, ghost now: real)
      requires Coupled() && j in model.jobs && model.jobs[j] == Job(item, Release) && 0 < semaphore
      modifies this`model, this`semaphore
      ensures Coupled() && model == Next(Config(), old(model), JobStep(j, now, now))
      ensures SameObjects(old(model).(slots := model.slots), model) && semaphore == old(semaphore) - 1
      ensures j in model.jobs && model.jobs[j] == Job(item, Finish)
    {
      hide Next;
      ReleaseEffect(Config(), model, j, now);
      semaphore := semaphore - 1;
      model := Next(Config(), model, JobStep(j, now, now));
    }

    /** The deferred wg.Done. */
    method CountOut(ghost j: nat, ghost now: real)
      requires Coupled() && j in model.jobs && model.jobs[j].phase.Finish? && 0 < waitGroup
      modifies this`model, this`waitGroup
      ensures Coupled() && model == Next(Config(), old(model), JobStep(j, now, now))
      ensures SameObjects(old(model).(waitGroup := model.waitGroup), model) && waitGroup == old(waitGroup) - 1
      ensures j !in model.jobs
    {
      hide Next;
      FinishEffect(Config(), model, j, now);
      waitGroup := waitGroup - 1;
      model := Next(Config(), model, JobStep(j, now, now));
    }

    /** Sending, unregistering and leaving: the common end of every path that answers. */
    method Answer(ghost j: nat, item: Fifo.Item, ch: ResponseChannel, ghost now: real)
      requires Coupled() && j in model.jobs && model.jobs[j] == Job(item, Reply)
      requires item.id in boxes && ch == boxes[item.id] && ch.buffered == 0
      requires 0 < semaphore && 0 < waitGroup
      modifies this`model, this`semaphore, this`waitGroup, ch, registry
      ensures Coupled() && j !in model.jobs
      ensures model == Run(Config(), old(model), Repeat(JobStep(j, now, now), 4))
      ensures semaphore == old(semaphore) - 1 && waitGroup == old(waitGroup) - 1
      ensures ch.sent == old(ch.sent) + 1 && registry.channels == old(registry.channels) - {item.id}
    {
      hide Next, Run, Repeat, Coupled, SameObjects;
      FourSteps(Config(), model, JobStep(j, now, now));
      SendReply(j, item, ch, now);
      RemoveChannel(j, item, now);
      FreeSlot(j, item, now);
      CountOut(j, now);
    }

    /** The way every job begins: the channel is looked up and the limiter asked. */
    method Begin(ghost j: nat, item: Fifo.Item, now: real)
      returns (ch: ResponseChannel, r: Result<bool, InMemoryLimiter.Error>)
      requires Coupled() && j in model.jobs && model.jobs[j] == Job(item, JobPhase.Fetch) && now == model.clock
      requires item.data.Request? && item.data.requestID == item.id && item.id in model.registry
      modifies this`model, limiter
      ensures Coupled() && model == Run(Config(), old(model), Repeat(JobStep(j, now, now), 2)) && model.clock == now
      ensures item.id in boxes && ch == boxes[item.id]
      ensures j in model.jobs && model.jobs[j].item == item
      ensures r.Err? ==> model.jobs[j].phase == Reply
      ensures r == Ok(true) ==> model.jobs[j].phase.Dispatch? && model.jobs[j].phase.found && model.jobs[j].phase.entry < |model.log|
      ensures r == Ok(false) ==> model.jobs[j].phase == Requeue(true, now)
    {
      hide Next, Run, Repeat, Coupled;
      TwoSteps(Config(), model, JobStep(j, now, now));
      var found := Fetch(j, item, now);
      r := AskRateLimiter(j, item, now);
      ch := found.value;
    }

    /** Leaving without an answer: the item is back in the queue. */
    method Leave(ghost j: nat, ghost item: Fifo.Item, ghost now: real)
      requires Coupled() && j in model.jobs && model.jobs[j] == Job(item, Release)
      requires 0 < semaphore && 0 < waitGroup
      modifies this`model, this`semaphore, this`waitGroup
      ensures Coupled() && j !in model.jobs
      ensures model == Run(Config(), old(model), Repeat(JobStep(j, now, now), 5))
      ensures semaphore == old(semaphore) - 1 && waitGroup == old(waitGroup) - 1
    {
      ghost var c, m0, l := Config(), model, JobStep(j, now, now);
      hide Next, Run, Repeat, Coupled, SameObjects;
      TwoSteps(c, m0, l);
      FreeSlot(j, item, now);
      CountOut(j, now);
      GoneStays(c, model, j, now, 3);
      RunSplit(c, m0, l, 2, 3);
    }

    /** After a refusal: delayed and back in the queue, or answered when the queue is full. */
    method AfterRefusal(ghost j: nat, item: Fifo.Item, ch: ResponseChannel, now: real) returns (requeued: bool)
      requires Coupled() && j in model.jobs && model.jobs[j] == Job(item, Requeue(true, now)) && now == model.clock
      requires item.id in boxes && ch == boxes[item.id] && ch.buffered == 0
      requires 0 < semaphore && 0 < waitGroup
      modifies this`model, this`semaphore, this`waitGroup, ch, registry, queue`buffer, queue`length, queue.buffer
      ensures Coupled() && j !in model.jobs
      ensures model == Run(Config(), old(model), Repeat(JobStep(j, now, now), 6))
      ensures semaphore == old(semaphore) - 1 && waitGroup == old(waitGroup) - 1
      ensures requeued <==> old(|queue.Contents()|) < queue.maxSize
      ensures queue.Contents() == if requeued then old(queue.Contents()) + [DelayedItem(Config(), item, now, now)] else old(queue.Contents())
      ensures registry.channels == if requeued then old(registry.channels) else old(registry.channels) - {item.id}
      ensures ch.sent == old(ch.sent) + if requeued then 0 else 1
    {
      ghost var c, m0, l := Config(), model, JobStep(j, now, now);
      OneStep(c, m0, l);
      hide Next, Run, Repeat, Coupled, SameObjects, DelayedItem;
      requeued := Reenqueue(j, item, now);
      if requeued {
        Leave(j, item, now);
        RunSplit(c, m0, l, 1, 5);
      } else {
        Answer(j, item, ch, now);
        GoneStays(c, model, j, now, 1);
        RunSplit(c, m0, l, 1, 4);
        RunSplit(c, m0, l, 5, 1);
      }
    }

    /** After a grant the request is handed over, and answered whatever the service returned. */
    method AfterGrant(ghost j: nat, item: Fifo.Item, ch: ResponseChannel, ghost now: real)
      requires Coupled() && j in model.jobs && model.jobs[j].item == item
      requires model.jobs[j].phase.Dispatch? && model.jobs[j].phase.found && model.jobs[j].phase.entry < |model.log|
      requires item.id in boxes && ch == boxes[item.id] && ch.buffered == 0
      requires 0 < semaphore && 0 < waitGroup
      modifies this`model, this`semaphore, this`waitGroup, ch, registry
      ensures Coupled() && j !in model.jobs
      ensures model == Run(Config(), old(model), Repeat(JobStep(j, now, now), 6))
      ensures semaphore == old(semaphore) - 1 && waitGroup == old(waitGroup) - 1
      ensures ch.sent == old(ch.sent) + 1 && registry.channels == old(registry.channels) - {item.id}
    {
      ghost var c, m0, l := Config(), model, JobStep(j, now, now);
      hide Next, Run, Repeat, Coupled, SameObjects;
      TwoSteps(c, m0, l);
      CallService(j, item, now);
      Answer(j, item, ch, now);
      RunSplit(c, m0, l, 2, 4);
    }

    /** When the limiter reports an error the request is answered with it. */
    method AfterError(ghost j: nat, item: Fifo.Item, ch: ResponseChannel, ghost now: real)
      requires Coupled() && j in model.jobs && model.jobs[j] == Job(item, Reply)
      requires item.id in boxes && ch == boxes[item.id] && ch.buffered == 0
      requires 0 < semaphore && 0 < waitGroup
      modifies this`model, this`semaphore, this`waitGroup, ch, registry
      ensures Coupled() && j !in model.jobs
      ensures model == Run(Config(), old(model), Repeat(JobStep(j, now, now), 6))
      ensures semaphore == old(semaphore) - 1 && waitGroup == old(waitGroup) - 1
      ensures ch.sent == old(ch.sent) + 1 && registry.channels == old(registry.channels) - {item.id}
    {
      ghost var c, m0, l := Config(), model, JobStep(j, now, now);
      hide Next, Run, Repeat, Coupled, SameObjects;
      Answer(j, item, ch, now);
      GoneStays(c, model, j, now, 2);
      RunSplit(c, m0, l, 4, 2);
    }

    /**
     processItem from start to end, without interference. On every path one slot and then one count
     are given back; the request is answered on its own channel and unregistered, unless the limiter
     refused it and the queue had room: then its delayed item is the last one in the queue.
     */
    method ProcessItem(ghost j: nat, item: Fifo.Item, ghost box: ResponseChannel, now: real)
      returns (r: Result<bool, InMemoryLimiter.Error>, requeued: bool)
      requires Coupled() && Sound(Config(), model) && now == model.clock
      requires j in model.jobs && model.jobs[j] == Job(item, JobPhase.Fetch) && item.id in boxes && box == boxes[item.id]
      modifies this`model, this`semaphore, this`waitGroup, limiter, registry, queue`buffer, queue`length, queue.buffer, box
      ensures Coupled() && j !in model.jobs
      ensures model == Run(Config(), old(model), Repeat(JobStep(j, now, now), 8))
      ensures semaphore == old(semaphore) - 1 && waitGroup == old(waitGroup) - 1
      ensures requeued <==> r == Ok(false) && old(|queue.Contents()|) < queue.maxSize
      ensures queue.Contents() == if requeued then old(queue.Contents()) + [DelayedItem(Config(), item, now, now)] else old(queue.Contents())
      ensures registry.channels == if requeued then old(registry.channels) else old(registry.channels) - {item.id}
      ensures old(box.sent) == 0 && box.sent == if requeued then 0 else 1
    {
      ghost var c, m0, l := Config(), model, JobStep(j, now, now);
      hide *;
      JobStarts(j);
      RunSplit(c, m0, l, 2, 6);
      requeued := false;
      var ch;
      ch, r := Begin(j, item, now);
      if r.Err? {
        AfterError(j, item, ch, now);
      } else if r.value {
        AfterGrant(j, item, ch, now);
      } else {
        requeued := AfterRefusal(j, item, ch, now);
      }
    }

    /** A job that starts is registered and unanswered, and holds a slot and a count. */
    lemma JobStarts(j: nat)
      requires Coupled() && Sound(Config(), model) && j in model.jobs && model.jobs[j].phase == JobPhase.Fetch
      ensures var x := model.jobs[j].item;
        && x.data.Request? && x.data.requestID == x.id && x.id in model.registry
        && x.id in boxes && boxes[x.id].sent == boxes[x.id].buffered == 0
      ensures 0 < semaphore && 0 < waitGroup
    {
      assert j in Holders(model.jobs);
      assert 0 < |Holders(model.jobs)| && 0 < |model.jobs|;
      hide Counted, Holders;
      FetchFinds(model, j);
      assert JobInv(model, j);
      hide QueueInv, LoopInv, JobsInv;
    }

    // -------------------------------------------------------------- the client and the cleanup goroutine

    /** The handler takes the value out of the request's channel. */
    method ReceiveReply(ghost id: string, ch: ResponseChannel)
      requires Coupled() && id in boxes && ch == boxes[id] && 0 < ch.buffered
      modifies this`model, ch
      ensures Coupled() && model == Next(Config(), old(model), Receive(id))
      ensures ch.sent == old(ch.sent) && ch.buffered == old(ch.buffered) - 1
    {
      hide Next;
      ReceiveEffect(Config(), model, id);
      ch.Receive();
      model := Next(Config(), model, Receive(id));
    }

    /** One tick of the queue's cleanup: expired items go, and nothing else of the worker changes. */
    method CleanupTick(now: real) returns (expired: nat)
      requires Coupled() && now <= model.clock
      modifies this`model, queue`buffer, queue`length
      ensures Coupled() && model == Next(Config(), old(model), Cleanup(now))
      ensures queue.buffer == old(queue.buffer) || fresh(queue.buffer)
      ensures queue.Contents() == Fifo.Unexpired(old(queue.Contents()), queue.itemTTL, now)
      ensures expired == old(|queue.Contents()|) - |queue.Contents()|
    {
      hide Next, DoCleanup, Fifo.Unexpired;
      CleanupEffect(Config(), model, now);
      expired := queue.CleanupExpired(now);
      model := Next(Config(), model, Cleanup(now));
    }

    // -------------------------------------------------------------- stopping, and one turn of processLoop

    /** The first half of Stop: the stop channel is closed, which must not happen twice. */
    method RequestStop()
      requires Coupled() && !stopRequested
      modifies this`model, this`stopRequested
      ensures Coupled() && model == Next(Config(), old(model), StopCalled) && stopRequested
    {
      StopEffect(Config(), model);
      hide Next;
      stopRequested := true;
      model := Next(Config(), model, StopCalled);
    }

    /**
     One turn of the loop, without interference. Stopped or canceled it waits for the jobs and ends.
     Otherwise nothing happens when all slots are taken, and else the first ready item leaves the queue
     and gets a job that holds a slot and a count, or the slot is given back. With jobs left to wait for,
     or an empty queue to wait on, the turn goes on only after a step of somebody else.
     */
    method LoopTurn(now: real, canceled: bool) returns (ended: bool, started: Option<Fifo.Item>, ghost j: nat)
      requires Coupled() && model.loop == Check && canceled == model.canceled && now == model.clock
      requires if stopRequested || canceled then waitGroup == 0 else semaphore < maxConcurrent ==> queue.Contents() != []
      modifies this`model, this`semaphore, this`waitGroup, queue`length, queue.buffer
      ensures Coupled() && model.loop == (if ended then Exited else Check)
      ensures ended <==> stopRequested || canceled
      ensures var q := old(queue.Contents()); var i := Fifo.FirstReady(q, now);
        && (started.Some? <==> !ended && old(semaphore) < maxConcurrent && i < |q|)
        && (started.Some? ==>
              && started.value == q[i] && queue.Contents() == Fifo.Without(q, i)
              && j in model.jobs && model.jobs[j] == Job(q[i], JobPhase.Fetch)
              && semaphore == old(semaphore) + 1 && waitGroup == old(waitGroup) + 1)
        && (started.None? ==> queue.Contents() == q && semaphore == old(semaphore) && waitGroup == old(waitGroup))
      ensures model == Run(Config(), old(model), Repeat(LoopStep, if !ended && old(semaphore) < maxConcurrent then 4 else 2))
    {
      j := model.nextJob;
      ended, started := stopRequested || canceled, None;
      if ended {
        EndLoop();
      } else {
        started := TakeTurn(now);
      }
    }

    /** The loop leaves; its caller has seen the stop or the cancellation, and no job is left. */
    ghost method EndLoop()
      requires Coupled() && model.loop == Check && (model.stopping || model.canceled) && waitGroup == 0
      modifies this`model
      ensures Coupled() && model.loop == Exited
      ensures model == Run(Config(), old(model), Repeat(LoopStep, 2))
    {
      hide Next, Run, Repeat;
      EndEffect(Config(), model);
      TwoSteps(Config(), model, LoopStep);
      model := Run(Config(), model, Repeat(LoopStep, 2));
    }

    /** The dequeue section of a turn on a queue that is not empty. */
    method NextItem(now: real) returns (x: Option<Fifo.Item>)
      requires queue.Valid() && queue.Contents() != []
      modifies queue`length, queue.buffer
      ensures queue.Valid()
      ensures var q := old(queue.Contents()); var i := Fifo.FirstReady(q, now);
        && x == (if i < |q| then Some(q[i]) else None)
        && queue.Contents() == if i < |q| then Fifo.Without(q, i) else q
    {
      hide Fifo.Without, Fifo.Step;
      var r := queue.Dequeue(now, false);
      x := if r.Ok? then Some(r.value) else None;
    }

    /** The turn of a loop that goes on. */
    method TakeTurn(now: real) returns (started: Option<Fifo.Item>)
      requires Coupled() && model.loop == Check && !model.stopping && !model.canceled
      requires now == model.clock && (semaphore < maxConcurrent ==> queue.Contents() != [])
      modifies this`model, this`semaphore, this`waitGroup, queue`length, queue.buffer
      ensures Coupled() && model.loop == Check
      ensures var q := old(queue.Contents()); var i := Fifo.FirstReady(q, now);
        && (started.Some? <==> old(semaphore) < maxConcurrent && i < |q|)
        && (started.Some? ==>
              && started.value == q[i] && queue.Contents() == Fifo.Without(q, i)
              && old(model.nextJob) in model.jobs && model.jobs[old(model.nextJob)] == Job(q[i], JobPhase.Fetch)
              && semaphore == old(semaphore) + 1 && waitGroup == old(waitGroup) + 1)
        && (started.None? ==> queue.Contents() == q && semaphore == old(semaphore) && waitGroup == old(waitGroup))
      ensures model == Run(Config(), old(model), Repeat(LoopStep, if old(semaphore) < maxConcurrent then 4 else 2))
    {
      hide Next, Run, Repeat, Fifo.FirstReady, Fifo.Without;
      ghost var c, m0 := Config(), model;
      started := None;
      TurnEffect(c, m0);
      FourSteps(c, m0, LoopStep);
      TwoSteps(c, m0, LoopStep);
      if semaphore < maxConcurrent {
        semaphore := semaphore + 1;
        started := NextItem(now);
        if started.Some? {
          waitGroup := waitGroup + 1;
        } else {
          semaphore := semaphore - 1;
        }
        model := Run(c, m0, Repeat(LoopStep, 4));
      } else {
        model := Run(c, m0, Repeat(LoopStep, 2));
      }
    }
  }

  // ---------------------------------------------------------------- runs of a few steps

  lemma OneStep(c: Settings, s: System, l: Label)
    ensures Run(c, s, Repeat(l, 1)) == Next(c, s, l)
  {
    hide Next;
    assert Repeat(l, 1)[1..] == [];
  }

  lemma TwoSteps(c: Settings, s: System, l: Label)
    ensures Run(c, s, Repeat(l, 2)) == Next(c, Next(c, s, l), l)
  {
    hide Next;
    OneStep(c, s, l);
    RunOneMore(c, s, l, 1);
  }

  lemma FourSteps(c: Settings, s: System, l: Label)
    ensures Run(c, s, Repeat(l, 4)) == Next(c, Next(c, Next(c, Next(c, s, l), l), l), l)
  {
    hide Next;
    TwoSteps(c, s, l);
    RunOneMore(c, s, l, 2);
    RunOneMore(c, s, l, 3);
  }

  /** The labels one call of EnqueueRequest stands for; the last changes nothing when it succeeds. */
  function EnqueueLabels(id: string, cost: int, encodable: bool, now: real): seq<Label> {
    [Register(id, cost), if encodable then Submit(id, now) else MarshalFails(id), Withdraw(id)]
  }

  lemma RunThree(c: Settings, s: System, l1: Label, l2: Label, l3: Label)
    ensures Run(c, s, [l1, l2, l3]) == Next(c, Next(c, Next(c, s, l1), l2), l3)
  {
    hide Next;
    assert [l1, l2, l3][1..] == [l2, l3] && [l2, l3][1..] == [l3] && [l3][1..] == [];
    assert Run(c, s, [l1, l2, l3]) == Run(c, Next(c, s, l1), [l2, l3]);
    assert Run(c, Next(c, s, l1), [l2, l3]) == Run(c, Next(c, Next(c, s, l1), l2), [l3]);
  }

  /** What the three steps of EnqueueRequest lead to. */
  lemma EnqueueRun(c: Settings, s: System, id: string, cost: int, encodable: bool, now: real)
    requires id !in s.requests && now <= s.clock
    ensures var s1 := Next(c, s, Register(id, cost));
      var s2 := Next(c, s1, if encodable then Submit(id, now) else MarshalFails(id));
      var ok := encodable && |s.queue| < c.maxSize;
      && At(s1, id, Submitting) && s1.requests[id].cost == cost && s1.clock == s.clock && s1.queue == s.queue
      && (!ok ==> At(s2, id, Withdrawing))
      && Run(c, s, EnqueueLabels(id, cost, encodable, now)) == if ok then s2 else Next(c, s2, Withdraw(id))
  {
    var l2 := if encodable then Submit(id, now) else MarshalFails(id);
    RunThree(c, s, Register(id, cost), l2, Withdraw(id));
    var s1 := Next(c, s, Register(id, cost));
    RegisterEffect(c, s, id, cost);
    if encodable {
      SubmitEffect(c, s1, id, now);
    }
    hide DoRegister, DoSubmit;
  }

  lemma RegisterEffect(c: Settings, s: System, id: string, cost: int)
    requires id !in s.requests
    ensures var s' := Next(c, s, Register(id, cost));
      && SameObjects(s.(registry := s.registry + {id}, inboxes := s.inboxes[id := Inbox(0, 0)]), s') && s'.bucket == s.bucket
      && At(s', id, Submitting) && s'.requests[id].cost == cost
  {}

  lemma SubmitEffect(c: Settings, s: System, id: string, now: real)
    requires At(s, id, Submitting) && now <= s.clock
    ensures var s' := Next(c, s, Submit(id, now)); var ok := |s.queue| < c.maxSize;
      && s' == DoSubmit(c, s, id, now)
      && SameObjects(s.(queue := s'.queue), s') && s'.bucket == s.bucket
      && s'.queue == (if ok then s.queue + [FirstItem(id, s.requests[id].cost, now)] else s.queue)
      && At(s', id, if ok then Queued else Withdrawing)
  {}

  lemma {:induction false} RunSplit(c: Settings, s: System, l: Label, n: nat, m: nat)
    ensures Run(c, s, Repeat(l, n + m)) == Run(c, Run(c, s, Repeat(l, n)), Repeat(l, m))
    decreases n
  {
    hide Next;
    if n == 0 {
      assert Repeat(l, 0) == [];
    } else {
      assert Repeat(l, n + m)[1..] == Repeat(l, n + m - 1) && Repeat(l, n)[1..] == Repeat(l, n - 1);
      RunSplit(c, Next(c, s, l), l, n - 1, m);
    }
  }

  /** A job that is over takes no more steps. */
  lemma {:induction false} GoneStays(c: Settings, s: System, j: nat, now: real, n: nat)
    requires j !in s.jobs
    ensures Run(c, s, Repeat(JobStep(j, now, now), n)) == s
    decreases n
  {
    if 0 < n {
      assert Repeat(JobStep(j, now, now), n)[1..] == Repeat(JobStep(j, now, now), n - 1);
      GoneStays(c, s, j, now, n - 1);
    }
  }

  /** What one turn of the loop does: two steps when no slot is free, otherwise four. */
  lemma TurnEffect(c: Settings, s: System)
    requires s.loop == Check && !s.stopping && !s.canceled && (s.slots < c.maxConcurrent ==> s.queue != [])
    ensures var i := Fifo.FirstReady(s.queue, s.clock);
      var s2 := Next(c, Next(c, s, LoopStep), LoopStep);
      var s4 := Next(c, Next(c, s2, LoopStep), LoopStep);
      if c.maxConcurrent <= s.slots then s2.loop == Check && SameObjects(s, s2) && s2.bucket == s.bucket
      else
        && s4.loop == Check && s4.bucket == s.bucket
        && SameObjects(s.(queue := s4.queue, slots := s4.slots, waitGroup := s4.waitGroup), s4)
        && s4.queue == (if i < |s.queue| then Fifo.Without(s.queue, i) else s.queue)
        && s4.slots == (if i < |s.queue| then s.slots + 1 else s.slots)
        && s4.waitGroup == (if i < |s.queue| then s.waitGroup + 1 else s.waitGroup)
        && (i < |s.queue| ==> s.nextJob in s4.jobs && s4.jobs[s.nextJob] == Job(s.queue[i], JobPhase.Fetch))
  {
    hide Fifo.FirstReady, Fifo.Without;
    var i := Fifo.FirstReady(s.queue, s.clock);
    var s1 := s.(loop := Acquire);
    assert Next(c, s, LoopStep) == s1;
    if s.slots < c.maxConcurrent {
      var s2 := s.(slots := s.slots + 1, loop := Take(false));
      assert Next(c, s1, LoopStep) == s2;
      if i < |s.queue| {
        var s3 := TakeAt(s2, i);
        assert Next(c, s2, LoopStep) == s3;
        LaunchEffect(c, s3, s.queue[i]);
      } else {
        var s3 := s2.(loop := GiveBack);
        assert Next(c, s2, LoopStep) == s3;
        assert Next(c, s3, LoopStep) == s.(loop := Check);
      }
    } else {
      assert Next(c, s1, LoopStep) == s.(loop := Check);
    }
  }

  lemma StopEffect(c: Settings, s: System)
    ensures var s' := Next(c, s, StopCalled); SameObjects(s.(stopping := true), s') && s'.bucket == s.bucket
  {}

  lemma EndEffect(c: Settings, s: System)
    requires s.loop == Check && (s.stopping || s.canceled) && s.waitGroup == 0
    ensures var s' := Next(c, Next(c, s, LoopStep), LoopStep);
      s'.loop == Exited && SameObjects(s, s') && s'.bucket == s.bucket
  {
    var s1 := s.(loop := Drain);
    assert Next(c, s, LoopStep) == s1 && Next(c, s1, LoopStep) == s.(loop := Exited);
  }

  /**
   A request that EnqueueRequest accepts while no queued item is ready is the one that the next turn of
   the loop starts, at the same instant, when a slot is free.
   */
  lemma FreshRequestStarts(c: Settings, s: System, id: string, cost: int)
    requires s.loop == Check && !s.stopping && !s.canceled && s.slots < c.maxConcurrent
    requires id !in s.requests && |s.queue| < c.maxSize
    requires forall k :: 0 <= k < |s.queue| ==> s.queue[k].processAfter.Some? && s.clock < s.queue[k].processAfter.value
    ensures var s1 := Run(c, s, EnqueueLabels(id, cost, true, s.clock));
      var s2 := Run(c, s1, Repeat(LoopStep, 4));
      && s2.loop == Check && s2.queue == s.queue && s2.slots == s.slots + 1
      && s.nextJob in s2.jobs && s2.jobs[s.nextJob].phase.Fetch?
      && s2.jobs[s.nextJob].item.id == id && s2.jobs[s.nextJob].item.data == Fifo.Request(id, cost)
  {
    hide Next, Run, Repeat;
    EnqueueRun(c, s, id, cost, true, s.clock);
    EnqueueState(c, s, id, cost);
    var s1 := Run(c, s, EnqueueLabels(id, cost, true, s.clock));
    assert s1.queue == s.queue + [FirstItem(id, cost, s.clock)];
    LastIsFirstReady(s.queue, FirstItem(id, cost, s.clock), s.clock);
    TurnEffect(c, s1);
    FourSteps(c, s1, LoopStep);
  }

  lemma EnqueueState(c: Settings, s: System, id: string, cost: int)
    requires id !in s.requests && |s.queue| < c.maxSize
    ensures var s' := Next(c, Next(c, s, Register(id, cost)), Submit(id, s.clock));
      && s'.queue == s.queue + [FirstItem(id, cost, s.clock)] && s'.loop == s.loop && s'.jobs == s.jobs && s'.nextJob == s.nextJob
      && s'.slots == s.slots && s'.clock == s.clock && s'.stopping == s.stopping && s'.canceled == s.canceled
  {}

  lemma LastIsFirstReady(q: seq<Fifo.Item>, x: Fifo.Item, now: real)
    requires x.processAfter.None?
    requires forall k :: 0 <= k < |q| ==> q[k].processAfter.Some? && now < q[k].processAfter.value
    ensures Fifo.FirstReady(q + [x], now) == |q| && Fifo.Without(q + [x], |q|) == q
  {
    assert forall k :: 0 <= k < |q| ==> (q + [x])[k] == q[k];
    assert (q + [x])[|q|] == x;
  }

  lemma LaunchEffect(c: Settings, s: System, x: Fifo.Item)
    requires s.loop == Launch(x)
    ensures var s' := Next(c, s, LoopStep);
      && s'.loop == Check && s'.bucket == s.bucket
      && SameObjects(s.(waitGroup := s.waitGroup + 1), s')
      && s.nextJob in s'.jobs && s'.jobs[s.nextJob] == Job(x, JobPhase.Fetch)
  {}

  // ---------------------------------------------------------------- what single steps leave alone

  /** Everything the objects hold, but the bucket. */
  predicate SameObjects(s: System, s': System) {
    && s'.queue == s.queue && s'.registry == s.registry && s'.inboxes == s.inboxes
    && s'.slots == s.slots && s'.waitGroup == s.waitGroup && s'.clock == s.clock && s'.stopping == s.stopping
  }

  lemma FetchEffect(c: Settings, s: System, j: nat, now: real)
    requires j in s.jobs && s.jobs[j].phase == JobPhase.Fetch && s.jobs[j].item.data.Request?
    requires s.jobs[j].item.data.requestID in s.registry
    ensures var s' := Next(c, s, JobStep(j, now, now));
      && SameObjects(s, s') && s'.bucket == s.bucket
      && j in s'.jobs && s'.jobs[j] == Job(s.jobs[j].item, Limit(true))
  {}

  lemma ReplyEffect(c: Settings, s: System, j: nat, now: real)
    requires j in s.jobs && s.jobs[j].phase == Reply
    requires s.jobs[j].item.id in s.inboxes && s.inboxes[s.jobs[j].item.id].buffered == 0
    ensures var s' := Next(c, s, JobStep(j, now, now)); var id := s.jobs[j].item.id;
      && SameObjects(s.(inboxes := s.inboxes[id := Inbox(s.inboxes[id].sent + 1, 1)]), s') && s'.bucket == s.bucket
      && j in s'.jobs && s'.jobs[j] == Job(s.jobs[j].item, Unregister)
  {}

  lemma UnregisterEffect(c: Settings, s: System, j: nat, now: real)
    requires j in s.jobs && s.jobs[j].phase == Unregister
    ensures var s' := Next(c, s, JobStep(j, now, now));
      && SameObjects(s.(registry := s.registry - {s.jobs[j].item.id}), s') && s'.bucket == s.bucket
      && j in s'.jobs && s'.jobs[j] == Job(s.jobs[j].item, Release)
  {}

  lemma ReleaseEffect(c: Settings, s: System, j: nat, now: real)
    requires j in s.jobs && s.jobs[j].phase == Release && 0 < s.slots
    ensures var s' := Next(c, s, JobStep(j, now, now));
      && SameObjects(s.(slots := s.slots - 1), s') && s'.bucket == s.bucket
      && j in s'.jobs && s'.jobs[j] == Job(s.jobs[j].item, Finish)
  {}

  lemma FinishEffect(c: Settings, s: System, j: nat, now: real)
    requires j in s.jobs && s.jobs[j].phase == Finish && 0 < s.waitGroup
    ensures var s' := Next(c, s, JobStep(j, now, now));
      && SameObjects(s.(waitGroup := s.waitGroup - 1), s') && s'.bucket == s.bucket
      && j !in s'.jobs
  {}

  lemma ReceiveEffect(c: Settings, s: System, id: string)
    requires id in s.inboxes && 0 < s.inboxes[id].buffered
    ensures var s' := Next(c, s, Receive(id));
      && SameObjects(s.(inboxes := s.inboxes[id := Inbox(s.inboxes[id].sent, s.inboxes[id].buffered - 1)]), s')
      && s'.bucket == s.bucket
  {}

  lemma CleanupEffect(c: Settings, s: System, now: real)
    requires now <= s.clock
    ensures var s' := Next(c, s, Cleanup(now));
      && SameObjects(s.(queue := Fifo.Unexpired(s.queue, c.itemTTL, now)), s') && s'.bucket == s.bucket
  {}

  lemma LimiterEffect(c: Settings, s: System, j: nat, now: real)
    requires j in s.jobs && s.jobs[j].phase == Limit(true) && s.jobs[j].item.data.Request? && now == s.clock
    ensures var s' := Next(c, s, JobStep(j, now, now));
      var (b, answer) := Bucket.Step(c.bucket, s.bucket, Bucket.Event(now, Bucket.Allow(s.jobs[j].item.data.tokenCost)));
      && s'.bucket == b && SameObjects(s, s')
      && (answer == Bucket.Granted || answer == Bucket.Refused || answer == Bucket.Invalid)
      && j in s'.jobs && s'.jobs[j].item == s.jobs[j].item
      && (answer == Bucket.Invalid ==> s'.jobs[j].phase == Reply)
      && (answer == Bucket.Granted ==> s'.jobs[j].phase == Dispatch(true, |s.log|) && |s'.log| == |s.log| + 1)
      && (answer == Bucket.Refused ==> s'.jobs[j].phase == Requeue(true, now))
  {
    var cost := s.jobs[j].item.data.tokenCost;
    var (b, answer) := Bucket.Step(c.bucket, s.bucket, Bucket.Event(now, Bucket.Allow(cost)));
    assert answer == Bucket.Invalid ==> b == s.bucket;
    assert answer == Bucket.Granted || answer == Bucket.Refused || answer == Bucket.Invalid;
    hide Bucket.Step;
  }

  lemma RequeueEffect(c: Settings, s: System, j: nat, now: real)
    requires j in s.jobs && s.jobs[j].phase.Requeue? && s.jobs[j].phase.found && s.jobs[j].phase.refusedAt <= now <= s.clock
    ensures var s' := Next(c, s, JobStep(j, now, now));
      var ok := |s.queue| < c.maxSize;
      && SameObjects(s.(queue := s'.queue), s') && s'.bucket == s.bucket
      && s'.queue == (if ok then s.queue + [DelayedItem(c, s.jobs[j].item, now, now)] else s.queue)
      && j in s'.jobs && s'.jobs[j] == Job(s.jobs[j].item, if ok then Release else Reply)
  {}

  lemma ServiceEffect(c: Settings, s: System, j: nat, now: real)
    requires j in s.jobs && s.jobs[j].phase.Dispatch? && s.jobs[j].phase.found && s.jobs[j].phase.entry < |s.log|
    ensures var s' := Next(c, Next(c, s, JobStep(j, now, now)), JobStep(j, now, now));
      && SameObjects(s, s') && s'.bucket == s.bucket
      && j in s'.jobs && s'.jobs[j] == Job(s.jobs[j].item, Reply)
  {
    var s1 := DispatchStep(s, j, true, s.jobs[j].phase.entry);
    assert Next(c, s, JobStep(j, now, now)) == s1;
    assert s1.jobs[j] == Job(s.jobs[j].item, Working(true)) && SameObjects(s, s1) && s1.bucket == s.bucket;
    hide DispatchStep;
    assert Next(c, s1, JobStep(j, now, now)) == Respond(s1, j, true);
  }
}
