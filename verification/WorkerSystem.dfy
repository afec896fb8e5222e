/**
 The worker as a transition system: clients that enqueue requests, the processing loop, any number
 of concurrent jobs, the in-memory queue and limiter, the channel registry and the response
 channels. A step is one access to shared state; a run is any sequence of labels, so every
 interleaving is a run. A label that is not enabled leaves the state alone.
 */
module WorkerSystem {
  import opened Common
  import Bucket
  import Fifo

  datatype Settings = Settings(bucket: Bucket.Config, maxSize: nat, itemTTL: real, maxConcurrent: nat, retryDelay: real) {
    predicate Valid() {
      bucket.Valid() && 0.0 < itemTTL && 0.0 < retryDelay
    }
  }

  /** Where processItem is. `found` tells whether the registry held a channel for the request. */
  datatype JobPhase =
    | Fetch
    | Limit(found: bool)
    | Requeue(found: bool, refusedAt: real)
    | Dispatch(found: bool, entry: nat)
    | Working(found: bool)
    | Reply
    | Unregister
    | Release
    | Finish

  datatype Job = Job(item: Fifo.Item, phase: JobPhase)

  /** Where processLoop is. `waited` tells that Dequeue found the queue empty and waits for a wake-up. */
  datatype LoopPhase = Check | Acquire | Take(waited: bool) | GiveBack | Launch(item: Fifo.Item) | Drain | Exited

  /**
   Where a request is. The first two are the program counter of EnqueueRequest; the others record
   history and steer nothing.
   */
  datatype Place =
    | Submitting
    | Withdrawing
    | Rejected
    | Queued
    | Launching
    | InJob(job: nat)
    | Replied(job: nat)
    | Answered
    | Expired

  datatype Request = Request(cost: int, place: Place)

  /** A response channel: how many values were sent, and how many wait in its one-slot buffer. */
  datatype Inbox = Inbox(sent: nat, buffered: nat)

  /** One decision of the limiter; `handed` counts how often it sent the request to the LLM service. */
  datatype Entry = Entry(id: string, cost: int, at: real, granted: bool, handed: nat)

  datatype System = System(
    clock: real,
    bucket: Bucket.State,
    queue: seq<Fifo.Item>,
    registry: set<string>,
    inboxes: map<string, Inbox>,
    loop: LoopPhase,
    jobs: map<nat, Job>,
    nextJob: nat,
    slots: nat,
    waitGroup: nat,
    stopping: bool,
    canceled: bool,
    requests: map<string, Request>,
    log: seq<Entry>)

  datatype Label =
    | Tick(now: real)
    | Register(id: string, cost: int)
    | Submit(id: string, stamp: real)
    | MarshalFails(id: string)
    | Withdraw(id: string)
    | Receive(id: string)
    | Cleanup(now: real)
    | StopCalled
    | ContextCanceled
    | LoopStep
    | GiveUp
    | JobStep(job: nat, stamp: real, after: real)

  function Init(c: Settings, start: real): System {
    System(start, Bucket.Full(c.bucket, start), [], {}, map[], Check, map[], 0, 0, 0, false, false, map[], [])
  }

  function Move(s: System, id: string, place: Place): System {
    if id in s.requests then s.(requests := s.requests[id := s.requests[id].(place := place)]) else s
  }

  function Enter(s: System, j: nat, phase: JobPhase): System {
    if j in s.jobs then s.(jobs := s.jobs[j := s.jobs[j].(phase := phase)]) else s
  }

  // ---------------------------------------------------------------- EnqueueRequest

  function FirstItem(id: string, cost: int, stamp: real): Fifo.Item {
    Fifo.Item(id, Fifo.Request(id, cost), Some(stamp), None)
  }

  function DoRegister(s: System, id: string, cost: int): System {
    s.(registry := s.registry + {id},
       inboxes := s.inboxes[id := Inbox(0, 0)],
       requests := s.requests[id := Request(cost, Submitting)])
  }

  function Append(s: System, x: Fifo.Item): System {
    Move(s.(queue := s.queue + [x]), x.id, Queued)
  }

  function DoSubmit(c: Settings, s: System, id: string, stamp: real): System
    requires id in s.requests
  {
    if c.maxSize <= |s.queue| then Move(s, id, Withdrawing)
    else Append(s, FirstItem(id, s.requests[id].cost, stamp))
  }

  function At(s: System, id: string, place: Place): bool {
    id in s.requests && s.requests[id].place == place
  }

  // ---------------------------------------------------------------- processLoop

  /** A slot is taken when one is free; otherwise the loop sleeps and starts over. */
  function AcquireStep(c: Settings, s: System): System {
    if s.slots < c.maxConcurrent then s.(slots := s.slots + 1, loop := Take(false)) else s.(loop := Check)
  }

  /** Dequeue: waits on an empty queue; otherwise it takes the first ready item or reports that there is none. */
  function TakeStep(s: System): System {
    if s.queue == [] then s.(loop := Take(true)) else
    var i := Fifo.FirstReady(s.queue, s.clock);
    if i == |s.queue| then s.(loop := GiveBack) else TakeAt(s, i)
  }

  /** A Dequeue that waited may see the canceled context, also when an item has come in meanwhile. */
  function GiveUpStep(s: System): System {
    if s.loop == Take(true) && s.canceled then s.(loop := GiveBack) else s
  }

  function GiveBackStep(s: System): System {
    if s.slots == 0 then s else s.(slots := s.slots - 1, loop := Check)
  }

  function LaunchStep(s: System, item: Fifo.Item): System {
    Move(s.(waitGroup := s.waitGroup + 1,
            jobs := s.jobs[s.nextJob := Job(item, Fetch)],
            nextJob := s.nextJob + 1,
            loop := Check), item.id, InJob(s.nextJob))
  }

  function LoopNext(c: Settings, s: System): System {
    match s.loop
    case Check => s.(loop := if s.stopping || s.canceled then Drain else Acquire)
    case Acquire => AcquireStep(c, s)
    case Take(_) => TakeStep(s)
    case GiveBack => GiveBackStep(s)
    case Launch(item) => LaunchStep(s, item)
    case Drain => if s.waitGroup == 0 then s.(loop := Exited) else s
    case Exited => s
  }

  function TakeAt(s: System, i: nat): System
    requires i < |s.queue|
  {
    Move(s.(queue := Fifo.Without(s.queue, i), loop := Launch(s.queue[i])), s.queue[i].id, Launching)
  }

  // ---------------------------------------------------------------- processItem

  /** With a channel the job goes on to send; without one it only frees what it holds. */
  function Respond(s: System, j: nat, found: bool): System {
    Enter(s, j, if found then Reply else Release)
  }

  /** The limiter's decision is recorded together with the bucket it leaves. */
  function Decide(s: System, b: Bucket.State, e: Entry): System {
    s.(bucket := b, log := s.log + [e])
  }

  function AskLimiter(c: Settings, s: System, j: nat, found: bool): System
    requires j in s.jobs && s.jobs[j].item.data.Request?
  {
    var id, cost := s.jobs[j].item.data.requestID, s.jobs[j].item.data.tokenCost;
    var (b, answer) := Bucket.Step(c.bucket, s.bucket, Bucket.Event(s.clock, Bucket.Allow(cost)));
    if answer == Bucket.Granted then Enter(Decide(s, b, Entry(id, cost, s.clock, true, 0)), j, Dispatch(found, |s.log|))
    else if answer == Bucket.Refused then Enter(Decide(s, b, Entry(id, cost, s.clock, false, 0)), j, Requeue(found, s.clock))
    else Respond(s, j, found)
  }

  function DelayedItem(c: Settings, x: Fifo.Item, stamp: real, after: real): Fifo.Item {
    x.(enqueueTime := Some(stamp), processAfter := Some(after + c.retryDelay))
  }

  /** Decode the payload and look the channel up. */
  function FetchStep(s: System, j: nat): System
    requires j in s.jobs
  {
    if s.jobs[j].item.data.Malformed? then Enter(s, j, Release)
    else Enter(s, j, Limit(s.jobs[j].item.data.requestID in s.registry))
  }

  /** Re-enqueue behind the others, not to be served before the retry delay is over. */
  function RequeueStep(c: Settings, s: System, j: nat, found: bool, stamp: real, after: real): System
    requires j in s.jobs
  {
    if c.maxSize <= |s.queue| then Respond(s, j, found)
    else Append(Enter(s, j, Release), DelayedItem(c, s.jobs[j].item, stamp, after))
  }

  function DispatchStep(s: System, j: nat, found: bool, k: nat): System {
    if |s.log| <= k then s else Enter(s.(log := s.log[k := s.log[k].(handed := s.log[k].handed + 1)]), j, Working(found))
  }

  /** Sending blocks while the one-slot buffer is full. */
  function ReplyStep(s: System, j: nat, id: string): System {
    if id !in s.inboxes || 0 < s.inboxes[id].buffered then s else
    Enter(Move(s.(inboxes := s.inboxes[id := Inbox(s.inboxes[id].sent + 1, 1)]), id, Replied(j)), j, Unregister)
  }

  function UnregisterStep(s: System, j: nat, id: string): System {
    Enter(Move(s.(registry := s.registry - {id}), id, Answered), j, Release)
  }

  /** The deferred calls run last in, first out: the slot is freed, then the job is counted out. */
  function ReleaseStep(s: System, j: nat): System {
    if s.slots == 0 then s else Enter(s.(slots := s.slots - 1), j, Finish)
  }

  function FinishStep(s: System, j: nat): System {
    if s.waitGroup == 0 then s else s.(waitGroup := s.waitGroup - 1, jobs := s.jobs - {j})
  }

  function JobNext(c: Settings, s: System, j: nat, stamp: real, after: real): System
    requires j in s.jobs
  {
    var item := s.jobs[j].item;
    match s.jobs[j].phase
    case Fetch => FetchStep(s, j)
    case Limit(found) => if item.data.Malformed? then s else AskLimiter(c, s, j, found)
    case Requeue(found, refusedAt) =>
      if refusedAt <= stamp <= after <= s.clock then RequeueStep(c, s, j, found, stamp, after) else s
    case Dispatch(found, k) => DispatchStep(s, j, found, k)
    case Working(found) => Respond(s, j, found)
    case Reply => ReplyStep(s, j, item.id)
    case Unregister => UnregisterStep(s, j, item.id)
    case Release => ReleaseStep(s, j)
    case Finish => FinishStep(s, j)
  }

  // ---------------------------------------------------------------- the system

  function DoCleanup(c: Settings, s: System, now: real): System {
    s.(queue := Fifo.Unexpired(s.queue, c.itemTTL, now),
       requests := map id | id in s.requests ::
         if s.requests[id].place == Queued && !InQueue(Fifo.Unexpired(s.queue, c.itemTTL, now), id)
         then s.requests[id].(place := Expired) else s.requests[id])
  }

  predicate InQueue(q: seq<Fifo.Item>, id: string) {
    exists i :: 0 <= i < |q| && q[i].id == id
  }

  function Next(c: Settings, s: System, l: Label): System {
    match l
    case Tick(now) => if s.clock <= now then s.(clock := now) else s
    case Register(id, cost) => if id in s.requests then s else DoRegister(s, id, cost)
    case Submit(id, stamp) => if At(s, id, Submitting) && stamp <= s.clock then DoSubmit(c, s, id, stamp) else s
    case MarshalFails(id) => if At(s, id, Submitting) then Move(s, id, Withdrawing) else s
    case Withdraw(id) =>
      if At(s, id, Withdrawing) then Move(s.(registry := s.registry - {id}), id, Rejected) else s
    case Receive(id) =>
      if id in s.inboxes && 0 < s.inboxes[id].buffered
      then s.(inboxes := s.inboxes[id := s.inboxes[id].(buffered := s.inboxes[id].buffered - 1)]) else s
    case Cleanup(now) => if now <= s.clock then DoCleanup(c, s, now) else s
    case StopCalled => s.(stopping := true)
    case ContextCanceled => s.(canceled := true)
    case LoopStep => LoopNext(c, s)
    case GiveUp => GiveUpStep(s)
    case JobStep(j, stamp, after) => if j in s.jobs then JobNext(c, s, j, stamp, after) else s
  }

  function Run(c: Settings, s: System, ls: seq<Label>): System
    decreases |ls|
  {
    if ls == [] then s else Run(c, Next(c, s, ls[0]), ls[1..])
  }

  /** The state after any sequence of labels. */
  function Reached(c: Settings, start: real, ls: seq<Label>): System {
    Run(c, Init(c, start), ls)
  }
}
