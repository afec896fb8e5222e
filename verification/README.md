# The rate-limited request pipeline of the LLM load balancer

A Dafny model of the path a request takes through the balancer: it is registered and queued, taken by the
worker's loop, charged against a token bucket, delayed and re-queued when the bucket refuses it, handed to the
LLM service (which retries with backoff), and answered once on its own response channel. Both backends are
modelled: the in-memory limiter and queue, and the limiter and queue kept in Redis.

`dafny verify dfyconfig.toml` checks the whole project.

## How it is built

| files | what they hold |
|---|---|
| `Bucket`, `Waits` | the token arithmetic shared by `refill`/`AllowN`/`ReserveN` and the three Lua scripts, as one step function on (tokens, last refill), with its run-level bounds; the two roundings of waiting times |
| `WaitQueue`, `TokenBucket` | the in-memory limiter: class `TokenBucket`, its two waiter maps and the reservation object, updated in place |
| `RedisLimiter`, `RedisTokenBucket`, `RedisExpiry`, `RedisAccrual` | a keyed store with expiring entries, the scripts as its readers and writers, the limiter class around them, runs over many keys, what expiry can and cannot be seen to do, and what accrues in real time |
| `Waiters`, `WaiterProtocol` | the two waiter maps as values, and every interleaving of ReserveN, its goroutine and CancelAt, for both limiters |
| `Fifo`, `MemoryQueue` | the queue as a sequence with a history, and the slice-backed class that appends, shifts and filters in place |
| `RedisQueue`, `CapacityRace` | the Redis list with its pop-and-push-back Dequeue, its agreement with the other queue, and the race between LLEN and RPUSH |
| `ChannelRegistry`, `Worker` | the registry, and the worker's code over the queue, limiter, registry and channel objects; a ghost copy of the transition system follows every access to shared state |
| `WorkerSystem`, `WorkerPlaces`, `WorkerAccounting`, `WorkerLog`, `WorkerStop`, `WorkerTimes`, `WorkerTheorems` | the worker as a transition system (clients, loop, any number of jobs, cleanup, Stop), its invariants, and the theorems about every reachable state |
| `Provider` | the provider's retry loop, its backoff in wrapping 64-bit arithmetic, and the time it can sleep |
| `Common` | Option, Result, rounding and the linear accrual of tokens |

A step is one section under a mutex, one Lua script, one Redis command or one channel operation. Clock
readings, IDs, random draws, the service's outcomes and the order of steps are arguments, so a theorem over all
runs covers every interleaving. Classes state their new state as a function of the old one; what the
repository promises is then proved of that function and of all runs of it. `Worker.Worker.Coupled` ties the
objects to the transition system: each method of `Worker` is one or more of its labels.

## What turned out not to hold

The code was kept as it is; each of these is proved, as an if-and-only-if where a caller can check the condition,
and with an input or a run where the condition alone does not show one.

- A bucket size left out defaults to zero when the rate is below 1/60 token a second, and that limiter grants
  nothing, ever (`Bucket.DefaultSizeUnusableIff`). A cost above the bucket size is refused for good
  (`Bucket.NeverGrantedAboveSize`, `WorkerTheorems.AboveSizeNeverHanded`), and every refusal the queue has room
  for puts the request back with a new time stamp, so that its TTL starts again
  (`Worker.Worker.Reenqueue`, `WorkerTheorems.RefusalRestartsTTL`). The TTL therefore takes such a request only
  when it waits a whole TTL without being served. Line 13 of the repository's `README.md` promises that requests
  over the limit are queued rather than rejected, and does not mention this case.
- `token_bucket.go:185-204` tests the tokens without refilling: a reservation that nobody else's call refills
  for is never fulfilled, however long it sleeps (`Bucket.LoneReservationNeverSettles`). The waiter of a
  reservation whose goroutine gave up is removed exactly when somebody calls CancelAt with a time before the
  due time, and never otherwise (`WaiterProtocol.FailedWaiterStaysIff`, reached by `WaiterProtocol.FailedWaiterReached`).
- The in-memory wait is truncated to whole nanoseconds and covers the shortfall only when nothing was cut off
  (`Waits.NanosEnoughIff`; at three tokens a second it falls short, `Waits.NanosCanFallShort`).
- Canceling an in-memory reservation does not stop its goroutine, which never looks at the cancellation: the
  tokens are deducted all the same when they are there (`WaiterProtocol.CanceledStillChargedIff`, with a run in
  `WaiterProtocol.CanceledChargedReached`), although the comment at `token_bucket.go:189` reads as if
  cancellation were taken into account.
- The Redis wait in milliseconds is the least that covers the shortfall, but the retry reads a clock in whole
  seconds and can be refused (`Waits.RetryGrantedIff`, `Waits.RetryCanBeRefused`).
- Expiring keys are observable exactly when `keyExpirySeconds * tokensPerSecond < bucketSize`
  (`RedisExpiry.ExpiryUnobservableIff`). Scripts fail exactly when the configured expiry is positive and below
  one second (`RedisLimiter.ScriptsFailIff`).
- Redis Dequeue ignores the error of its own push: it loses a deferred item it pops while the list is longer
  than `maxSize` (`RedisQueue.LosesNothingIff`, `RedisQueue.OverfullLoses`), which the unlocked LLEN/RPUSH pair
  allows (`CapacityRace.RaceBoundReached`). It returns exactly when the list holds a ready, unexpired item
  (`RedisQueue.ReturnsIff`). Redis Peek looks only at the first item (`RedisQueue.PeekNamesNextIff`).
- The two queues disagree on the item whose age is exactly the TTL (`RedisQueue.ExpiryAgreesIff`).
- TTL cleanup does not unregister: the channel of an expired request stays in the registry and never gets a
  value (`WorkerTheorems.RegistryExact`, `WorkerTheorems.ExpiredStaysRegistered`, reached by `WorkerTheorems.ExpiredReached`).
- `Stop` waits for a loop that looks at the stop channel only between two Dequeue calls. As long as no client
  puts a request into the queue and the context is not canceled, the loop can end if and only if it is not
  blocked: inside Dequeue, or before it with a free slot, on an empty queue, with no job about to put its
  request back and tokens for all that the jobs still ask for (`WorkerStop.StopReturnsIff`; without running jobs
  `WorkerStop.StopOfIdleReturnsIff`). An unused worker is blocked after two steps (`WorkerStop.BlockedReached`).
- The shift and product of `calculateBackoff` wrap as int64; a wrapped backoff can be negative, and then there
  is no sleep (`Provider.BackoffExactIff`, `Provider.OverflowSkipsBackoff`). With a negative `maxRetries`,
  `doRequest` makes no attempt and returns neither value nor error (`Provider.DoRequest`).

## Model

| member | source | states |
|---|---|---|
| Bucket.Configure | internal/limiter/token_bucket.go:42-49 | a positive rate and size are kept; otherwise one token a second, and the whole number of tokens of a minute |
| Bucket.RefillIs | internal/limiter/token_bucket.go:70-78 | refilling adds the elapsed time times the rate, up to the bucket size, and remembers the reading |
| Bucket.SpentIsTaken | internal/limiter/token_bucket.go:86-205 | what each operation counts as spent is exactly what is missing from the bucket afterwards: its whole cost when granted, nothing otherwise |
| Bucket.BatchGranted | internal/limiter/token_bucket.go:86-163 | Allow and Reserve calls at one instant are all granted when the bucket holds their total cost, and leave exactly the rest |
| Bucket.GrantEndingBound | internal/limiter/redis_limiter.go:124-148 | with any clock readings, also going backwards, the tokens deducted from a refilling operation through a granted one total at most the bucket size plus the rate times the difference of the two readings |
| Bucket.AnchoredPotential | internal/limiter/redis_limiter.go:124-148 | same run, whatever it ends with: tokens left plus tokens deducted stay within size plus accrual since the first reading |
| Bucket.RunRange | internal/limiter/token_bucket.go:70-104 | with readings that do not go back, 0 <= tokens <= bucket size after every run of every operation, the goroutines' tests included |
| Bucket.DeductionBound | internal/limiter/token_bucket.go:137-205 | from a refilling operation at s to any later t, all deductions (AllowN, immediate ReserveN, reservation goroutines) total at most size + rate * (t - s) |
| Bucket.WindowBound | internal/limiter/token_bucket.go:86-104 | without reservation goroutines the same bound holds of the deductions in every time window, anchored anywhere |
| Bucket.RefillTwice | internal/limiter/token_bucket.go:70-78 | refilling at t1 and again at t2 is refilling at t2: lazy refill is continuous refill |
| Bucket.AvailableTells | internal/limiter/token_bucket.go:222-230 | the reported number is the largest cost that Allow would grant at that moment, and reading it only refills |
| Bucket.NeverGrantedAboveSize | internal/limiter/token_bucket.go:96-103 | a cost above the bucket size is refused whatever the bucket's state and the clock |
| Bucket.EventuallyGrantedIff | internal/limiter/token_bucket.go:86-104 | once a full bucket's worth has accrued, Allow grants a cost exactly when 0 < cost <= size |
| Bucket.LoneReservationNeverSettles | internal/limiter/token_bucket.go:185-204 | after a ReserveN that has to wait, if only goroutine tests follow, its own test fails whenever it comes |
| Bucket.DefaultSizeUnusableIff | internal/limiter/token_bucket.go:43-49 | the default bucket size is zero exactly when the given rate is positive and below 1/60, and then no cost is ever granted |
| Bucket.GrantlessAccrual | internal/limiter/token_bucket.go:70-104 | over a stretch in which nothing is granted the bucket holds at least min(size, accrual since the stretch began) |
| Bucket.RefusalsBounded | internal/queue/worker.go:276-314 | retries of one cost at least a delay apart, with no grant in between, are refused at most ceil(cost / (rate * delay)) times |
| Waits.MillisAreLeast | internal/limiter/redis_limiter.go:218-230 | wait_ms of a refused reserve is positive and is the least whole number of milliseconds whose refill covers the cost, for costs that fit the bucket |
| Waits.NanosEnoughIff | internal/limiter/token_bucket.go:164-166 | the in-memory wait is less than a nanosecond short, and covers the cost exactly when nothing was cut off and the cost fits the bucket |
| Waits.NanosCanFallShort | internal/limiter/token_bucket.go:164-166 | one token missing at three a second: 333333333 ns, after which less than one token is there |
| Waits.UnixSeconds | internal/limiter/redis_limiter.go:259 | the reading is the whole number n with n <= t < n + 1 |
| Waits.RetryGrantedIff | internal/limiter/redis_limiter.go:378-411 | the goroutine's retry after wait_ms is granted exactly when the whole-second readings leave enough accrual |
| Waits.RetryCanBeRefused | internal/limiter/redis_limiter.go:378-411 | a reserve of one token at two a second that waits its 500 ms and is refused |
| InMemoryLimiter.TokenBucket.constructor | internal/limiter/token_bucket.go:42-66 | the configured bucket starts full, with empty waiter maps |
| InMemoryLimiter.TokenBucket.Refill | internal/limiter/token_bucket.go:70-78 | the in-place refill is the refill of the bucket model |
| InMemoryLimiter.TokenBucket.AllowN | internal/limiter/token_bucket.go:86-104 | a cost that is not positive is an error and changes nothing; otherwise the bucket is refilled, and granted the cost, leaving n - cost of n tokens, exactly when cost <= n |
| InMemoryLimiter.TokenBucket.GetTokensAvailableN | internal/limiter/token_bucket.go:222-230 | state and number are those of one Available step |
| InMemoryLimiter.TokenBucket.ReserveN | internal/limiter/token_bucket.go:137-214 | of n tokens after the refill a reservation with cost <= n leaves n - cost, is due at once and enlists nobody; otherwise n stay, a fresh open channel is enlisted under key and ID, and the due time lies after what the shortfall takes, cut to whole nanoseconds |
| InMemoryLimiter.TokenBucket.Settle | internal/limiter/token_bucket.go:188-193 | the goroutine deducts its cost exactly when the tokens are there, without refilling |
| InMemoryLimiter.TokenBucket.Fulfil | internal/limiter/token_bucket.go:185-205 | the goroutine after its sleep: only when it deducted is its own channel closed and its own entry dropped; every other channel and entry is as before |
| WaitQueue.WaitMaps.Enlist | internal/limiter/token_bucket.go:171-180 | both maps gain exactly one entry, under key + ":" + id, for a fresh open channel |
| WaitQueue.WaitMaps.Notify | internal/limiter/redis_limiter.go:396-411 | the channel under the key and ID is closed and leaves both maps if it was there; no other channel is closed |
| WaitQueue.WaitMaps.Withdraw | internal/limiter/token_bucket.go:303-313 | the ID leaves both maps if it was there |
| WaitQueue.Reservation.DelayFrom | internal/limiter/token_bucket.go:283-293 | the delay ends exactly at the due time while that lies ahead, and is zero when it has passed or the reservation was canceled |
| WaitQueue.Reservation.CancelAt | internal/limiter/token_bucket.go:296-318 | cancels, once, exactly when still ok, not yet due and still waiting: its entry leaves both maps and ok turns false; otherwise nothing changes |
| Waiters.WaiterKeyInjective | internal/limiter/token_bucket.go:173-181 | for IDs without a colon, key + ":" + id determines key and ID |
| Waiters.AddKeepsCorrespondence | internal/limiter/token_bucket.go:175-181 | adding a fresh ID keeps the two maps in correspondence and overwrites no waiter |
| Waiters.DropKeepsCorrespondence | internal/limiter/token_bucket.go:309-313 | dropping an ID's own waiter key keeps the correspondence |
| WaiterProtocol.WaitersSafe | internal/limiter/token_bucket.go:173-205 | in every interleaving of ReserveN, goroutines and CancelAt, for both limiters: the maps correspond, no channel in the map is closed, none is closed twice, and in memory a closed channel means that reservation was paid |
| WaiterProtocol.NextKeeps | internal/limiter/redis_limiter.go:370-419 | every single step of the protocol keeps its invariant |
| WaiterProtocol.ProtocolDeductionBound | internal/limiter/token_bucket.go:137-205 | in every interleaving in which the bucket's readings do not go back, whatever times CancelAt is given, 0 <= tokens <= size and the reservation-inclusive deduction bound holds from every refilling event |
| WaiterProtocol.ListedExactly | internal/limiter/token_bucket.go:173-205 | in every reachable in-memory state the maps hold exactly the reservations that got a channel and were neither canceled nor paid for and notified |
| WaiterProtocol.ClosedExactly | internal/limiter/token_bucket.go:185-205 | in every reachable in-memory state a channel was closed, and then once, exactly when its reservation was paid for, its goroutine is over and nobody canceled it before |
| WaiterProtocol.FailedWaiterStaysIff | internal/limiter/token_bucket.go:296-318 | a listed waiter whose goroutine is over is still listed after a run exactly when no CancelAt for it came with a time before its due time; its channel is never closed |
| WaiterProtocol.FailedWaiterReached | internal/limiter/token_bucket.go:188-204 | for every cost above the bucket size, a reservation and its goroutine's test leave such a waiter |
| WaiterProtocol.CanceledStillChargedIff | internal/limiter/token_bucket.go:185-204 | canceled or not, a sleeping in-memory reservation is charged exactly when the bucket holds its cost as its goroutine wakes |
| WaiterProtocol.CanceledChargedReached | internal/limiter/token_bucket.go:185-204 | a run of five steps from a full bucket in which a canceled reservation is charged |
| RedisLimiter.Store.Get | internal/limiter/redis_limiter.go:125-126 | GET sees a value exactly until its expiry |
| RedisLimiter.Store.SetEx | internal/limiter/redis_limiter.go:136 | SET with EX writes the value with its expiry, and fails without a change unless the expiry is positive |
| RedisLimiter.KeysIsolated | internal/limiter/redis_limiter.go:237-244 | bucket and timestamp keys never coincide, and each determines its key |
| RedisLimiter.ScriptOnStore | internal/limiter/redis_limiter.go:115-233 | in the store's terms: stored tokens, or a full bucket, refilled since the stored time and capped; a covered cost is taken and all else stays; both keys are rewritten with the expiry; the three answers |
| RedisLimiter.ExecOneKey | internal/limiter/redis_limiter.go:252-283 | a script run on one key is one step of that key's bucket and leaves every other key's bucket alone |
| RedisLimiter.Projection | internal/limiter/redis_limiter.go:237-272 | the answers and deductions of one key in any multi-key run are those of a single bucket run on that key's calls alone |
| RedisLimiter.OnlyOwn | internal/limiter/redis_limiter.go:237-244 | the calls projected onto a key are exactly the calls made on it, each as often as it was made |
| RedisLimiter.UnexpiredIsBucket | internal/limiter/redis_limiter.go:124-148 | a run in which the keys never expire between calls answers as the plain bucket does |
| RedisLimiter.CellBound | internal/limiter/redis_limiter.go:124-148 | on one key, with no expiry in between and any readings, deductions from a call through a granting call are within size plus rate times the difference of readings |
| RedisLimiter.DistributedBound | internal/limiter/redis_limiter.go:203-231 | the same bound inside a run over many keys from any store |
| RedisLimiter.WholeSecondBound | internal/limiter/redis_limiter.go:259 | reading whole seconds costs at most one second of rate against real time |
| RedisLimiter.ExpirySeconds | internal/limiter/redis_limiter.go:77-79 | the configured expiry cut to whole seconds, a day when none is given |
| RedisLimiter.ScriptsFailIff | internal/limiter/redis_limiter.go:260 | a call with a valid cost fails exactly when the configured key expiry is above zero and below one second, in any store, and then writes nothing |
| RedisExpiry.ExpiryUnobservableIff | internal/limiter/redis_limiter.go:124-148 | the expiring bucket answers every run of every operation as one whose keys never expire, if and only if expiry seconds times rate is at least the bucket size (clock shared and not going back) |
| RedisExpiry.UngrantedCallUnnoticed | internal/limiter/redis_limiter.go:128-147 | with readings that do not go back and keys that never expire, leaving out a refused Allow, an unsuccessful reserve script, a reading of the tokens or an invalid call changes no other answer of the run |
| RedisExpiry.UngrantedScriptUnnoticed | internal/limiter/redis_limiter.go:171-182 | the same of expiring keys that outlive a fill, on a clock shared with the server |
| RedisAccrual.LaterCallFinds | internal/limiter/redis_limiter.go:252-283 | while the keys live, a call at t2 finds what one at t1 left and what accrued in t2 - t1, give or take one second: it is granted when that covers its cost for one second less, and refused when it does not for one second more |
| RedisAccrual.IdleKeyGrantsIff | internal/limiter/redis_limiter.go:252-283 | after any run on a key, once size / rate + 1 seconds of real time have passed AllowN grants exactly the costs from 1 to the bucket size, expired or not |
| RedisTokenBucket.Limiter.constructor | internal/limiter/redis_limiter.go:53-103 | prefix, expiry (truncated to seconds) and bucket defaults |
| RedisTokenBucket.Limiter.LoadAndRefill | internal/limiter/redis_limiter.go:124-147 | missing keys read as a full bucket refilled now; the timestamp key is rewritten with the expiry |
| RedisTokenBucket.Limiter.AllowScript | internal/limiter/redis_limiter.go:115-150 | store and answer are those of one Allow run on that key |
| RedisTokenBucket.Limiter.GetAvailableScript | internal/limiter/redis_limiter.go:159-184 | store and answer are those of one Available run on that key |
| RedisTokenBucket.Limiter.ReserveScript | internal/limiter/redis_limiter.go:194-233 | store and answer are those of one Reserve run on that key |
| RedisTokenBucket.Limiter.AllowN | internal/limiter/redis_limiter.go:252-283 | reads whole seconds, runs the script, and tells invalid cost, unavailable backend, granted and refused apart |
| RedisTokenBucket.Limiter.GetTokensAvailableN | internal/limiter/redis_limiter.go:437-467 | the truncated tokens of one Available run, or an error |
| RedisTokenBucket.Limiter.ReserveN | internal/limiter/redis_limiter.go:318-429 | one Reserve run; on a shortfall a fresh open channel is enlisted and the reservation is due after wait_ms; on an error the maps are untouched |
| RedisTokenBucket.Limiter.Fulfil | internal/limiter/redis_limiter.go:378-419 | the goroutine after its sleep: one more Allow run, whose answer is the result; whether granted or refused its own channel is closed and dropped, unless the call failed |
| Fifo.FirstReady | internal/queue/fifo_queue.go:233-240 | the least position whose item has no ProcessAfter or one that is not ahead of the clock, or the length when there is none |
| Fifo.FifoOverRuns | internal/queue/fifo_queue.go:150-255 | after any run: length within maxSize; enqueued = queued + dequeued + expired + cleared as multisets; the undelayed items dequeued, then those queued, are found at rising positions of the enqueued ones |
| Fifo.StepSound | internal/queue/fifo_queue.go:150-291 | every single operation keeps those three |
| Fifo.CleanupPartitions | internal/queue/fifo_queue.go:150-177 | cleanup splits the queue into what it keeps and what it drops, losing and adding nothing |
| Fifo.YoungStay | internal/queue/fifo_queue.go:150-177 | each item stays, as often as it was there, exactly when its age is below the TTL |
| Fifo.UndelayedOrder | internal/queue/fifo_queue.go:233-254 | an undelayed item that Dequeue takes is the first undelayed one |
| Fifo.BoundedBypass | internal/queue/fifo_queue.go:204-255 | a ready item with p items ahead has been served, expired or cleared once p + 1 items were dequeued, whatever else is interleaved; as long as it is followed every success brought it one place forward |
| MemoryQueue.InMemoryFIFO.constructor | internal/queue/fifo_queue.go:122-147 | an empty queue with the default size 1000 and TTL of a day where none is given |
| MemoryQueue.InMemoryFIFO.Append | internal/queue/fifo_queue.go:197 | contents gain the item last, in place or in a larger array |
| MemoryQueue.InMemoryFIFO.Enqueue | internal/queue/fifo_queue.go:180-201 | a missing item and a full queue are errors that change nothing; otherwise the item is last, with its ID, data and ProcessAfter, stamped with the time if it had none |
| MemoryQueue.InMemoryFIFO.FindReady | internal/queue/fifo_queue.go:233-240 | the scan finds the first ready position |
| MemoryQueue.InMemoryFIFO.Shift | internal/queue/fifo_queue.go:249-252 | the in-place shift removes exactly position i and keeps the order of the others |
| MemoryQueue.InMemoryFIFO.Dequeue | internal/queue/fifo_queue.go:204-255 | succeeds exactly when some item has no ProcessAfter or one that has come; takes the first such item and nothing else; empty error when there is none; canceled on an empty queue |
| MemoryQueue.InMemoryFIFO.Peek | internal/queue/fifo_queue.go:258-276 | names the first item that may be processed now, or the empty error when there is none |
| MemoryQueue.InMemoryFIFO.CleanupExpired | internal/queue/fifo_queue.go:150-177 | keeps exactly the items whose age is below the TTL, in order, and counts the others |
| MemoryQueue.InMemoryFIFO.Size | internal/queue/fifo_queue.go:279-283 | the number of queued items |
| MemoryQueue.InMemoryFIFO.Clear | internal/queue/fifo_queue.go:286-291 | an empty queue over a fresh array |
| RedisQueue.RedisFIFO.constructor | internal/queue/fifo_queue.go:308-354 | an empty list with the default size 10000 and TTL of a day |
| RedisQueue.RedisFIFO.Enqueue | internal/queue/fifo_queue.go:357-399 | a missing item and a full list are errors that change nothing; otherwise the stamped item is last |
| RedisQueue.FirstServable | internal/queue/fifo_queue.go:435-455 | the first item whose age is within the TTL and whose ProcessAfter, if any, has come |
| RedisQueue.RedisFIFO.Dequeue | internal/queue/fifo_queue.go:402-456 | the recursion serves the first item that is within the TTL and may be processed now, drops the expired ones ahead of it, and moves the deferred ones ahead of it behind the rest, in order, but for those it pops while the list is over full |
| RedisQueue.RedisFIFO.Peek | internal/queue/fifo_queue.go:459-501 | the first item of the list, or the empty error |
| RedisQueue.PeekNamesNextIff | internal/queue/fifo_queue.go:459-501 | Redis Peek names the item Dequeue will serve exactly when the first item is ready and unexpired |
| RedisQueue.ReturnsIff | internal/queue/fifo_queue.go:402-456 | with one client and a fixed clock the recursion ends after finitely many pops exactly when the list holds a ready unexpired item |
| RedisQueue.PopAdvances | internal/queue/fifo_queue.go:434-453 | a pop that serves nothing brings the first servable item one place forward and leaves the final list unchanged |
| RedisQueue.DequeueAccounts | internal/queue/fifo_queue.go:402-456 | the list is the served item, the final list, the expired items dropped and the deferred items lost, as multisets |
| RedisQueue.UnexpiredStay | internal/queue/fifo_queue.go:434-453 | while the list is within maxSize no unexpired item leaves it but the one served |
| RedisQueue.LosesNothingIff | internal/queue/fifo_queue.go:447-453 | nothing but expired items is lost exactly when no deferred item is among those popped while the list is longer than maxSize; none are when it is not |
| RedisQueue.OverfullLoses | internal/queue/fifo_queue.go:447-453 | two items with maxSize one: the deferred one is lost |
| RedisQueue.QueuesAgree | internal/queue/fifo_queue.go:233-254 | with nothing expired, something ready and no over-full list, both queues serve the same item and their remaining lists are cyclic rotations of each other |
| RedisQueue.ExpiryAgreesIff | internal/queue/fifo_queue.go:160-169 | the two expiry tests agree on an item exactly when its age is not the TTL itself |
| CapacityRace.RaceBound | internal/queue/fifo_queue.go:367-393 | with K callers between LLEN and RPUSH, in every interleaving with pops the list holds at most maxSize + K - 1 items |
| CapacityRace.RaceBoundReached | internal/queue/fifo_queue.go:367-393 | for every maxSize and K a run that reaches that length |
| ChannelRegistry.ChannelRegistry.Register | internal/queue/channel_registry.go:30-34 | exactly this ID now leads to this channel |
| ChannelRegistry.ChannelRegistry.Get | internal/queue/channel_registry.go:37-41 | the channel of a registered ID, none otherwise |
| ChannelRegistry.ChannelRegistry.Remove | internal/queue/channel_registry.go:44-48 | exactly this ID is gone |
| ChannelRegistry.ChannelRegistry.Clear | internal/queue/channel_registry.go:51-55 | nothing is registered |
| Worker.Worker.constructor | internal/queue/worker.go:74-96 | the defaults; the objects start as the transition system does |
| Worker.Worker.EnqueueRequest | internal/queue/worker.go:118-168 | without interference: an accepted request is last in the queue with its own ID and cost, the time of the call and no ProcessAfter, and registered; when encoding fails or the queue is full, queue and registry are as before; in any case the labels of the system |
| Worker.Worker.RegisterChannel | internal/queue/worker.go:130-131 | the first section is the Register step |
| Worker.Worker.SubmitItem | internal/queue/worker.go:140-157 | the enqueue section is the Submit step in any state of the system; the item carries the ID, the request, the time of the call and no ProcessAfter |
| Worker.Worker.WithdrawChannel | internal/queue/worker.go:135-158 | the clean-up on an error is the Withdraw step |
| Worker.Worker.Fetch | internal/queue/worker.go:232-251 | the lookup is a job step and, for a registered request, finds its own channel |
| Worker.Worker.AskRateLimiter | internal/queue/worker.go:254-276 | asking the limiter is a job step whose three outcomes choose the next section |
| Worker.Worker.Reenqueue | internal/queue/worker.go:276-314 | the same ID and data, stamped now, with a ProcessAfter exactly the retry delay ahead, is last in the queue, or the queue is full and the job has to answer |
| Worker.Worker.SendReply | internal/queue/worker.go:383-384 | one value is sent into an empty one-slot buffer |
| Worker.Worker.RemoveChannel | internal/queue/worker.go:387 | the request is unregistered after the send |
| Worker.Worker.FreeSlot | internal/queue/worker.go:222 | the deferred release frees one slot and is a job step |
| Worker.Worker.CountOut | internal/queue/worker.go:221 | the deferred Done lowers the count by one and ends the job |
| Worker.Worker.ProcessItem | internal/queue/worker.go:220-396 | every path gives back one slot and one count; the request is answered once on its own channel and unregistered, except that a refused one with room in the queue is re-queued, unanswered and still registered; the whole is eight job steps |
| Worker.Worker.JobStarts | internal/queue/worker.go:190-205 | a job that starts is registered, unanswered, and holds a slot and a count |
| Worker.Worker.ReceiveReply | internal/handler/request_handler.go:183-208 | the handler's receive empties the one-slot buffer and is the Receive step |
| Worker.Worker.CleanupTick | internal/queue/fifo_queue.go:150-177 | exactly the items that reached the TTL leave the queue; registry, channels, slots and count stay, and it is the Cleanup step |
| Worker.Worker.RequestStop | internal/queue/worker.go:109-111 | closing the stop channel is the StopCalled step and changes nothing else |
| Worker.Worker.LoopTurn | internal/queue/worker.go:171-217 | a stopped or canceled loop with no job left ends; otherwise one turn takes the first ready item into a job holding a slot and a count, or changes nothing; the whole is two or four loop steps |
| Worker.FreshRequestStarts | internal/queue/worker.go:118-205 | a request accepted while no queued item is ready is the one the next turn of the loop starts, at the same instant, when a slot is free |
| WorkerPlaces.NextPlaced | internal/queue/worker.go:118-396 | every step of every client, job, loop or cleanup keeps: each live request in one place, its channel registered, its inbox counted |
| WorkerTheorems.Conservation | internal/queue/worker.go:118-396 | in every reachable state an accepted request is exactly one of queued, in flight, answered or expired, and nothing else is any of these |
| WorkerTheorems.OneHolder | internal/queue/worker.go:171-210 | no request is queued twice or held by two jobs, or by a job and the loop |
| WorkerTheorems.AtMostOneReply | internal/queue/worker.go:383-387 | in every reachable state each channel got at most one value, and a job about to send finds the one-slot buffer of request_handler.go:183 empty |
| WorkerTheorems.RegistryExact | internal/queue/channel_registry.go:30-48 | an ID is registered exactly when its request is queued, in flight, expired, being enqueued or withdrawn, or answered but not yet unregistered |
| WorkerTheorems.ExpiredStaysRegistered | internal/queue/fifo_queue.go:160-169 | an expired request stays registered and unanswered in every later state |
| WorkerTheorems.ExpiredReached | internal/queue/fifo_queue.go:160-169 | register, submit, wait one TTL, clean up: the request is expired and still registered |
| WorkerTheorems.RefusalRestartsTTL | internal/queue/worker.go:284-293 | an item queued again was stamped no earlier than any refusal of its request, so a cleanup takes it only a whole TTL after the last one |
| WorkerTimes.QueuedBecomesReady | internal/queue/worker.go:284-293 | in every reachable state a queued item was stamped at a time that has passed and may be processed at the latest one retry delay from now |
| WorkerTheorems.HandedWithinRate | internal/queue/worker.go:254-326 | in every reachable state and for every window, all hand-overs to the LLM service whose grant fell in the window, each counted, cost at most bucket size + rate * length |
| WorkerTheorems.HandOverCounts | internal/queue/worker.go:326 | every hand-over adds exactly the cost of its request to what the windows with its grant count |
| WorkerTheorems.ChargedOnce | internal/queue/worker.go:254-326 | each decision is on a known request at its cost; a granted one deducted exactly the cost and is handed over at most once, a refused one deducted nothing and is never handed over; after a grant there is no further decision on that request; a job about to hand over holds a grant not yet handed over |
| WorkerTheorems.AboveSizeNeverHanded | internal/queue/worker.go:276-314 | a request that costs more than the bucket size is never granted, and handed over no time |
| WorkerTheorems.RefusedOftenIsGranted | internal/queue/worker.go:276-314 | in any stretch of decisions without a grant a request that fits the bucket is refused at most ceil(cost / (rate * RetryDelay)) times |
| WorkerTheorems.RefusalsAccrue | internal/queue/worker.go:276-314 | over the delays between n such refusals less than the cost accrues: (n - 1) * rate * RetryDelay < cost |
| WorkerTheorems.JobsAlwaysProgress | internal/queue/worker.go:220-396 | in every reachable state every job can take its next step (no send, release or Done blocks) and is over after at most eight |
| WorkerAccounting.ConcurrencyAccounted | internal/queue/worker.go:171-222 | in every reachable state slots taken = the loop's slot + jobs before their release, at most MaxConcurrent; the count is the number of jobs; and once the loop has exited there is no job |
| WorkerAccounting.JobGivesBackInOrder | internal/queue/worker.go:220-222 | every job gives back one slot, at its release, and right after it one count, and ends there |
| WorkerStop.StopReturnsIff | internal/queue/worker.go:109-115 | in every reachable state some run without new submissions and cancellation ends the loop, if and only if the loop is not blocked on an empty queue that no job will fill |
| WorkerStop.BlockedStays | internal/queue/worker.go:171-205 | a blocked loop stays blocked through every such run, with Stop, other clients, running jobs, cleanups and the clock in any order |
| WorkerStop.StopOfIdleReturnsIff | internal/queue/worker.go:109-115 | with no job running: the loop can end exactly when it is not in or before a Dequeue with the queue empty |
| WorkerStop.BlockedReached | internal/queue/worker.go:188-191 | two loop steps after the start, and a Stop, the loop of an unused worker is blocked |
| WorkerLog.ReachedGood | internal/queue/worker.go:254-326 | in every reachable state the bucket is the replay of the logged decisions, and each request's decisions are refusals a retry delay apart with at most one final grant |
| Provider.BackoffBounds | internal/llm/provider.go:387-395 | the capped backoff is at most minBackoff * 2^attempt and at most the cap, overflow or not |
| Provider.BackoffExactIff | internal/llm/provider.go:387-395 | it equals the smaller of the two exactly when the doubling does not overflow or its wrapped value still reaches the cap |
| Provider.OverflowSkipsBackoff | internal/llm/provider.go:387-395 | one second doubled 34 times is negative: no sleep for any random draw |
| Provider.JitterRange | internal/llm/provider.go:393-394 | the jittered backoff b lies in [0.8 b, 1.2 b), is b at the middle draw, and never turns a negative one positive |
| Provider.JitterSpread | internal/llm/provider.go:393-394 | the jitter is spread evenly: the difference of two draws, times 0.4 b |
| Provider.DoRequest | internal/llm/provider.go:304-384 | for maxRetries >= 0: one to maxRetries + 1 attempts, each but the last unsent, unread or answered 429, 500, 502, 503 or 504, stopping at the first that is none of these; a 2xx body is returned, and each failure has its own error; the final return is reached only for a negative maxRetries; the time slept is the sum of the backoffs between attempts |
| Provider.SleepBound | internal/llm/provider.go:309-395 | k backoffs take at most 1.2 times k caps and at most 1.2 * minBackoff * (2^k - 1) |
| Provider.SleepAtLeast | internal/llm/provider.go:309-395 | without overflow k backoffs take at least 0.8 times the sum of min(minBackoff * 2^i, maxBackoff), less a nanosecond each, and exactly that sum when every draw is in the middle |
| Provider.DoRequestSleepBound | internal/llm/provider.go:304-395 | a call sleeps at most 1.2 * min(minBackoff * (2^n - 1), n * maxBackoff) in all |

## Left out

- Floating point and Lua number formatting: tokens and times are reals; int64 overflow is modelled in the backoff's shift and product only, not in times, and not in the conversion of the jittered float.
- JSON, HTTP handlers, reverse proxy, configuration files, logging, the Redis client and its errors other than a failing SET; queue items are assumed to survive encoding, except that EnqueueRequest can fail to encode.
- Priority, Metadata, model limits and token estimators: the modelled code does not use them.
- Wait and WaitN of both limiters: they return nil also when no token was deducted, so nothing is claimed of them; the fulfilment of an in-memory wait is not guaranteed (see above).
- IDs are assumed fresh and without a colon, and a request's response channel is assumed not nil and its own.
- Concurrent Redis Dequeues, the expiry of the list key, and more than one instance: only the capacity race covers several clients. A reply for an item dequeued by another instance is not part of this model.
- Condition variable wake-ups: an in-memory Dequeue on an empty queue is a disabled step until an item arrives or the context is canceled, and a lost wake-up is not modelled; `MemoryQueue.InMemoryFIFO.Dequeue` requires one of the two. A Dequeue that waited may return the context's error although an item has come in: that is the step GiveUp of the transition system, not a path of the class.
- RedisQueue.RedisFIFO.Dequeue: is a method only where the recursion ends, because it blocks or spins otherwise; `RedisQueue.ReturnsIff` says where that is. Its clock is fixed during one call.
- The clean-up goroutine's ticker: cleanup may run at any time, with any reading not ahead of the clock.
- Aliasing of the caller's item: Enqueue stamps the item behind the caller's pointer even when the queue is full; items are values here.
- The LLM service's success and failure are not told apart in the worker, as both send one value and unregister. The branch for a nil response at worker.go:359-369 cannot be taken: line 351 dereferences the response first.
- The item's 30 second context, Close of queue and limiter, and Clear of queue and registry in the worker's transition system (Clear is modelled on the classes).
- Worker.Worker.EnqueueRequest: states the contents without interference; what other interleavings do is the transition system's part.
- Worker.Worker.ProcessItem: the same, and its steps all read the clock at one moment.
- Worker.Worker.LoopTurn: the same; waiting for the jobs and waiting on an empty queue need a step of somebody else, so it is called where there is nothing to wait for.
- WorkerStop.StopReturnsIff: says that a run to the end exists or that none does; that the scheduler takes it is not claimed.
- The two limiters' waiter maps are one class, `WaitQueue.WaitMaps`, although the code has two copies; two concurrent CancelAt calls on one reservation are taken as atomic although `ok` is read outside the lock.
- Fairness of the scheduler and the termination of whole runs: progress is stated per job and per retry.
