# Overload protection: a verified model

The repository keeps a service alive under overload. It has two worker pools in front of the
handlers, adaptive controllers that estimate how many requests may be in flight, limiters that
enforce such an estimate, and a priority stage that picks whom to turn away. This project models
those parts in Dafny and proves what they promise, for every input and every interleaving.

How the parts are modelled:

- **Concurrent protocols** (`CodelPool`, `WorkerPool`, `SimpleLimiter`, `LifoLimiter`, and the last
  two put together in `LifoOverSimple`). A class
  holds the fields that the mutex or the channels guard, and its methods are the critical
  sections, updated in place and proved equal to functions of the old state. The goroutines
  around them are a state machine whose actions are the atomic steps (a critical section, a
  channel operation, an atomic counter) and whose schedule is any sequence of enabled actions. The
  invariants hold after every schedule, so the theorems cover every interleaving. What a task
  returns, whether it panics, what the gate answers, when a timer fires and what the clock says
  are chosen freely by the schedule.
- **Controllers** (`Detector`, `Vegas`, `Gradient`, `Gradient2`, `Windowed`, `Priority`). A class
  with the original's fields and methods; each method's postcondition gives the whole new state.
  The theorems are about arbitrary sequences of samples; the modules named after a controller and
  `Reactions` say what each single sample does, comparing by multiplication where the code divides.
  Response times, jitter and drawn numbers are inputs; floating point is exact `real`.
- **Parsing and tables** (`Logarithm`, `Cpuset`). The loops are proved against functions, and the
  functions against what they are for.

`Tally`, `Integers` and `Reals` hold the sums, multisets and small arithmetic facts that the
others share.

## Where the code and its documentation differ

The model follows the code.

- docs.md:498 lets an empty queue end the dropping state of CoDel. The code leaves it only when an
  evaluation finds a head below the target (queue/codel.go:281-285). `CodelPoolRuns.IdlePoolStillDrops`
  is a run of the pool that shows the difference; `CodelControl.DroppingEndsExactlyWhen` is the
  exact condition, and `CodelPoolRuns.OnlyEvaluationsMoveTheLaw` shows that an idle pool stays as
  it is.
- docs.md:345-362 and concurrencylimits/lifo.go:61 say that a caller waits only while the delegate
  is at its limit. Four kinds of interleavings leave one waiting with a permit free and nobody to
  hand it over: a release falls between a refusal and the joining
  (`LifoTheorems.WaitingWithAFreePermit`); the delegate refuses below its limit, as
  concurrencylimits/limiter.go:60-63 does while another caller is deciding
  (`LifoWaiting.WaitingWithoutAnyRelease`, `SimpleLimiter.RefusedExactlyWhen`); such a refusal meets
  the unblock of the last release (`LifoWaiting.WaitingAfterALostHandOver`, and with the fail-fast
  limiter as the delegate `LifoOverSimple.WaitingAtAnIdleDelegate`); or the adaptive limit rises
  while somebody waits, since one release hands over one permit
  (`LifoWaiting.WaitingAfterTheLimitRose`). With the limit of the moment throughout,
  `LifoWaiting.WaitersAtLimitExactlyWhen` is the exact condition for waiting only at the limit. A
  release with somebody waiting breaks that for the moment until its unblock, so
  `LifoWaiting.WaitersCoveredExactlyWhen` gives the exact condition for each permit being out or
  about to be offered to the backlog while anybody waits.
- queue/pool.go:76-80 says that an idle worker never wrongly rejects. A worker that has run a task
  and told its caller is not idle yet: a caller that submits one task after another can be refused
  as full (`WorkerPoolTheorems.RefusedAfterSuccess`), exactly when the queue capacity is zero and every
  worker is at that point (`WorkerPoolTheorems.SequentialCallerRefusedExactlyWhen`).
- docs.md:264 calls the reaction of Vegas to a drop a multiplicative backoff. The code subtracts
  log10 of the limit (concurrencylimits/vegas.go:107-108); `Vegas.DropDecrease` is the exact amount.
- docs.md:270 gives alpha as 3·log10 for both Vegas variants. The quarkus table holds
  1 + floor(log10) (quarkus/detector.go:11-20).
- queue/gate.go:5-8 promises one `done` per admitted call, and both pools keep that, but
  `SubmitWait` can return before `done` has run, since the caller's channel is closed first.
  `CodelPoolRuns.AnsweredBeforeTheGate` and `WorkerPoolTheorems.AnsweredBeforeTheGate` are such runs;
  `GateToldExactlyWhen` of each pool is the exact condition.

## Model

| member | source | states |
|---|---|---|
| CodelControl.SpacingExact | queue/codel.go:310 | interval / sqrt(count) truncated is the natural d with d²·count ≤ interval² < (d+1)²·count |
| CodelControl.SpacingUnique | queue/codel.go:310 | no other natural has that property |
| CodelControl.SpacingShrinks | queue/codel.go:308-310 | the control law drops faster the longer the overload persists |
| CodelControl.FieldsReflectHistory | queue/codel.go:279-312 | what the four control fields mean in terms of the evaluations alone: start of the above-target stretch, drops in it, newest drop |
| CodelControl.DropExactlyWhen | queue/codel.go:279-312 | a head is dropped if and only if a standing queue of an interval is confirmed and the spacing owed since the newest drop of the episode has passed |
| CodelControl.DropsAreSound | queue/codel.go:279-312 | every drop has an evaluation at least an interval earlier since which no head was below target |
| CodelControl.DroppingEndsExactlyWhen | queue/codel.go:281-286 | the dropping state is left if and only if an evaluation finds its head below target |
| CodelControl.IdlenessDoesNotReset | queue/codel.go:279-312 | three evaluations, the last of a task enqueued long after the second, that is dropped although it waited little |
| CodelControl.EpisodeRate | queue/codel.go:299-311 | two drops of an episode with n drops from the earlier on, m before the later, are n·floor(interval/√m) apart |
| CodelControl.EpisodeSpan | queue/codel.go:299-311 | n + 1 drops of an episode span at least n·floor(interval/√n) |
| CodelControl.AcrossEpisodes | queue/codel.go:289-304 | drops of different episodes are at least an interval apart when the clock is monotone |
| CodelControl.DropsApart | queue/codel.go:279-312 | any two drops of a history are apart by the spacing owed within an episode, by an interval otherwise |
| CodelPool.Normalized | queue/codel.go:95-107 | defaults and lower bounds of the configuration, and that a usable configuration is kept |
| CodelPool.CodelPool.constructor | queue/codel.go:95-124 | a new pool is empty, open and in the initial control state |
| CodelPool.CodelPool.ShouldDrop | queue/codel.go:279-312 | the four fields and the verdict after one evaluation, field updates in place |
| CodelPool.CodelPool.Submit | queue/codel.go:148-181 | the locked part of a submission: stopped, full, or appended with its time and counted |
| CodelPool.CodelPool.Take | queue/codel.go:240-272 | one pass of a worker through its critical section: sleep, exit, drop the head, serve oldest or newest |
| CodelPool.CodelPool.Close | queue/codel.go:338-341 | closing changes nothing but the flag |
| CodelPoolInvariant.SectionTakesOne | queue/codel.go:250-272 | a section takes exactly one item, the newest only when serving newest-first in the dropping state |
| CodelPoolInvariant.LinksKept | queue/codel.go:140-276 | every action keeps workers, buffer and calls in agreement: each accepted call is in one place |
| CodelPoolInvariant.WakefulKept | queue/codel.go:178-247 | every action keeps the wakeup invariant |
| CodelPoolInvariant.LedgerKept | queue/codel.go:160-235 | every action keeps the book of gate calls, body runs, channel closes and replies |
| CodelPoolInvariant.OrderedKept | queue/codel.go:178-271 | every action keeps the buffer sorted by acceptance and enqueue time |
| CodelPoolInvariant.ConservedKept | queue/codel.go:178-271 | every action keeps accepted = queued + dropped + served as multisets |
| CodelPoolInvariant.LawfulKept | queue/codel.go:249-251 | every action keeps the control fields those of the law over the logged evaluations |
| CodelPoolInvariant.EveryRunKeepsInv | queue/codel.go:94-344 | the invariant holds in every state of every schedule |
| CodelPoolTheorems.NoLostWakeup | queue/codel.go:180-341 | while a worker sleeps each queued task has an awake worker heading for it; after Stop closes the pool nobody sleeps |
| CodelPoolTheorems.GateToldOnce | queue/codel.go:160-177 | the gate's done is called at most once per admitted call, with true only for a task that returned success |
| CodelPoolTheorems.CallerToldTheTruth | queue/codel.go:216-235 | ErrDropped if and only if the task was dropped, nil if and only if it ran, channel closed once |
| CodelPoolTheorems.GateToldExactlyWhen | queue/codel.go:216-274 | when a waiting caller has its answer its gate has been told, exactly unless the worker is between the end of the body and done; a caller told of a drop finds the gate told |
| CodelPoolTheorems.NothingLost | queue/codel.go:148-272 | accepted = queued + dropped + served as multisets and counters; first in first out with adaptive LIFO off |
| CodelPoolTheorems.OldestJudgedNewestServed | queue/codel.go:250-271 | the evaluated head has waited longest; LIFO serves the item accepted last, FIFO the one accepted first |
| CodelPoolTheorems.AcceptedExactlyWhen | queue/codel.go:148-181 | a call is accepted if and only if the pool is open and has room, and what each outcome does |
| CodelPoolTheorems.EveryDropJustified | queue/codel.go:251-312 | drop soundness in every run of the pool |
| CodelPoolTheorems.PoolDropsAtTheLawsRate | queue/codel.go:249-254 | the control state, the dropped counter and the order of the clock readings are those of the law over the run's evaluations |
| CodelPoolTheorems.PoolDropsSpaced | queue/codel.go:249-312 | any two drops of any run of the pool are apart by the spacing owed within an episode, by an interval otherwise |
| CodelPoolTheorems.PoolEpisodeSpan | queue/codel.go:249-312 | n + 1 drops of one episode of a run span at least n·floor(interval/√n) |
| CodelPoolTheorems.WorkRunsDown | queue/codel.go:237-276 | after the close each worker action uses one unit of work and nothing adds any |
| CodelPoolTheorems.DrainLength | queue/codel.go:237-343 | the drain takes exactly as many worker actions as there is work, under every schedule |
| CodelPoolTheorems.StopNeverStuck | queue/codel.go:336-343 | until every worker has gone some worker can act |
| CodelPoolTheorems.NoWorkNoWorkers | queue/codel.go:237-343 | no work is left if and only if every worker has exited |
| CodelPoolTheorems.StopSettlesEverything | queue/codel.go:334-344 | when Stop has returned every accepted task ran once or was dropped once and its gate was told once; nothing unresolved once all calls returned |
| CodelPoolOutcomes.WhatAWorkerTakes | queue/codel.go:237-312 | a worker judges the head by its enqueue time and the clock, leaves with a task to drop exactly when the law drops after the evaluations so far and this one, and otherwise with the newest or the oldest to run; stages, logs and counter all say so |
| CodelPoolOutcomes.VerdictOfTheOldest | queue/codel.go:249-259 | in every run the task judged is the one accepted longest ago, at the time of the evaluation |
| CodelPoolOutcomes.EveryRunIsLogged | queue/codel.go:249-274 | in every run the calls on their way to being dropped, or dropped, are those in the drop log and the calls run are those in the served log, each once |
| CodelPoolOutcomes.CallerToldTheVerdict | queue/codel.go:216-235 | a waiting caller is told ErrDropped if and only if the law dropped its task, nil if and only if a worker was given it to run |
| CodelPoolOutcomes.RunsAreTheServed | queue/codel.go:249-274 | a body has run if and only if its task was served and has got that far; never when dropped |
| CodelPoolOutcomes.StopCountsAgree | queue/codel.go:334-344 | when Stop has returned the calls shed number the dropped counter and the runs the tasks served |
| CodelPoolOutcomes.RefusedExactlyWhenTheGateSaysNo | queue/codel.go:140-147 | the calls are the arrivals in order; one is refused if and only if the gate said no, and is then never queued, run, or reported to the gate |
| CodelPoolOutcomes.RejectedCounts | queue/codel.go:140-159 | the rejected counter is the calls the gate refused and those that found the queue full |
| CodelPoolOutcomes.GateToldHowTheBodyEnded | queue/codel.go:162-173 | a body ends at most once, and the gate is told true if and only if it ended by returning success |
| CodelPoolOutcomes.CallsMoveOn | queue/codel.go:140-274 | a call the gate let in can always go on to the lock, an answered one can return, a ready worker can take its turn |
| CodelPoolRuns.AnsweredBeforeTheGate | queue/codel.go:216-274 | a run in which SubmitWait is answered and done has not been called |
| CodelPoolRuns.IdlePoolStillDrops | queue/codel.go:240-312 | a run in which the queue is empty and every worker asleep, and the next task, long after, is dropped |
| CodelPoolRuns.OnlyEvaluationsMoveTheLaw | queue/codel.go:237-312 | the control state changes only when a worker finds a task |
| WorkerPool.Normalized | queue/pool.go:97-105 | lower bounds of the configuration, and that a usable configuration is kept |
| WorkerPool.Pool.constructor | queue/pool.go:97-117 | a new pool has empty channels and is open |
| WorkerPool.Pool.Acquire | queue/pool.go:210-228 | takes a token or gives up, at once without a wait, at the timer's choice with one |
| WorkerPool.Pool.Release | queue/pool.go:123 | receives one token |
| WorkerPool.Pool.SubmitLocked | queue/pool.go:168-188 | under the read lock: refund when closed, otherwise send and count, given that neither can block |
| WorkerPool.Pool.Reject | queue/pool.go:153-159 | counts a rejection |
| WorkerPool.Pool.Close | queue/pool.go:271-274 | closing changes nothing but the flag |
| WorkerPool.Pool.Receive | queue/pool.go:121 | the oldest task, or the end of the loop when closed and empty |
| WorkerPoolInvariant.LinkedKept | queue/pool.go:119-189 | every action keeps workers, channel and calls in agreement |
| WorkerPoolInvariant.TokensKept | queue/pool.go:76-187 | every action keeps the token equation and the capacity |
| WorkerPoolInvariant.LockHonouredKept | queue/pool.go:168-274 | every action keeps a read-lock holder's view of closed true |
| WorkerPoolInvariant.LedgerKept | queue/pool.go:149-254 | every action keeps the book of gate calls, body runs, channel closes and replies |
| WorkerPoolInvariant.CountedKept | queue/pool.go:176-187 | every action keeps accepted equal to the counted calls and the channel first in first out |
| WorkerPoolInvariant.EveryRunKeepsInv | queue/pool.go:97-277 | the invariant holds in every state of every schedule |
| WorkerPoolTheorems.TokenAccounting | queue/pool.go:76-125 | tokens = queued + busy workers + submitters between acquire and send or refund, never above Workers + QueueCapacity |
| WorkerPoolTheorems.NothingBlocks | queue/pool.go:123-176 | the send always has room and an open channel, refund and release always find a token |
| WorkerPoolTheorems.FullMeansFull | queue/pool.go:209-219 | without a wait a call gives up if and only if every slot is taken |
| WorkerPoolTheorems.IdleWorkerNeverRejects | queue/pool.go:76-80 | a rejection while a worker is idle means more than QueueCapacity tasks are queued or entering |
| WorkerPoolTheorems.SequentialCallerRefusedExactlyWhen | queue/pool.go:50-228 | when every earlier call was a SubmitWait that has returned, the next is refused if and only if nothing may be queued and every worker has run its task and not given its token back |
| WorkerPoolTheorems.RefusedAfterSuccess | queue/pool.go:119-254 | a run in which a caller whose only task has run to its end is refused as full |
| WorkerPoolTheorems.GateToldOnce | queue/pool.go:149-189 | the gate's done is called at most once per admitted call, with true only for a task that returned success |
| WorkerPoolTheorems.CallerToldTheTruth | queue/pool.go:230-254 | SubmitWait returns nil if and only if the task has run to its end |
| WorkerPoolTheorems.GateToldExactlyWhen | queue/pool.go:149-254 | when a waiting caller has its answer its gate has been told, exactly unless the worker is between the end of the body and done |
| WorkerPoolTheorems.AnsweredBeforeTheGate | queue/pool.go:149-254 | a run in which SubmitWait is answered and done has not been called |
| WorkerPoolTheorems.StartedInOrder | queue/pool.go:121-176 | tasks start in the order they were sent |
| WorkerPoolTheorems.WorkRunsDown | queue/pool.go:119-277 | after the close each worker action uses one unit of work and nothing adds any |
| WorkerPoolTheorems.DrainLength | queue/pool.go:119-277 | the drain takes exactly as many worker actions as there is work, under every schedule |
| WorkerPoolTheorems.StopNeverStuck | queue/pool.go:119-277 | until every worker has gone some worker can act, and one that gives back a token finds one |
| WorkerPoolTheorems.ReadersMoveOn | queue/pool.go:168-271 | in every run whoever holds the read lock can take its next step: its send has room on an open channel, its refund finds a token |
| WorkerPoolTheorems.NoWorkNoWorkers | queue/pool.go:119-277 | no work is left if and only if every worker has exited |
| WorkerPoolTheorems.StopRunsEverything | queue/pool.go:266-277 | when Stop has returned every sent task ran exactly once, accepted is the number of executions, gates told once |
| WorkerPoolOutcomes.RefusedExactlyWhenTheGateSaysNo | queue/pool.go:149-155 | the calls are the arrivals in order; one is refused if and only if the gate said no, and then takes no slot, is never sent or run and its gate never called |
| WorkerPoolOutcomes.RejectedCounts | queue/pool.go:149-165 | the rejected counter is the calls the gate refused and those that got no slot |
| WorkerPoolOutcomes.WhatThoseTurnedAwayAreTold | queue/pool.go:157-174 | QueueTimeout after a wait, QueueFull without one, Stopped with the slot given back; the gate false in each case |
| WorkerPoolOutcomes.GateToldHowTheBodyEnded | queue/pool.go:176-187 | a body ends at most once, and the gate is told true if and only if it ended by returning success |
| WorkerPoolOutcomes.CallsMoveOn | queue/pool.go:149-254 | a slot can be taken if and only if fewer than Workers + QueueCapacity are, and given up on if and only if there is a wait or none is free |
| SimpleLimiter.Limiter.Acquire | concurrencylimits/limiter.go:58-75 | without interference: admitted if and only if below the limit, the counter left as found otherwise |
| SimpleLimiter.Listener.Finish | concurrencylimits/limiter.go:90-98 | the slot is given back and the sample fed only the first time |
| SimpleLimiter.UninterruptedAcquire | concurrencylimits/limiter.go:58-75 | the atomic actions of one Acquire in a row do what the method does |
| SimpleLimiter.EveryRunKeepsInv | concurrencylimits/limiter.go:58-98 | the k-th caller still counted got at least k from its increment, in every interleaving |
| SimpleLimiter.NeverOverTheLimit | concurrencylimits/limiter.go:28-98 | never more listeners out than the largest limit read; counter = listeners out + callers deciding |
| SimpleLimiter.RefusedExactlyWhen | concurrencylimits/limiter.go:58-75 | a caller is refused if and only if listeners out and callers deciding when it came make up the limit |
| SimpleLimiter.RefusedBelowTheLimit | concurrencylimits/limiter.go:58-75 | an interleaving in which a caller is refused while no listener is out |
| SimpleLimiter.GivenBackOnce | concurrencylimits/limiter.go:90-102 | a finished listener is counted no more and calling it again changes nothing |
| LifoLimiter.Normalized | concurrencylimits/lifo.go:44-54 | default backlog size, and that a usable one is kept |
| LifoLimiter.LifoBlockingLimiter.Enqueue | concurrencylimits/lifo.go:78-90 | refused when full, otherwise put in front |
| LifoLimiter.LifoBlockingLimiter.Unblock | concurrencylimits/lifo.go:124-141 | hands a permit to the newest waiter if there is one and the delegate grants |
| LifoLimiter.LifoBlockingLimiter.RemoveWaiter | concurrencylimits/lifo.go:144-151 | takes the first occurrence out of the backlog by search in place |
| LifoLimiter.LifoBlockingLimiter.TimedOut | concurrencylimits/lifo.go:104-118 | the permit handed over in the meantime, or removal and nothing |
| LifoTheorems.InvKept | concurrencylimits/lifo.go:72-151 | every action keeps waiters, backlog and permits in agreement |
| LifoTheorems.EveryRunKeepsInv | concurrencylimits/lifo.go:72-165 | the invariant holds in every state of every interleaving |
| LifoTheorems.PermitsConserved | concurrencylimits/lifo.go:72-165 | live permits = held by callers + handed over and not yet returned, none in two hands, never more than the delegate grants |
| LifoTheorems.WaiterInOneCondition | concurrencylimits/lifo.go:98-139 | each waiter is queued, admitted with a permit or timed out without one; ready closed at most once |
| LifoTheorems.RaceKeepsThePermit | concurrencylimits/lifo.go:98-119 | whichever branch wins, a waiter that was handed a permit returns with it, and only such a one does |
| LifoTheorems.NewestIsServed | concurrencylimits/lifo.go:13-141 | the freed permit goes to the waiter that joined last and the others keep waiting |
| LifoTheorems.RejectedExactlyWhenFull | concurrencylimits/lifo.go:78-90 | a caller the delegate refused is rejected if and only if the backlog is full, and otherwise waits in front of all others |
| LifoTheorems.GrantsGoToTheAsker | concurrencylimits/lifo.go:72-76 | a permit granted on the fast path is held by the caller that asked |
| LifoTheorems.UnblockMayDoNothing | concurrencylimits/lifo.go:124-135 | an unblock that finds nobody waiting or is refused changes nothing else |
| LifoTheorems.CallsMoveOn | concurrencylimits/lifo.go:72-165 | in every run each call that is not finished can take its next step |
| LifoTheorems.WaitingWithAFreePermit | concurrencylimits/lifo.go:61-90 | a concrete interleaving in which a caller waits although a permit is free |
| LifoWaiting.CoverKeptExactlyWhen | concurrencylimits/lifo.go:72-165 | an action keeps every permit of the present limit out or about to be offered while somebody waits, if and only if it neither joins too late, nor loses the last hand-over, nor raises the limit past what is offered |
| LifoWaiting.WaitersCoveredExactlyWhen | concurrencylimits/lifo.go:72-165 | the same throughout a run: it holds in every state if and only if no action of the run is of those three kinds |
| LifoWaiting.TimelyWaitersWaitAtLimit | concurrencylimits/lifo.go:61-165 | in such a run, whoever waits with no unblock to come waits at the present limit or above |
| LifoWaiting.HonestRefusalsLoseNothing | concurrencylimits/lifo.go:124-141 | an unblock refused only at the present limit loses no hand-over |
| LifoWaiting.AtLimitKeptExactlyWhen | concurrencylimits/lifo.go:61-165 | waiting only at the present limit is left if and only if a permit is released at the limit or the limit rises past the permits out with a waiter in the backlog, or a caller joins below the limit |
| LifoWaiting.WaitersAtLimitExactlyWhen | concurrencylimits/lifo.go:61-165 | the same throughout a run |
| LifoWaiting.WaitingWithoutAnyRelease | concurrencylimits/lifo.go:72-90 | an interleaving in which a caller refused below the limit waits and nothing was ever released |
| LifoWaiting.WaitingAfterALostHandOver | concurrencylimits/lifo.go:124-133 | an interleaving in which a caller that joined at the limit is left waiting by a refused unblock |
| LifoWaiting.WaitingAfterTheLimitRose | concurrencylimits/lifo.go:124-165 | an interleaving in which the limit rises with a release, its unblock serves one of two waiters, and the other waits below the limit |
| LifoWaiting.LateJoinAtTheLimit | concurrencylimits/lifo.go:72-90 | an interleaving in which a release falls between refusal and joining and the delegate is at its limit all the same |
| LifoOverSimple.EveryRunKeepsInv | concurrencylimits/lifo.go:72-165 | with the fail-fast limiter as delegate: permits are its listeners, and an unblock that waits for its answer was counted as no more than permits out, unblocks due and callers deciding |
| LifoOverSimple.AnswersAreAllowed | concurrencylimits/limiter.go:58-75 | every answer of the fail-fast limiter is one the LIFO limiter's model allows |
| LifoOverSimple.RunsOfBoth | concurrencylimits/lifo.go:72-165 | every run of one limiter inside the other is a run of the model of each, at the limit of the moment |
| LifoOverSimple.AskCountsTheDeciding | concurrencylimits/limiter.go:58-61 | an unblock that asks the delegate finds its counter at the permits out and the callers deciding, which is what is recorded of it |
| LifoOverSimple.LostOnlyBehindADecidingCaller | concurrencylimits/lifo.go:124-133 | a hand-over is lost only if another caller was between its increment and its admission or undo when the unblock asked, however the limit moves |
| LifoOverSimple.WaitingAtAnIdleDelegate | concurrencylimits/lifo.go:72-141 | an interleaving of the two limiters that ends with a caller waiting and nobody left at the delegate |
| Logarithm.FillLookup | concurrencylimits/limit.go:28-37 | the table holds max(1, floor(log10(i))) |
| Logarithm.FloorLog10Unique | concurrencylimits/limit.go:28 | floor(log10(n)) is the only exponent whose power of ten, and no higher one, is at most n |
| Logarithm.Log10Int | concurrencylimits/limit.go:39-47 | the same function inside and beyond the table, negatives as zero |
| Logarithm.Log10RootExact | concurrencylimits/limit.go:28-47 | the power of ten below and above the argument |
| Logarithm.FillPlus1 | quarkus/detector.go:11-20 | the table holds 1 + floor(log10(i)) |
| Logarithm.LookupPlus1 | quarkus/detector.go:22-27 | the same function inside and beyond the table |
| Logarithm.Log10Plus1Bounds | quarkus/detector.go:11-27 | grows with its argument, never exceeds it, and counts its decimal digits |
| Detector.QueueSize | quarkus/detector.go:122 | the ceiling of limit·(1 − lowest/time), by the inequalities that define it |
| Detector.OverloadDetector.constructor | quarkus/detector.go:51-62 | the initial state |
| Detector.OverloadDetector.RequestBegin | quarkus/detector.go:70-72 | one more in flight |
| Detector.OverloadDetector.RequestEnd | quarkus/detector.go:76-80 | one fewer in flight, and an update with the number before |
| Detector.OverloadDetector.Apply | quarkus/detector.go:92-147 | the whole new state after one sample, probe and early returns included |
| Detector.LimitStaysInRange | quarkus/detector.go:92-147 | the limit stays in [1, maxLimit] in every run |
| Detector.BaselineIsMinimum | quarkus/detector.go:92-113 | the lowest time is exactly the minimum of what it was and the positive times since, or of those from the newest probe on |
| Detector.ProbesOftenEnough | quarkus/detector.go:92-113 | any n ≥ probeFactor·maxLimit positive samples, n at least one, contain a probe |
| Detector.QueueGrowsSlowly | quarkus/detector.go:122 | a larger limit has a larger estimated queue, by no more than the difference |
| Detector.ShrinkThenNoGrow | quarkus/detector.go:117-146 | a shrink is never followed by a growth |
| Detector.SlowGrowThenNoShrink | quarkus/detector.go:117-146 | a slow growth is never followed by a shrink |
| Detector.SettledExactlyWhen | quarkus/detector.go:128-146 | a limit is left alone if and only if it is in the alpha..beta band or at the maximum wanting to grow |
| Detector.RankFalls | quarkus/detector.go:117-146 | every change uses up one of at most 2·maxLimit changes |
| Detector.SettledForGood | quarkus/detector.go:117-146 | once a sample leaves the limit alone so do all later ones |
| Detector.Converges | quarkus/detector.go:117-146 | after 2·maxLimit reacting samples with one response time the limit is constant, in the band or at the maximum |
| Detector.OverloadDetector.Microseconds | quarkus/detector.go:76-80 | whole microseconds, towards zero |
| DetectorReactions.EstimateAtMost | quarkus/detector.go:122 | the estimate is at most k if and only if limit·(time − lowest) is at most k·time |
| DetectorReactions.WithoutReaction | quarkus/detector.go:92-120 | exactly what a sample does that is not positive, that probes, that lowers the baseline, or that finds less than half the limit in flight |
| DetectorReactions.ReactionByQueue | quarkus/detector.go:117-146 | the new limit after a reacting sample, by limit·(time − lowest) against the multiples of the logarithm: + betaFactor times it, + it, unchanged, − it |
| DetectorReactions.ClimbsWhileUnqueued | quarkus/detector.go:128-146 | reacting samples with next to nothing queued take the limit to the maximum within (maxLimit − limit)/betaFactor of them, rounded up |
| Gradient2.ExpAvg.Include | concurrencylimits/limit.go:64-74 | warm-up mean, then exponential average, updated in place |
| Gradient2.ExpAvg.Update | concurrencylimits/limit.go:76-79 | the value replaced by a function of it |
| Gradient2.Gradient2Limit.Observe | concurrencylimits/gradient2.go:86-113 | the whole new state after one sample |
| Gradient2.BaselineAmongSamples | concurrencylimits/gradient2.go:95-102 | the long response time lies between the smallest and largest positive sample, warm-up and decay included |
| Gradient2.SmoothedFromBalance | concurrencylimits/gradient2.go:108-110 | one adjustment scales the distance to queueSize/(1−gradient) by 1 − smoothing·(1−gradient) |
| Gradient2.Contracts | concurrencylimits/gradient2.go:108-112 | n samples with one gradient below one leave at most the n-th power of that factor of the distance to the balance, or to the nearer end of the range when the balance lies outside |
| Gradient2.BalanceIsFixed | concurrencylimits/gradient2.go:108-112 | queueSize/(1−gradient) is a fixed point |
| Gradient2.GoalIsFixed | concurrencylimits/gradient2.go:108-112 | the point the limit is headed for is fixed: the balance within the range, otherwise the end nearer to it |
| Gradient2.ClimbsToMaximum | concurrencylimits/gradient2.go:94-112 | with one response time the limit is exactly min(max, start + n·smoothing·queueSize) after n samples |
| Gradient2.ReachesMaximum | concurrencylimits/gradient2.go:94-112 | from a fresh average the maximum is reached after (max − limit)/(smoothing·queueSize) samples, and kept |
| Gradient2Reactions.GradientByMultiplication | concurrencylimits/gradient2.go:108 | 1 when the tolerated long time covers the short one, 0.5 when it is at most half of it, and in between gradient·short = tolerance·long |
| Gradient2Reactions.BelowOneExactlyWhen | concurrencylimits/gradient2.go:108 | the gradient is below one if and only if the short time exceeds what is tolerated |
| Gradient2Reactions.FreshAverage | concurrencylimits/gradient2.go:60-73 | a new average warms up over ten times |
| Gradient2Reactions.AverageMoves | concurrencylimits/gradient2.go:95-102 | the average after one more time: the mean of all in the warm-up, then 2/(window + 1) of the way, and 0.95 of that when it is more than twice the time |
| Gradient2Reactions.WarmUpCountsAll | concurrencylimits/limit.go:64-70 | through the warm-up count and sum are those of every positive time since the start |
| Gradient2Reactions.WithoutReaction | concurrencylimits/gradient2.go:86-106 | a sample that is not positive changes nothing, one with less than half the limit in flight only the average |
| Gradient2Reactions.ReactionByGradient | concurrencylimits/gradient2.go:108-112 | smoothing of the way to limit·gradient + queueSize, within the range |
| Gradient2Reactions.LatencyLowersTheLimit | concurrencylimits/gradient2.go:108-112 | a loaded sample slower than tolerated lowers a limit above queueSize/(1 − gradient) and the minimum |
| Gradient2Reactions.ContractsByTimes | concurrencylimits/gradient2.go:86-113 | the geometric approach for samples given by their times, each the tolerated long time over g |
| Vegas.VegasLimit.Observe | concurrencylimits/vegas.go:77-99 | the whole new state after one sample |
| Vegas.VegasLimit.ShouldProbe | concurrencylimits/vegas.go:132-134 | whether the counted sample is due to probe |
| Vegas.VegasLimit.UpdateEstimatedLimit | concurrencylimits/vegas.go:101-130 | the limit after one reacting sample |
| Vegas.LimitStaysInRange | concurrencylimits/vegas.go:101-130 | the limit stays in [1, maxLimit] in every run, for any smoothing in (0, 1] |
| Vegas.DropNeverRaises | concurrencylimits/vegas.go:107-108 | a dropped sample never raises the limit |
| Vegas.DropDecrease | concurrencylimits/vegas.go:101-130 | a reacting dropped sample lowers the limit by smoothing times its logarithm, stopped at one: a difference, not a factor |
| Vegas.DirectionByBand | concurrencylimits/vegas.go:109-128 | a loaded sample grows the limit below alpha, shrinks it above beta, leaves it alone between |
| Vegas.BaselineIsMinimum | concurrencylimits/vegas.go:85-96 | the no-load time is exactly the minimum of the positive samples since the last probe, inclusive |
| Vegas.ProbesOftenEnough | concurrencylimits/vegas.go:85-138 | any probeMultiplier·maxLimit consecutive positive samples contain a probe |
| VegasReactions.EstimateExact | concurrencylimits/vegas.go:103 | the estimate q satisfies (q − 1)·rtt < limit·(rtt − noLoad) ≤ q·rtt |
| VegasReactions.WithoutReaction | concurrencylimits/vegas.go:77-114 | exactly what a sample does that is not positive, that probes, that sets the baseline, or that lost nothing with less than half the limit in flight |
| VegasReactions.ReactionByQueue | concurrencylimits/vegas.go:101-130 | by limit·(rtt − noLoad) against g, 3g − 1 and 6g times rtt, g the logarithm: smoothing of the way to limit + 6g, + g, unchanged, − g, and − g after a loss |
| VegasReactions.HealthyGrows | concurrencylimits/vegas.go:101-130 | with nothing queued a loaded sample grows the limit |
| VegasReactions.CongestedShrinks | concurrencylimits/vegas.go:101-130 | with more than six times the logarithm queued it shrinks it |
| Gradient.NextCountdown | concurrencylimits/gradient.go:124-129 | between probeInterval and 2·probeInterval − 1 |
| Gradient.GradientLimit.Observe | concurrencylimits/gradient.go:80-122 | the whole new state after one sample |
| Gradient.GradientLimit.Adjust | concurrencylimits/gradient.go:105-121 | the limit after a sample that does not probe |
| Gradient.LimitStaysInRange | concurrencylimits/gradient.go:88-121 | the limit stays in [max(4, minLimit), maxLimit] through probes, drops and square-root headroom |
| Gradient.DropNeverRaises | concurrencylimits/gradient.go:92-121 | neither a dropped sample nor a probe raises the limit, in every reachable state |
| Gradient.HealthyGrows | concurrencylimits/gradient.go:105-120 | within the tolerance a loaded sample adds the whole headroom, up to the maximum |
| Gradient.BaselineIsMinimum | concurrencylimits/gradient.go:92-103 | between probes the no-load time is the smallest positive sample since it was unset |
| Gradient.CountdownIsExact | concurrencylimits/gradient.go:90-98 | the countdown-th positive sample probes and none before it |
| Gradient.ProbeGap | concurrencylimits/gradient.go:90-129 | consecutive probes are probeInterval to 2·probeInterval − 1 positive samples apart |
| GradientReactions.RatioByMultiplication | concurrencylimits/gradient.go:105 | 1 when the tolerated no-load time covers the response time, 0.5 when it is at most half of it, and in between gradient·rtt = tolerance·noLoad |
| GradientReactions.WithoutReaction | concurrencylimits/gradient.go:80-113 | exactly what a sample does that is not positive or probes, and what becomes of baseline and countdown otherwise; with less than half the limit in flight and no loss the limit stays |
| GradientReactions.ReactionToLoss | concurrencylimits/gradient.go:107-121 | after a loss limit·backoff is wanted, and taken a share smoothing of the way, within the bounds |
| GradientReactions.ReactionByGradient | concurrencylimits/gradient.go:105-121 | otherwise limit·gradient + headroom is wanted: all of the way up, a share smoothing of the way down, within the bounds |
| GradientReactions.LossLowersTheLimit | concurrencylimits/gradient.go:107-121 | a loss lowers a limit above the minimum and the headroom |
| GradientReactions.LatencyLowersTheLimit | concurrencylimits/gradient.go:105-121 | a loaded sample slower than tolerated lowers a limit above headroom/(1 − gradient) |
| Windowed.Clamp | concurrencylimits/windowed.go:108-116 | within the bounds when they are ordered, never below the smaller |
| Windowed.TruncDiv | concurrencylimits/windowed.go:142-147 | the quotient towards zero, by the inequalities that define it |
| Windowed.SampleWindow.Include | concurrencylimits/windowed.go:128-138 | the aggregates with one more sample |
| Windowed.WindowedLimit.Observe | concurrencylimits/windowed.go:79-106 | the whole new state and the call made to the delegate |
| Windowed.BatchingRefinesPartition | concurrencylimits/windowed.go:79-146 | the incremental state is the aggregate of the open part of a partition of the history, and the delegate is called exactly for the closed parts of at least windowSize |
| Windowed.PartitionCovers | concurrencylimits/windowed.go:80-101 | closed windows followed by the open one are the samples above the threshold, none lost or repeated |
| Windowed.FlushesSpaced | concurrencylimits/windowed.go:87-116 | consecutive flushes are more than the smaller window time apart, which is minWindowTime when the two are ordered |
| Windowed.AggregatesAreExtremes | concurrencylimits/windowed.go:128-140 | the minimum and the maximum are those of the window |
| Windowed.MeanWithinWindow | concurrencylimits/windowed.go:142-147 | the reported time is the floor of the mean and lies between the smallest and largest of the window |
| Priority.NormalizeCohort | quarkus/priority.go:157-170 | every machine integer lands in [1, 128], those already there unchanged |
| Priority.CohortOutside | quarkus/priority.go:157-170 | a cohort outside [1, 128] lands one above the remainder of its magnitude, the smallest integer at 128, zero at 1 |
| Priority.PriorityLoadShedding.ShedLoad | quarkus/priority.go:111-155 | the new cache and the verdict from first matchers and threshold |
| Priority.PriorityLoadShedding.Search | quarkus/priority.go:137-151 | the value of the first matcher that applies |
| Priority.ScoreIsLexicographic | quarkus/priority.go:36-170 | the score embeds the order of priority, then cohort, strictly, for every machine integer cohort and every priority whose score does not wrap around |
| Priority.DeclaredPrioritiesFit | quarkus/priority.go:20-39 | no score of a declared priority wraps around, nor of one below 2^56 − 1 in magnitude |
| Priority.InOrderExactlyWhenItFits | quarkus/priority.go:36-155 | a request is in order with all whose scores do not wrap around if and only if its own does not |
| Priority.ShedSetUpwardClosed | quarkus/priority.go:154 | a threshold that sheds a request sheds every less important one, among scores that do not wrap around |
| Priority.HigherLoadShedsMore | quarkus/priority.go:121-154 | a higher load sheds a superset |
| Priority.ShedExactlyWhen | quarkus/priority.go:121-154 | a request is shed if and only if 640·load³ exceeds 640 less its score, or the load exceeds one |
| Priority.ExtremeLoads | quarkus/priority.go:74-154 | load zero sheds exactly what scores above every declared priority, load one what scores above zero, a higher or unknown load everything; so nothing and everything among the declared priorities |
| Priority.ThresholdIsRecent | quarkus/priority.go:116-130 | every decision uses a load read at most a second ago, or the initial zero in the first second of the epoch |
| Priority.ReadingsSpaced | quarkus/priority.go:118-129 | two load readings are more than a second apart |
| Cpuset.ParseUints | queue/cpu_linux.go:366-406 | the loops over fields and ranges compute the parse function |
| Cpuset.ExpandRange | queue/cpu_linux.go:387-392 | the inner loop, with the seen set equal to the elements of the list |
| Cpuset.NoDuplicates | queue/cpu_linux.go:371-405 | an accepted list has no duplicates, whatever the input |
| Cpuset.ParseDecimal | queue/cpu_linux.go:352-364 | a rendered number is read as itself exactly below 2^63 and as zero from there on |
| Cpuset.ParseUndoesRender | queue/cpu_linux.go:352-406 | a rendered list of ranges parses to a duplicate-free list holding exactly their union |
| CpusetErrors.NumbersRead | queue/cpu_linux.go:352-364 | a digit string, with a plus or without, is its value below 2^63 and zero from there on; with a minus it is zero |
| CpusetErrors.MalformedRejected | queue/cpu_linux.go:352-359 | nothing, a bare sign and any string with a first character that is no digit before an overflow are rejected |
| CpusetErrors.RangesRead | queue/cpu_linux.go:373-392 | a range is its two bounds unless one is no number or they are reversed, when it is rejected |
| CpusetErrors.ListRejectedExactlyWhen | queue/cpu_linux.go:372-403 | a list is rejected if and only if one of its fields is |
| CpusetErrors.RenderedAcceptedExactlyWhen | queue/cpu_linux.go:366-406 | a rendered list with bounds below 2^63 is accepted if and only if no range in it is reversed |
| CpusetErrors.RangeAppends | queue/cpu_linux.go:387-392 | a range appends what is new in it in increasing order |
| CpusetErrors.FieldsAppend | queue/cpu_linux.go:372-403 | fields are read from left to right, what is there stays in front |

## Left out

Parts of the repository that the model does not contain:

- HTTP handlers, the `codeWriter` variants and the 503 plumbing around the modelled calls.
- The `gozero` and `sentinel` packages: a gate is an abstract source of admit or deny.
- CPU sampling and the reading of `/proc` and cgroup files in queue/cpu.go and the rest of
  queue/cpu_linux.go: a load reading is an input.
- The simulation driver and its command.
- Logging, option functions, getters, `FixedLimit`, statistics snapshots, the `active` counter of
  the pools and replacing a gate while requests are in flight.
- IEEE rounding, including that of `math.Log10` and `math.Sqrt`: numbers are exact, and the square
  root of the headroom is any non-negative number with the right square.
- 64-bit overflow of durations, sums and counters, except in the priority scores, the cohort
  arithmetic and number parsing, where it decides the result.
- The distribution of the random draws: any jitter and any countdown in the drawn range is allowed.
- Timer accuracy: a timeout may fire at any step at which its wait can end.
- A second caller of `Stop`: `sync.Once` makes it wait for the first, and one `Stop` is modelled.
- Writer preference of the read-write lock: the model allows more interleavings than Go does.
- The quarkus shedder around the detector: `Admit` checks and increments in two steps and the
  priority stage admits past the limit, so in-flight requests are not bounded by the limit.
- `strconv.ParseInt` and `strings.Split` are modelled by their documented behaviour; their code is
  not part of this model.

Modelling choices and restrictions:

- CodelPool.CodelPool.Submit: the clock is read inside the critical section, so readings are monotone in acceptance order; each schedule chooses the readings.
- WorkerPool.Pool.SubmitLocked: assumes of the semaphore and the channel exactly that the operations do not block; `WorkerPoolTheorems.NothingBlocks` proves it for every schedule.
- WorkerPool.Pool.Reject: counting a rejection and telling the gate are one step of the state machine, two in the code; no other step reads both.
- SimpleLimiter.Limiter.Acquire: the method runs without interference, because a Dafny method is sequential; the interleavings of its atomic operations are the actions of the state machine, and `SimpleLimiter.UninterruptedAcquire` ties the two.
- LifoLimiter.LifoBlockingLimiter.Enqueue: waiters are named by the call that created them and kept in a map, where the code shares pointers, so aliasing of waiters is not captured.
- LifoTheorems.PermitsConserved: the delegate is any limiter with a bound on the permits it has out and a limit that moves below it; `LifoOverSimple.RunsOfBoth` shows that the fail-fast limiter is one.
- LifoOverSimple.RunsOfBoth: the limit moves at any time to any value below the bound, where the code moves it by the sample of a release; the sample is not tied to the release here.
- Windowed.WindowedLimit.Observe: the call to the delegate is returned as a value; the code makes it after unlocking, so the order of delegate calls from concurrent flushes is not captured.
- Detector.OverloadDetector.constructor: excludes a probe factor and an initial limit that are both negative, where the original takes the logarithm of a negative number.
- Gradient2.ExpAvg.Include: requires a window other than -1, where the original divides by zero.
- Gradient.NextCountdown: requires a number the original can draw, since its random source panics on an empty range.
- Gradient2.Gradient2Limit.Observe: requires a window other than -1 for the same reason.
- Gradient.GradientLimit.Observe: takes the headroom function as a field, as the code does; that it is max(4, sqrt(limit)) is a hypothesis of the lemmas about it, since a square root is not computed exactly.
- Logarithm.LookupPlus1: takes no negative limit, for which the original converts the logarithm of a negative number; `Detector` shows that none reaches it.
- Priority.ShedSetUpwardClosed: leaves out scores that wrap around, where it fails; `Priority.InOrderExactlyWhenItFits` says which those are.
- Detector.OverloadDetector.IsOverloaded: is the bare comparison; what it bounds depends on the shedder, which is not part of this model.
- Vegas.ProbesOftenEnough: requires the jitter to be drawn from [0, 1], which contains the original's range.
