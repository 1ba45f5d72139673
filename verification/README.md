# FreeRTOS kernel: a Dafny model

The project models the core of the FreeRTOS kernel (`list.c`, `tasks.c`, `queue.c`, `timers.c`,
`stream_buffer.c`, `event_groups.c`) and proves what its parts promise over whole runs. Check it with
`dafny verify dfyconfig.toml`.

Most components come as two modules: a step machine on values, about which the theorems are stated, and a
class that updates its fields in place with the loops of the source and is proved to perform those steps.

| component | step machine or specification | in place |
|---|---|---|
| intrusive list | `RoundRobin`, `SortedList` | `IntrusiveList` |
| tick and delay engine | `TickEngine`, `Wakeups`, `TickRefinement`, `Tickless` | `TickKernel` |
| timeouts and periods | `TimeOuts` | `TimeOuts` |
| ready lists, task selection | `ReadyLists` | `ReadyLists` |
| multi-core selection | `SmpSelection`, `SmpRuns` | `SmpKernel` |
| priority inheritance | `PriorityInheritance`, `MutexRuns` | `InheritanceKernel` |
| queue blocking protocol | `QueueBlocking`, `QueueCalls` | `BlockingQueue` |
| queue storage | `CircularBuffer`, `QueueStorage` | `QueueStorage` |
| task notifications | `Notifications`, `NotificationValues` | `NotificationKernel` |
| software timers | `TimerDaemon` | `TimerDaemon` |
| stream and message buffers | `CircularBuffer`, `ByteStream`, `MessageStream`, `StreamProgress` | `MessageBuffer` |
| event groups | `EventGroup`, `EventRuns` | `EventFlags` |

`Common` holds what they share: optional values, lists without duplicates, counting in lists, bits, and the 32-bit tick type with its wrapping
arithmetic. Critical sections and sections with the scheduler suspended are single steps; interrupts may fall between
any two steps. Time is an unbounded integer of which the code sees the value modulo 2^32; ghost fields and history
fields (`readied`, `ran`, `accepted`, `received`, `sent`, `got`, `seen...`) record what has happened and never influence a step.

## What turned out not to hold

- Bounded priority inversion fails without a further condition. When a mutex is given and somebody waits for it,
  `xQueueGenericSend` decides about yielding by the woken waiter alone and drops the yield that
  `xTaskPriorityDisinherit` asked for. If the woken waiter does not outrank the giver's restored priority but another
  ready task does, the giver runs on and can take a mutex on which a more urgent task is parked.
  `UnboundedInversion` is such a run. `BoundedInversionIff` gives the exact condition over whole runs (no take
  overtakes a more urgent parked task), `GiveYieldsIff` says exactly when a give skips its yield, and
  `BoundedInversion` proves the bound for every run in which no mutex is taken between a skipped yield and the next
  context switch, which a giver can see to by yielding.
- The assert of `vTaskStepTick` compares wrapped tick values. It admits jumps that wrap the tick count, and then a
  whole wrap of time is lost. `TicklessIff` gives the exact condition for the whole state with the number of wraps,
  `TicklessListsIff` the one for tick count and lists alone, and `TicklessCounterexample` a task on the wrong list.
- `xTaskCheckForTimeOut` misses an expiry when two or more wraps look like part of one; `CheckIff` gives the exact
  condition, `AliasedCheck` a case. `xTaskDelayUntil` decides by the gap modulo one wrap; `DelayUntilIff` gives the
  exact condition, `LateDelayUntil` a case.
- The lock counts of a queue are `int8_t` and capped by the number of tasks, so with more than 127 tasks the assert in
  the increment macros can fire (`LockCountOverflows`); with at most 127 it cannot (`LockCountsFit`).

## Model

| member | source | states |
|---|---|---|
| `PriorityInheritance.StepKeepsBooks` | FreeRTOS/Source/tasks.c:6650-6960 | every mutex step (take, park, also while holding other mutexes, give to whichever waiter heads the list, wake, waiter timeout, priority change) keeps uxMutexesHeld equal to the number of mutexes naming the task as holder, uxPriority >= uxBasePriority, equality when none is held, and every ready task on the list of its own priority |
| `PriorityInheritance.RunKeepsBooks` | FreeRTOS/Source/tasks.c:2807-3015 | the same over every run, with vTaskPrioritySet calls and blocking while holding anywhere in it |
| `PriorityInheritance.InheritMeans` | FreeRTOS/Source/tasks.c:6650-6746 | inheriting makes the holder at least as urgent as the taker and no more urgent than the more urgent of the two, keeps it on the ready list of its priority, and is reported exactly when its base priority is below the taker's |
| `PriorityInheritance.GiverHolds` | FreeRTOS/Source/tasks.c:6753-6785 | the internal asserts of xTaskPriorityDisinherit cannot fire: the giver is the holder and holds at least one mutex |
| `PriorityInheritance.CleanupNeverRaises` | FreeRTOS/Source/tasks.c:6847-6960 | when a waiter times out, the asserts of the disinherit function hold, the holder's priority can only go down, and never below a task that still waits |
| `PriorityInheritance.GiveYieldsIff` | FreeRTOS/Source/queue.c:1041-1074 | after a give the running task is the most urgent ready one or a yield is outstanding if and only if the give does not skip the yield that disinheriting asked for; the condition is the guard of that branch |
| `PriorityInheritance.StepKeepsInv` | FreeRTOS/Source/queue.c:1659-1881 | with fixed base priorities and no blocking while holding, every step keeps holders at least as urgent as those parked on their mutex, except a take that overtakes a more urgent parked task |
| `PriorityInheritance.RunKeepsInv` | FreeRTOS/Source/queue.c:1659-1881 | the same over every run in which no take does that |
| `PriorityInheritance.TakeIff` | FreeRTOS/Source/queue.c:1696-1717 | a take keeps the bound if and only if nobody parked on the mutex is more urgent than the taker |
| `PriorityInheritance.TopOutranks` | FreeRTOS/Source/queue.c:1694-1696 | a running task that no ready task outranks overtakes nobody more urgent: whoever was woken for the free mutex is ready and at least as urgent as those still parked |
| `PriorityInheritance.StepKeepsTop` | FreeRTOS/Source/queue.c:1041-1074 | every step but a give that skips its yield leaves the running task unoutranked or a yield outstanding |
| `PriorityInheritance.ParkedKeysFixed` | FreeRTOS/Source/tasks.c:6650-6746 | in that setting the key of a parked task never changes, which is why its wait list stays sorted |
| `PriorityInheritance.BoundedInversionIff` | FreeRTOS/Source/queue.c:1659-1881 | bounded priority inversion, exactly: the bound holds in every state of a run if and only if no take in it overtakes a more urgent parked task |
| `PriorityInheritance.DisciplineIsFair` | FreeRTOS/Source/queue.c:1041-1074 | such a take can only come between a skipped yield and the next context switch |
| `PriorityInheritance.BoundedInversion` | FreeRTOS/Source/queue.c:1659-1881 | bounded priority inversion: in every run with fixed base priorities and no blocking while holding in which no mutex is taken between a skipped yield and the next context switch, a holder's priority is at least that of every task parked on its mutex |
| `PriorityInheritance.UnboundedInversion` | FreeRTOS/Source/queue.c:1041-1074 | a concrete run of fourteen steps in that setting in which a take after a skipped yield leaves a holder of priority 1 with a task of priority 2 parked on its mutex |
| `MutexRuns.HolderIff` | FreeRTOS/Source/queue.c:1696-1717 | a mutex gets a holder by a take and loses it by a give, and in no other way |
| `MutexRuns.WaitsIff` | FreeRTOS/Source/queue.c:1785-1817 | a task enters the wait list of a mutex by parking on it and leaves it by a give that picks it or by its timeout, and in no other way |
| `MutexRuns.RunnableIff` | FreeRTOS/Source/tasks.c:5405-5493 | a task can run until it blocks, and again once a give, a timeout or a wake-up makes it ready |
| `MutexRuns.ParkMeans` | FreeRTOS/Source/queue.c:1785-1817 | parking lends the holder the caller's priority if that is higher and nothing else, and notes whether it inherited |
| `MutexRuns.GiveMeans` | FreeRTOS/Source/tasks.c:6753-6840 | giving back the last mutex returns a task to its base priority and its ready list; giving one of several leaves the priority |
| `MutexRuns.CleanupMeans` | FreeRTOS/Source/tasks.c:6847-6960 | a waiter that gives up takes back what it lent: a holder of that one mutex comes down to the higher of its base priority and the most urgent remaining waiter, a holder of several keeps what it has, nobody else is concerned |
| `MutexRuns.HeldUntilGiven` | FreeRTOS/Source/queue.c:1041-1074 | mutual exclusion: through every run a mutex stays with its holder until the holder gives it, and nobody takes it meanwhile |
| `MutexRuns.WaitsUntilRoused` | FreeRTOS/Source/queue.c:1785-1817 | a parked task waits through every run until a give picks it or its time is up |
| `MutexRuns.PickedWaiterTakes` | FreeRTOS/Source/queue.c:1696-1717 | a waiter that a give picks and that is then most urgent runs, takes the mutex and holds one more |
| `MutexRuns.TimedOutWaiterReturns` | FreeRTOS/Source/queue.c:1832-1874 | a waiter whose time is up while the mutex is held, once most urgent, runs, gives up and returns without it, and a holder of that one mutex that had inherited from it comes down again |
| `MutexRuns.PrioritySetMeans` | FreeRTOS/Source/tasks.c:2860-2990 | vTaskPrioritySet sets the base priority; the used one follows unless it is inherited and larger; the task is on the ready list of its used priority; nothing else changes; a yield is asked for exactly if another task was raised above the caller or the caller lowered itself |
| `MutexRuns.PrioritySetKeepsTop` | FreeRTOS/Source/tasks.c:2860-2990 | whatever priority is changed, the running task is the most urgent one that can run or a yield is outstanding |
| `MutexRuns.RunSetsBase` | FreeRTOS/Source/tasks.c:2807-3015 | over every run a task's base priority is the one last set, or its first; its used priority is never below, is that whenever it holds no mutex, and names its ready list |
| `InheritanceKernel.MutexKernel.PriorityInherit` | FreeRTOS/Source/tasks.c:6650-6746 | afterwards the holder is at least as urgent as the caller, sits on the real ready list of its priority, the ready lists still hold exactly the ready tasks, and inheritance is reported exactly when its base priority is below the caller's |
| `InheritanceKernel.MutexKernel.PriorityDisinherit` | FreeRTOS/Source/tasks.c:6753-6840 | giving back the last mutex returns the giver to its base priority and to the ready list of that priority; a drop is reported exactly when its priority went down; the ready lists stay in step |
| `InheritanceKernel.MutexKernel.PriorityDisinheritAfterTimeout` | FreeRTOS/Source/tasks.c:6847-6960 | a holder of one mutex comes down to the higher of its base priority and the most urgent remaining waiter, on the matching ready list |
| `InheritanceKernel.AddMatches` | FreeRTOS/Source/tasks.c:285-291 | appending a task to the ready list of a priority keeps the lists and the state items telling the same story, with uxTopReadyPriority bounding them |
| `InheritanceKernel.LeaveMatches` | FreeRTOS/Source/list.c:217-247 | so does removing it |
| `InheritanceKernel.MutexKernel.Reprioritise` | FreeRTOS/Source/tasks.c:6673-6700 | a change of priority moves a ready task, and only a ready task, to the list of its new priority |
| `InheritanceKernel.MutexKernel.TakeMutex` | FreeRTOS/Source/queue.c:1696-1717 | performs the take step, keeps the ready lists and the books, and keeps the inversion bound unless it overtakes a more urgent parked task |
| `InheritanceKernel.MutexKernel.ParkOnMutex` | FreeRTOS/Source/queue.c:1785-1817 | performs the park step, also for a caller that holds other mutexes, keeps the ready lists and the books, and keeps the inversion bound if the caller holds none |
| `InheritanceKernel.MutexKernel.GiveMutex` | FreeRTOS/Source/queue.c:1041-1074 | performs the give step with wake-up and yield decision, keeps the ready lists and the books, and in the setting of the bound keeps the bound |
| `InheritanceKernel.MutexKernel.AbandonMutex` | FreeRTOS/Source/queue.c:1832-1874 | performs the clean-up after a timed out take, keeps the ready lists and the books, and in the setting of the bound keeps the bound |
| `InheritanceKernel.MutexKernel.PrioritySet` | FreeRTOS/Source/tasks.c:2807-3015 | performs the priority change: the base priority is the new one, the used one too if no mutex is held, the task is on the ready list of its used priority, the running task stays unoutranked or is to yield; keeps the ready lists and the books |
| `QueueBlocking.StepKeepsInv` | FreeRTOS/Source/queue.c:949-1335 | every task step and every interrupt step keeps: beside a parked receiver each item is matched by a woken receiver or by the transmit lock count (or that count has reached its cap), dually for senders, and whatever an interrupt does between the empty check and parking is counted by the lock |
| `QueueBlocking.RunKeepsInv` | FreeRTOS/Source/queue.c:1509-1656 | the same over every interleaving of tasks and interrupts |
| `QueueBlocking.NoLostWakeup` | FreeRTOS/Source/queue.c:2497-2614 | no lost wake-up: in every run, once the queue is unlocked, items beside a parked receiver and free slots beside a parked sender all belong to tasks that are awake and about to retry |
| `QueueBlocking.WakeReceiversWakes` | FreeRTOS/Source/queue.c:2505-2583 | the transmit half of unlocking wakes one receiver per counted item until nobody waits |
| `QueueBlocking.WakeSendersWakes` | FreeRTOS/Source/queue.c:2585-2613 | the receive half of unlocking wakes one sender per counted removal until nobody waits |
| `QueueBlocking.LockCountsFit` | FreeRTOS/Source/queue.c:258-300 | with at most 127 tasks the lock counts stay in the int8_t range in every run, so the asserts of the increment macros cannot fire |
| `QueueBlocking.LockCountOverflows` | FreeRTOS/Source/queue.c:277-300 | with more than 127 tasks a run exists that brings the transmit lock count of an empty locked queue to 127 below the cap, so that the next interrupt send is possible and raises it to 128 |
| `QueueCalls.ParksIff` | FreeRTOS/Source/queue.c:1509-1656 | a patient call that nothing disturbs parks exactly if there is nothing to read (no room to send): it ends asleep, at its place in the wait list, with the queue unlocked and its items untouched; otherwise it is served at once |
| `QueueCalls.ExpiredCallReturns` | FreeRTOS/Source/queue.c:1631-1656 | a parked call whose time is up while there is still nothing for it leaves its wait list, tries once more and returns, a reader after a last look, with the queue as it was |
| `QueueCalls.EndsIff` | FreeRTOS/Source/queue.c:1509-1656 | a call ends exactly when it is served, when it finds nothing and does not wait, or when its time is up: a sender's at once, a reader's if the queue is still empty |
| `QueueCalls.PatientCallsAreServed` | FreeRTOS/Source/queue.c:1509-1656 | over every interleaving, the calls begun by a task that waits and whose time is never up are those served, each once, and the one still going on |
| `QueueCalls.ItemsConserved` | FreeRTOS/Source/queue.c:949-2136 | over every interleaving of tasks and interrupts, items received and items left are those that were there and those sent, and never more than the length are left |
| `QueueCalls.StepWakesReceivers` | FreeRTOS/Source/queue.c:2505-2583 | receivers leave their wait list in order, one, at once or when the queue is unlocked, for one item posted |
| `QueueCalls.StepWakesSenders` | FreeRTOS/Source/queue.c:2585-2613 | senders leave theirs in order, one for one slot freed |
| `QueueCalls.NoneWokenForNothing` | FreeRTOS/Source/queue.c:2497-2614 | over every interleaving no more receivers are woken than items were posted and no more senders than slots were freed, those still counted by the lock included |
| `BlockingQueue.WaitQueue.UnblockReceiver` | FreeRTOS/Source/queue.c:2556-2575 | takes the head of the receive list and wakes it, as the step machine does |
| `BlockingQueue.WaitQueue.UnblockSender` | FreeRTOS/Source/queue.c:2592-2608 | takes the head of the send list and wakes it, as the step machine does |
| `BlockingQueue.WaitQueue.SendFromISR` | FreeRTOS/Source/queue.c:1167-1335 | performs the interrupt send, overwriting included: passes exactly if there is room or it overwrites, wakes when unlocked, counts when locked up to the number of tasks, and keeps the invariant |
| `BlockingQueue.WaitQueue.ReceiveFromISR` | FreeRTOS/Source/queue.c:2039-2136 | refines the interrupt receive, dually |
| `BlockingQueue.WaitQueue.LockQueue` | FreeRTOS/Source/queue.c:258-272 | refines the lock step: counts already running are kept |
| `BlockingQueue.WaitQueue.UnblockReceivers` | FreeRTOS/Source/queue.c:2507-2579 | the loop over the transmit count equals the recursive specification |
| `BlockingQueue.WaitQueue.UnblockSenders` | FreeRTOS/Source/queue.c:2588-2609 | the loop over the receive count equals the recursive specification |
| `BlockingQueue.WaitQueue.ReleaseTx` | FreeRTOS/Source/queue.c:2505-2583 | refines the first critical section of prvUnlockQueue |
| `BlockingQueue.WaitQueue.ReleaseRx` | FreeRTOS/Source/queue.c:2585-2613 | refines the second critical section of prvUnlockQueue |
| `TickEngine.EmptyAtSwitch` | FreeRTOS/Source/tasks.c:265-277 | the assert of taskSWITCH_DELAYED_LISTS cannot fire: the current delayed list is empty at every switch |
| `TickEngine.TickInv` | FreeRTOS/Source/tasks.c:4736-4867 | a tick keeps both lists sorted, every listed wake time ahead of the tick count and not before the cached unblock time, and advances unbounded time by one |
| `TickEngine.BlockInv` | FreeRTOS/Source/tasks.c:8590-8706 | blocking the running task keeps the same invariant |
| `TickEngine.ReleaseInv` | FreeRTOS/Source/tasks.c:6526-6544 | releasing a task early keeps it, whether or not the cache is recomputed, takes the task off both delayed lists and the indefinite one, and readies it |
| `TickEngine.JumpInv` | FreeRTOS/Source/tasks.c:4570-4607 | a tickless jump that does not wrap keeps the invariant, passes nobody's wake time, and tick count plus pended ticks grow by exactly the jump |
| `TickEngine.SwitchDue` | FreeRTOS/Source/tasks.c:265-277 | switching the lists at a wrap moves nobody on the timeline |
| `TickEngine.TickWakesExactly` | FreeRTOS/Source/tasks.c:4772-4834 | one tick readies exactly the tasks due at the new unbounded time, in list order, and moves no other task on the timeline |
| `TickEngine.RunInv` | FreeRTOS/Source/tasks.c:8656-8663 | in every run of ticks, sleeps, releases, suspensions, pended ticks, resumes and non-wrapping tickless jumps the cached unblock time is not after any listed wake time |
| `TickEngine.NoTickLost` | FreeRTOS/Source/tasks.c:4736-4867 | no tick is lost and none counted twice: over every run the time processed and the ticks still pended grow by the tick interrupts and jumps, suspensions nest, and when the last ends nothing is pended |
| `Wakeups.ExactWakeup` | FreeRTOS/Source/tasks.c:4736-4867 | exact wake-up across wraps: a task that blocks at time T for d ticks, through any such run of other tasks, has been readied exactly once if the time processed has reached T + d and not at all before; until then it is filed under T + d, afterwards it is in no delayed list |
| `Wakeups.NeverWakesByItself` | FreeRTOS/Source/tasks.c:8620-8628 | a task that blocks indefinitely is not readied by time, through any such run |
| `Wakeups.BlockTimes` | FreeRTOS/Source/tasks.c:8590-8706 | blocking files the caller once, at the time of the call plus the block time, and moves nobody else |
| `Wakeups.ReleaseTimes` | FreeRTOS/Source/tasks.c:5434-5447 | a released task is filed nowhere, and nobody else moves |
| `Wakeups.ReleasedOnce` | FreeRTOS/Source/tasks.c:5434-5447 | a sleeping task released by an event has been readied once, is on no list that could ready it again, and is not readied again through any run that does not name it |
| `Wakeups.OneSleepOneReadying` | FreeRTOS/Source/tasks.c:5405-5493 | each sleep, indefinite ones included, readies its task exactly once, at the earlier of its release and its time |
| `Wakeups.PendedOnce` | FreeRTOS/Source/tasks.c:4055-4086 | a task that an interrupt readies while the scheduler is suspended stays pending until the outermost resume, which readies it exactly once |
| `Wakeups.OneSleepOneResume` | FreeRTOS/Source/tasks.c:4055-4086 | the same from the moment the task blocked: one sleep, one readying, at the resume |
| `TickRefinement.GuardIsSound` | FreeRTOS/Source/tasks.c:4776-4811 | the tick guarded by xNextTaskUnblockTime does what an always-scanning tick does |
| `TickRefinement.CacheIsTransparent` | FreeRTOS/Source/tasks.c:4776-4811 | over every run of ticks, sleeps, releases, suspensions, resumes and jumps in which nobody blocks between a jump and the resume: whenever the scheduler is not suspended, tick count, lists and ready order are those of a kernel with no cache that takes a jump of n ticks as n ticks |
| `TickRefinement.ResumeCatchesUp` | FreeRTOS/Source/tasks.c:4022-4168 | the resume after a jump brings the jumping kernel and the one that pended the ticks to the same state |
| `TickEngine.TicksAreSteps` | FreeRTOS/Source/tasks.c:4113-4133 | the replay of pended ticks is a run of ordinary ticks |
| `TickEngine.ResumeInv` | FreeRTOS/Source/tasks.c:4022-4168 | the outermost resume keeps the invariant and replays every pended tick |
| `Tickless.TicklessIff` | FreeRTOS/Source/tasks.c:4570-4607 | on the whole state, xNumOfOverflows included: jumping n ticks and resuming equals pending n ticks and resuming if and only if the jump does not wrap the tick count |
| `Tickless.TicklessListsIff` | FreeRTOS/Source/tasks.c:4570-4607 | on tick count, delayed lists and ready order alone: the two agree if and only if the jump does not wrap or every task still asleep is due by the time one wrap earlier |
| `Tickless.WrappedStepLosesTime` | FreeRTOS/Source/tasks.c:4570-4607 | a jump that wraps loses exactly one wrap of time |
| `Tickless.TicksReach` | FreeRTOS/Source/tasks.c:4109-4133 | n ticks ready exactly the tasks due in them, in order, and move nobody who is due later |
| `Tickless.TicklessCounterexample` | FreeRTOS/Source/tasks.c:4579-4580 | a jump that the assert admits, because it compares wrapped values, after which a sleeping task is on the wrong delayed list |
| `TickKernel.Kernel.ResetNextTaskUnblockTime` | FreeRTOS/Source/tasks.c:6526-6544 | the cache becomes the earliest wake time in the sorted current list, never later than any, and the invariant is kept |
| `TickKernel.Kernel.SwitchDelayedLists` | FreeRTOS/Source/tasks.c:265-277 | with the current list empty, as the assert demands, the exchange leaves the overflow list empty and every task due when it was |
| `TickKernel.Kernel.ReadyExpired` | FreeRTOS/Source/tasks.c:4776-4834 | the scan loop equals its specification |
| `TickKernel.Kernel.IncrementTick` | FreeRTOS/Source/tasks.c:4736-4867 | refines the tick, and pends it while the scheduler is suspended |
| `TickKernel.Kernel.AddToDelayedList` | FreeRTOS/Source/tasks.c:8590-8706 | refines blocking, with the indefinite case, the overflow list and the cache update |
| `TickKernel.Kernel.DrainPending` | FreeRTOS/Source/tasks.c:4055-4086 | the loop over the pending ready list equals its specification |
| `TickKernel.Kernel.ResumeAll` | FreeRTOS/Source/tasks.c:4022-4168 | refines the resume: pending tasks first, then every pended tick |
| `TickKernel.Kernel.ReplayTicks` | FreeRTOS/Source/tasks.c:4109-4133 | the replay loop performs exactly the pended number of ticks |
| `TickKernel.Kernel.StepTick` | FreeRTOS/Source/tasks.c:4570-4607 | performs the tickless jump, with its last tick pended when it ends on the unblock time, and keeps the invariant if it does not wrap |
| `TimeOuts.CheckIff` | FreeRTOS/Source/tasks.c:5598-5664 | for a finite wait a check reports expiry exactly when unbounded elapsed time has reached the wait, if and only if it is not the aliased case of two or more wraps |
| `TimeOuts.AliasedCheck` | FreeRTOS/Source/tasks.c:5636-5653 | a concrete aliased check |
| `TimeOuts.RetryLoopExact` | FreeRTOS/Source/tasks.c:5598-5664 | over any retry loop with at most one wrap between checks a timeout is reported exactly when elapsed time reaches the original wait, and until then remaining plus elapsed is that wait |
| `TimeOuts.IndefiniteNeverExpires` | FreeRTOS/Source/tasks.c:5625-5633 | an indefinite wait never times out |
| `TimeOuts.TimeOut.CheckForTimeOut` | FreeRTOS/Source/tasks.c:5598-5664 | the in-place check equals its specification |
| `TimeOuts.RetryUntilExpired` | FreeRTOS/Source/tasks.c:5570-5664 | the retry loop stops at the first moment at or past the deadline |
| `TimeOuts.DelayUntilIff` | FreeRTOS/Source/tasks.c:2397-2432 | xTaskDelayUntil blocks exactly when the increment exceeds the gap modulo one wrap, hence rightly if and only if the gap is below a wrap or the wrapped gap has used up the increment |
| `TimeOuts.LateDelayUntil` | FreeRTOS/Source/tasks.c:2397-2432 | a call a wrap and five ticks late that blocks although its wake time is past |
| `TimeOuts.DelayUntilBlockTime` | FreeRTOS/Source/tasks.c:2433-2440 | the block time passed on is what is left until the wake time |
| `TimeOuts.PeriodExact` | FreeRTOS/Source/tasks.c:2377-2462 | k calls put the wake time at start + k * increment, and each call blocks exactly when that time is still ahead |
| `TimeOuts.PeriodicWakeup` | FreeRTOS/Source/tasks.c:2377-2462 | a periodic task that blocks becomes ready exactly when time reaches previous + increment, through the tick engine |
| `RoundRobin.FullRound` | FreeRTOS/Source/tasks.c:204-207 | as many selections as there are items serve the list once around, starting behind pxIndex |
| `RoundRobin.EachOnce` | FreeRTOS/Source/tasks.c:206-207 | such a round serves every item exactly once |
| `RoundRobin.NewcomerServedLast` | FreeRTOS/Source/list.c:104-136 | after insert-end every other item except the one under pxIndex is served before the new one |
| `RoundRobin.RemoveKeepsTurns` | FreeRTOS/Source/list.c:217-247 | removing an item leaves the order of service of the others unchanged |
| `IntrusiveList.List.constructor` | FreeRTOS/Source/list.c:49-85 | an empty ring |
| `IntrusiveList.SortedInsertion` | FreeRTOS/Source/list.c:153-204 | sorted insertion keeps the order and is stable, also for portMAX_DELAY |
| `IntrusiveList.LinkBefore` | FreeRTOS/Source/list.c:121-128 | the four pointer writes splice the item into the ring before pxIndex |
| `IntrusiveList.LinkAfter` | FreeRTOS/Source/list.c:201-204 | the four pointer writes splice the item into the ring behind the iterator |
| `IntrusiveList.Unlink` | FreeRTOS/Source/list.c:225-226 | the two pointer writes bypass the item |
| `IntrusiveList.List.InsertEnd` | FreeRTOS/Source/list.c:104-136 | the ring stays well formed and equals the sequence with the item inserted at the place pxIndex dictates; containers and count agree |
| `IntrusiveList.List.Insert` | FreeRTOS/Source/list.c:139-213 | the ring stays well formed, the item stands behind all items of equal or smaller value, pxIndex does not move, and a sorted list stays sorted |
| `IntrusiveList.List.FindSlot` | FreeRTOS/Source/list.c:161-199 | the search loop terminates at the end marker at the latest and finds the stable slot |
| `SortedList.InsertSorted` | FreeRTOS/Source/list.c:153-204 | on sequences: sorted insertion keeps the order and adds exactly the new item |
| `SortedList.InsertDistinct` | FreeRTOS/Source/list.c:139-213 | and keeps owners distinct |
| `SortedList.DropSorted` | FreeRTOS/Source/list.c:217-247 | removal keeps the order |
| `IntrusiveList.InsertionAgrees` | FreeRTOS/Source/list.c:153-204 | insertion into the ring is that insertion on sequences, which the delayed lists and the timer lists use |
| `IntrusiveList.List.Remove` | FreeRTOS/Source/list.c:217-247 | the ring stays well formed and equals the sequence without the item; pxIndex steps back if it was on it; the new length is returned |
| `IntrusiveList.List.Next` | FreeRTOS/Source/tasks.c:204-207 | advances pxIndex past the end marker and returns the item under it |
| `ReadyLists.StepKeepsInv` | FreeRTOS/Source/tasks.c:184-190 | adding, removing and selecting keep every list above uxTopReadyPriority empty |
| `ReadyLists.RunPicksHighest` | FreeRTOS/Source/tasks.c:195-208 | in every run a context switch picks a ready task of the greatest ready priority |
| `ReadyLists.FairShare` | FreeRTOS/Source/tasks.c:204-208 | as many selections as there are tasks of that priority pick each exactly once |
| `ReadyLists.ListsHoldTheReady` | FreeRTOS/Source/tasks.c:285-291 | over every run each ready list holds what has been added to it and not removed, each as often; context switches move nobody |
| `ReadyLists.Scheduler.AddTaskToReadyList` | FreeRTOS/Source/tasks.c:285-291 | records the priority and appends the task |
| `ReadyLists.Scheduler.SelectHighestPriorityTask` | FreeRTOS/Source/tasks.c:194-210 | the search loop terminates without passing priority zero and selects the specified task |
| `SmpSelection.SomeIdleIsEligible` | FreeRTOS/Source/tasks.c:1142-1156 | pigeonhole: with one unrestricted ready idle task per core some idle task can always run on the core |
| `SmpSelection.RotatedOk` | FreeRTOS/Source/tasks.c:1033-1039 | moving the running task to the end of its ready list keeps the invariant |
| `SmpSelection.DispatchedOk` | FreeRTOS/Source/tasks.c:1087-1115 | giving the core to an eligible task keeps: no task current on two cores, run states agreeing with the current tasks |
| `SmpSelection.SelectionIsHighest` | FreeRTOS/Source/tasks.c:1006-1156 | a selection keeps the invariant and picks a ready task of the highest priority among those allowed on the core and not running elsewhere |
| `SmpSelection.YieldedOk` | FreeRTOS/Source/tasks.c:350-366 | asking a core to yield keeps the invariant |
| `SmpSelection.StepKeepsInv` | FreeRTOS/Source/tasks.c:350-366 | context switches, which answer or postpone a pending yield, yield requests, readying, blocking, creation and affinity changes keep the invariant |
| `SmpSelection.RunKeepsInv` | FreeRTOS/Source/tasks.c:1006-1156 | the same over every run |
| `SmpSelection.NeverOnTwoCores` | FreeRTOS/Source/tasks.c:1087-1116 | in every run no task is current on two cores |
| `SmpRuns.SwitchPicks` | FreeRTOS/Source/tasks.c:1006-1156 | a context switch gives the core a ready task whose affinity allows it and that no other core runs, of the highest priority among those, and the task that was running only if it is the only one of that priority; other cores keep theirs |
| `SmpRuns.EvictedIsResettled` | FreeRTOS/Source/tasks.c:1181-1268 | a ready task evicted from its core has a core asked to yield exactly if some core it may run on runs a less urgent task that could make way, and then one with the least urgent such task; idle tasks make way for all others |
| `SmpRuns.ReadyIff` | FreeRTOS/Source/tasks.c:285-291 | a task becomes ready by being added to its ready list and stops being so by blocking, and in no other way |
| `SmpRuns.YieldIsAsked` | FreeRTOS/Source/tasks.c:350-366 | asking a core to yield leaves a yield outstanding on it, whichever core asks |
| `SmpRuns.YieldStays` | FreeRTOS/Source/tasks.c:5205-5303 | a postponed switch leaves a yield outstanding and a context switch answers the pending flag; other steps leave a request standing |
| `SmpRuns.AskedUntilSwitch` | FreeRTOS/Source/tasks.c:350-366 | over every run a core that has been asked to yield stays asked until it switches context |
| `SmpRuns.RecordIff` | FreeRTOS/Source/tasks.c:3021-3073 | priorities, affinities and idle flags are those a task was created with or given last |
| `SmpKernel.SmpScheduler.MoveCurrentToEnd` | FreeRTOS/Source/tasks.c:1033-1039 | moves the running task behind the others of its priority |
| `SmpKernel.SmpScheduler.TrySchedule` | FreeRTOS/Source/tasks.c:1087-1120 | schedules a candidate exactly if it is eligible; the assert on its run state holds |
| `SmpKernel.SmpScheduler.SearchList` | FreeRTOS/Source/tasks.c:1055-1128 | the inner loop takes the first eligible task of one list, or shows there is none |
| `SmpKernel.SmpScheduler.SearchDown` | FreeRTOS/Source/tasks.c:1041-1156 | the outer loop always ends with a task scheduled, takes the first eligible one from the top down, and lowers uxTopReadyPriority to the highest non-empty list |
| `SmpKernel.SmpScheduler.RequestYield` | FreeRTOS/Source/tasks.c:350-366 | sets the pending flag on the own core and the run state on another |
| `SmpKernel.SmpScheduler.FindCore` | FreeRTOS/Source/tasks.c:1190-1259 | finds the core with the lowest-priority task that the evicted task may preempt, or shows there is none |
| `SmpKernel.SmpScheduler.ResettleEvicted` | FreeRTOS/Source/tasks.c:1181-1268 | a ready task evicted from the core has exactly such a core asked to yield; it is never the core itself |
| `SmpKernel.SmpScheduler.SelectHighestPriorityTask` | FreeRTOS/Source/tasks.c:1006-1269 | the whole selector does what the selection relation says and keeps the invariant |
| `SmpKernel.SmpScheduler.SwitchContext` | FreeRTOS/Source/tasks.c:5205-5303 | clears the pending yield and selects, or with the scheduler suspended only records the yield, and keeps the invariant |
| `QueueStorage.AddedAtBack` | FreeRTOS/Source/queue.c:2421-2434 | writing at the write slot adds an item behind the others, for every wrap position |
| `QueueStorage.AddedAtFront` | FreeRTOS/Source/queue.c:2435-2447 | writing at the read slot adds an item before the others, for every wrap position |
| `QueueStorage.Storage.constructor` | FreeRTOS/Source/queue.c:303-323 | an empty queue: write slot = read slot + 1 |
| `QueueStorage.Storage.CopyDataToQueue` | FreeRTOS/Source/queue.c:2393-2473 | send to back, send to front and overwrite change the decoded contents as a bounded deque, keeping write slot = read slot + 1 + count around the array |
| `QueueStorage.Storage.TakeFront` | FreeRTOS/Source/queue.c:2476-2494 | hands out the front item and leaves the rest |
| `QueueStorage.Storage.PeekFront` | FreeRTOS/Source/queue.c:1914-1925 | hands out the front item and leaves everything as it was |
| `QueueStorage.Storage.PerformAll` | FreeRTOS/Source/queue.c:2393-2494 | for every sequence of operations contents and replies, whether each send passed included, are those of the abstract deque |
| `QueueStorage.DequeIsBounded` | FreeRTOS/Source/queue.c:2393-2473 | that deque never exceeds the queue length |
| `QueueStorage.FirstInFirstOut` | FreeRTOS/Source/queue.c:2393-2494 | over any run of sends to the back, receives and peeks, items handed out and items left are, in order, those that were there and those sent |
| `QueueStorage.RoomIff` | FreeRTOS/Source/queue.c:949-1040 | a send passes exactly if fewer than the length have been sent and not handed out; a receive or peek finds an item exactly if any has |
| `QueueStorage.FrontIsNext` | FreeRTOS/Source/queue.c:2435-2473 | an item sent to the front, or overwriting, is what the next receive or peek hands out, whatever is sent to the back in between; a refused send changes nothing |
| `TimerDaemon.DecisionIsExact` | FreeRTOS/Source/timers.c:890-931 | for all command times c <= n < c + 2^32 and periods, insertion says process now exactly when c + p <= n, else names the list of the epoch in which the timer is due |
| `TimerDaemon.EpochOf` | FreeRTOS/Source/timers.c:867-887 | samples less than one wrap apart detect a wrap exactly |
| `TimerDaemon.CallbacksExact` | FreeRTOS/Source/timers.c:778-838 | whenever nothing is due, an auto-reload timer started at c has run its callback exactly floor((n - c) / p) times and a one-shot timer the minimum of that and one |
| `TimerDaemon.NeverOversleeps` | FreeRTOS/Source/timers.c:801-817 | the block time ends at the next expiry or at the wrap, never past an expiry |
| `TimerDaemon.BlocksUntil` | FreeRTOS/Source/timers.c:801-817 | the block time ends exactly when the head of the current list is due or, that list being empty, when the tick count wraps; at the tick of a wrap it is nought |
| `TimerDaemon.NothingDueBefore` | FreeRTOS/Source/timers.c:840-864 | no active timer is due before the head of the current list, or before the wrap if that list is empty |
| `TimerDaemon.SomeActive` | FreeRTOS/Source/timers.c:809-816 | both lists are empty exactly when no timer is active |
| `TimerDaemon.Popped` | FreeRTOS/Source/timers.c:720-725 | taking the head leaves the lists and the other records consistent |
| `TimerDaemon.Lifted` | FreeRTOS/Source/timers.c:975-984 | so does taking a commanded timer off its list |
| `TimerDaemon.Landed` | FreeRTOS/Source/timers.c:903-927 | listing a timer by its next expiry makes the list of that epoch hold it, sorted, with the ACTIVE bit matching membership |
| `TimerDaemon.Exchanged` | FreeRTOS/Source/timers.c:1108-1110 | after the exchange the current list is that of the new epoch |
| `TimerDaemon.Daemon.InsertTimerInActiveList` | FreeRTOS/Source/timers.c:890-931 | reports process-now exactly when the timer is due, else adds it to the list of its epoch |
| `TimerDaemon.Daemon.ReloadTimer` | FreeRTOS/Source/timers.c:695-711 | the reload loop terminates, runs the callback once per period already passed and lists the timer for the first expiry after the sampled time |
| `TimerDaemon.Daemon.ProcessExpiredTimer` | FreeRTOS/Source/timers.c:714-741 | processing the head keeps the epoch invariant, every run of a callback is counted, and no timer outside the lists runs |
| `TimerDaemon.Daemon.SwitchTimerLists` | FreeRTOS/Source/timers.c:1089-1111 | every timer due in the old epoch has run, as of its last tick; the loop terminates; the lists are exchanged |
| `TimerDaemon.Daemon.SampleTimeNow` | FreeRTOS/Source/timers.c:867-887 | after a sample the lists are those of the sampled epoch and the next one |
| `TimerDaemon.Daemon.GetNextExpireTime` | FreeRTOS/Source/timers.c:840-864 | the reported time, or the next wrap if the current list is empty, is at or before every active timer's expiry |
| `TimerDaemon.Daemon.ProcessTimerOrBlockTask` | FreeRTOS/Source/timers.c:778-838 | keeps the invariant; a timer that is due by now has run; a call that neither blocks nor finds the tick count wrapped has run one, and left one fewer overdue; whenever it blocks all callback counts are exact, nothing is due, and it waits indefinitely exactly when no timer is active |
| `TimerDaemon.Daemon.StartTimer` | FreeRTOS/Source/timers.c:997-1026 | a start issued at c, processed however late within a wrap, counts from c |
| `TimerDaemon.Daemon.ChangeTimerPeriod` | FreeRTOS/Source/timers.c:1034-1047 | a new period counts from the time of processing |
| `TimerDaemon.Daemon.StopTimer` | FreeRTOS/Source/timers.c:1028-1032 | the timer is inactive, on no list, and no longer counted |
| `TimerDaemon.Daemon.ProcessCommand` | FreeRTOS/Source/timers.c:934-1086 | every command keeps the epoch invariant, counts the named timer's callbacks from nought, changes no other setting, and lets other timers only fire |
| `TimerDaemon.Daemon.CreateTimer` | FreeRTOS/Source/timers.c:417-445 | a new timer is dormant |
| `TimerDaemon.Daemon.Turn` | FreeRTOS/Source/timers.c:744-776 | one wake-up or command changes start, period and callback count of each timer as the event asks |
| `TimerDaemon.FollowsOn` | FreeRTOS/Source/timers.c:934-1086 | the standing orders and the callbacks run since the last command can be read off the events alone |
| `TimerDaemon.FollowedIsServed` | FreeRTOS/Source/timers.c:778-838 | records that follow the commands and are exact make every timer exactly served |
| `TimerDaemon.Daemon.TimerTask` | FreeRTOS/Source/timers.c:744-776 | over every run of wake-ups and commands, sampled less than a wrap apart while timers are active: the records follow the commands; whenever the run ends blocked each timer last ordered to start at c with period p has run its callback exactly floor((n - c) / p) times since (a one-shot timer the minimum of that and one) and a stopped timer not at all; and a run that ends with as many wake-ups at one time as there are timers, and two more, does end blocked |
| `TimerDaemon.OneFewer` | FreeRTOS/Source/timers.c:714-741 | serving the head leaves one timer fewer overdue, the timer itself being listed for a time still ahead |
| `TimerDaemon.SettledAtLast` | FreeRTOS/Source/timers.c:744-776 | as many repeated wake-ups as there are timers, and two more, have come to a block |
| `CircularBuffer.SlotAdvance` | FreeRTOS/Source/stream_buffer.c:1510-1519 | adding to an index and subtracting the length once is the slot of the byte so many positions on |
| `CircularBuffer.DistanceIsExact` | FreeRTOS/Source/stream_buffer.c:1569-1587 | the computed count is the distance between the positions |
| `CircularBuffer.SpaceIsExact` | FreeRTOS/Source/stream_buffer.c:769-783 | the computed space is the length minus one minus that distance |
| `ByteStream.IndicesFollow` | FreeRTOS/Source/stream_buffer.c:1479-1566 | head and tail stepped on by the code follow the byte positions of the stream |
| `ByteStream.WritesMissUnread` | FreeRTOS/Source/stream_buffer.c:1479-1522 | a permitted write never touches a slot that holds an unread byte |
| `ByteStream.AgreedSpaceIsExact` | FreeRTOS/Source/stream_buffer.c:764-783 | when the two tail readings agree the space is exact, the reader moving between them notwithstanding |
| `ByteStream.StepKeepsInv` | FreeRTOS/Source/stream_buffer.c:754-788 | every step of writer and reader keeps: unread bytes intact, received bytes a prefix of accepted ones, stale space and count safe lower bounds, bytes copied out equal to bytes accepted |
| `ByteStream.RunKeepsInv` | FreeRTOS/Source/stream_buffer.c:1003-1053 | the same over every interleaving |
| `ByteStream.ReceivedIsPrefixOfAccepted` | FreeRTOS/Source/stream_buffer.c:1279-1331 | in every interleaving from an empty buffer the bytes received are a prefix of the bytes accepted, and no more than the length minus one are in between |
| `StreamProgress.Measures` | FreeRTOS/Source/stream_buffer.c:754-788 | undisturbed, the two tail readings agree and the writer knows exactly the room there is |
| `StreamProgress.StartsOver` | FreeRTOS/Source/stream_buffer.c:764-783 | a writer that finds the tail moved between its readings starts over, having changed nothing |
| `StreamProgress.WriterAlone` | FreeRTOS/Source/stream_buffer.c:943-1053 | undisturbed, a writer gets accepted all of whatever fits |
| `StreamProgress.ReaderAlone` | FreeRTOS/Source/stream_buffer.c:1216-1331 | undisturbed, a reader receives the next bytes, as many as it wants of those there |
| `MessageBuffer.LengthRoundTrip` | FreeRTOS/Source/stream_buffer.c:1016-1027 | the stored length prefix reads back, for every length below 2^32 |
| `MessageBuffer.FramedSize` | FreeRTOS/Source/stream_buffer.c:1198-1205 | the byte count of a message buffer is zero or more than the prefix size |
| `MessageBuffer.FramingRoundTrip` | FreeRTOS/Source/stream_buffer.c:1279-1331 | reading message after message off the stored bytes gives back the messages |
| `MessageBuffer.WrittenAppends` | FreeRTOS/Source/stream_buffer.c:1479-1522 | a write that fits leaves unread bytes alone and, once published, is appended to them |
| `MessageBuffer.FrameWritten` | FreeRTOS/Source/stream_buffer.c:1003-1053 | prefix and body written one behind the other and published together add one message, for every wrap position |
| `MessageBuffer.FrameRead` | FreeRTOS/Source/stream_buffer.c:1279-1331 | reading a prefix and then as many bytes as it says takes off one message, for every wrap position |
| `MessageBuffer.StreamBuffer.BytesInBuffer` | FreeRTOS/Source/stream_buffer.c:1569-1587 | the number of unread bytes |
| `MessageBuffer.StreamBuffer.SpacesAvailable` | FreeRTOS/Source/stream_buffer.c:754-788 | space plus unread bytes is the length minus one |
| `MessageBuffer.StreamBuffer.WriteBytesToBuffer` | FreeRTOS/Source/stream_buffer.c:1479-1522 | the two block copies write exactly the slots from the given index on and change no other |
| `MessageBuffer.StreamBuffer.ReadBytesFromBuffer` | FreeRTOS/Source/stream_buffer.c:1525-1566 | the two block copies read exactly those slots |
| `MessageBuffer.StreamBuffer.WriteMessageToBuffer` | FreeRTOS/Source/stream_buffer.c:1003-1053 | given any safe space a stream takes what fits, a message buffer all or nothing, an empty message nothing |
| `MessageBuffer.StreamBuffer.ReadMessageFromBuffer` | FreeRTOS/Source/stream_buffer.c:1279-1331 | given any safe count, out of date or not, a stream yields the first bytes, a message buffer its first message whole or, if the receive buffer is too small, nothing and consumes nothing |
| `MessageBuffer.StreamBuffer.NextMessageLength` | FreeRTOS/Source/stream_buffer.c:1172-1213 | the length of the first message or zero; the assert on the byte count holds |
| `MessageBuffer.StreamBuffer.Send` | FreeRTOS/Source/stream_buffer.c:943-1000 | accepted messages join the queue of messages, at the end |
| `MessageBuffer.StreamBuffer.Receive` | FreeRTOS/Source/stream_buffer.c:1216-1276 | messages leave it one per call, whole and in order |
| `MessageStream.NextIsWhole` | FreeRTOS/Source/stream_buffer.c:1279-1331 | a count the reader has read, however old, ends at the end of a message, so the next message stands whole within it |
| `MessageStream.TakesTheNext` | FreeRTOS/Source/stream_buffer.c:1279-1331 | a reader that finds anything gets the next message whole if its buffer can hold it and otherwise nothing; the count is zero or more than the prefix size |
| `MessageStream.ActionKeeps` | FreeRTOS/Source/stream_buffer.c:1003-1053 | every byte step, send and take keeps the framing |
| `MessageStream.MessagesArriveWhole` | FreeRTOS/Source/stream_buffer.c:1003-1331 | in every interleaving of writer and reader, byte by byte, the messages received are the first messages sent, whole and in order |
| `MessageStream.EmptyHanded` | FreeRTOS/Source/stream_buffer.c:1279-1331 | a reader that finds nothing or has too small a buffer, and a writer without room, leave everything as it was |
| `StreamProgress.SendsAlone` | FreeRTOS/Source/stream_buffer.c:1003-1053 | undisturbed, a writer sends any message for which there is room |
| `StreamProgress.TakesAlone` | FreeRTOS/Source/stream_buffer.c:1279-1331 | undisturbed, a reader whose buffer can hold it takes the next message |
| `StreamProgress.MessageArrives` | FreeRTOS/Source/stream_buffer.c:1003-1331 | a message sent into an empty buffer that can hold it arrives |
| `EventGroup.PackingRoundTrip` | FreeRTOS/Source/event_groups.c:367-394 | control bits and bits waited for share an item value without disturbing each other, and a waiting item never looks released |
| `EventGroup.ClearingSatisfiesNobody` | FreeRTOS/Source/event_groups.c:778-812 | a wait condition met by fewer bits is met by more |
| `EventGroup.ClearsTheUnion` | FreeRTOS/Source/event_groups.c:609-637 | SetBits clears a bit exactly if some released waiter asked for it on exit |
| `EventGroup.ReleasesExactly` | FreeRTOS/Source/event_groups.c:574-633 | SetBits releases exactly the waiters satisfied by the old bits and the new together and hands each that value, before clearing |
| `EventGroup.ReleasedCallerSeesItsBits` | FreeRTOS/Source/event_groups.c:417-458 | a released caller returns the value that released it and clears nothing further |
| `EventGroup.WaitReturns` | FreeRTOS/Source/event_groups.c:336-404 | a wait blocks exactly if it is patient and unsatisfied; otherwise it returns the bits, and a satisfied clear-on-exit call takes away exactly the bits it waited for |
| `EventGroup.SetBitsLeaves` | FreeRTOS/Source/event_groups.c:547-647 | after SetBits a bit is set exactly if it was or was being set and no released waiter asked for it to be cleared |
| `EventGroup.SyncReturns` | FreeRTOS/Source/event_groups.c:185-309 | a Sync call blocks exactly if it is patient and the bits are not complete; if complete it returns them all and takes them away; an impatient one returns and leaves what the waiters it released have not had cleared |
| `EventGroup.TimedOutCaller` | FreeRTOS/Source/event_groups.c:421-450 | a caller that timed out returns the current bits and clears what it waited for only if that is met by then |
| `EventGroup.SetBitsKeepsInv` | FreeRTOS/Source/event_groups.c:547-647 | after SetBits nobody left waiting is satisfied |
| `EventGroup.StepKeepsInv` | FreeRTOS/Source/event_groups.c:185-469 | set, clear, wait, sync, timeout and return each keep: no blocked waiter is satisfied by the bits |
| `EventGroup.RunKeepsInv` | FreeRTOS/Source/event_groups.c:185-647 | the same over every run |
| `EventGroup.LastArrivalReleasesAll` | FreeRTOS/Source/event_groups.c:205-247 | the Sync call that completes the bits returns them all, releases every participant with all bits seen and clears them; one that does not releases nobody waiting for all |
| `EventGroup.EarlyArrivalsWait` | FreeRTOS/Source/event_groups.c:205-247 | until the bits are complete the arrivals queue up in order and the bits accumulate |
| `EventGroup.Rendezvous` | FreeRTOS/Source/event_groups.c:185-309 | a whole rendezvous, for any arrivals in any order: everybody returns with all the bits, nobody is left waiting, and the bits are clear for the next round |
| `EventRuns.ConditionMeans` | FreeRTOS/Source/event_groups.c:778-812 | the wait test says whether all, or any, of the bits are set |
| `EventRuns.BitIff` | FreeRTOS/Source/event_groups.c:185-647 | after any operation a bit is set exactly if it was set or brought and neither a clear, a satisfied clear-on-exit call, a completed Sync nor a released waiter takes it away |
| `EventRuns.BlockedIff` | FreeRTOS/Source/event_groups.c:185-647 | a task is blocked from the patient call that finds its bits missing until bits that meet its condition are set or its time is up |
| `EventRuns.LapsedCallerReturns` | FreeRTOS/Source/event_groups.c:421-450 | a blocked caller can run out of time, and then runs on and returns the bits as they are, no longer blocked |
| `EventRuns.OutcomeIff` | FreeRTOS/Source/event_groups.c:406-459 | a task whose wait has ended has its outcome, the bits that released it or its own item, until it runs on |
| `EventRuns.BlockedUntilFreed` | FreeRTOS/Source/event_groups.c:312-470 | the same over every run |
| `EventFlags.Matches` | FreeRTOS/Source/event_groups.c:584-607 | the match test on the stored item value is the wait condition |
| `EventFlags.EventFlagGroup.Visit` | FreeRTOS/Source/event_groups.c:577-633 | one turn of the walk releases and unlinks a satisfied waiter and passes over another |
| `EventFlags.EventFlagGroup.SetEventBits` | FreeRTOS/Source/event_groups.c:547-647 | the walk that removes while it goes equals the set-wise specification |
| `EventFlags.EventFlagGroup.WaitForBits` | FreeRTOS/Source/event_groups.c:312-404 | refines the wait, up to blocking |
| `EventFlags.EventFlagGroup.Synchronise` | FreeRTOS/Source/event_groups.c:185-248 | refines the rendezvous call, up to blocking |
| `EventFlags.EventFlagGroup.FinishWait` | FreeRTOS/Source/event_groups.c:406-459 | refines what a caller does once it is no longer blocked |
| `EventFlags.EventFlagGroup.ClearEventBits` | FreeRTOS/Source/event_groups.c:472-500 | the bits named are clear afterwards and no others, the old value is returned, nobody is released and nobody blocked becomes satisfied |
| `Notifications.StepKeepsSound` | FreeRTOS/Source/tasks.c:7702-7911 | every step keeps: a task marked waiting has its event item on no list, one notified since is runnable or pended, the pending ready list holds each event item at most once and is empty unless the scheduler is suspended |
| `Notifications.RunKeepsSound` | FreeRTOS/Source/tasks.c:7918-8345 | the same over every interleaving of tasks and interrupts |
| `Notifications.NoLostNotification` | FreeRTOS/Source/tasks.c:7719-7756 | in every reachable state a waiting task that has been notified is on the pending ready list, and with the scheduler running there is none |
| `Notifications.NotificationIsSeen` | FreeRTOS/Source/tasks.c:8133-8156 | a notification that finds its task waiting readies or pends it, also between marking and parking; the assert on the event item holds |
| `Notifications.PendKeeps` | FreeRTOS/Source/tasks.c:8133-8156 | an event item is never put on the pending ready list twice |
| `Notifications.StaysPosted` | FreeRTOS/Source/tasks.c:7769-7792 | a posted notification stays posted until the task's own call ends |
| `Notifications.ResumeIsMatched` | FreeRTOS/Source/tasks.c:4044-4046 | the assert of xTaskResumeAll in a waiting call holds: the scheduler is suspended exactly once, by that call |
| `Notifications.CountIsConserved` | FreeRTOS/Source/tasks.c:7769-7792 | used as a counting or binary semaphore no give is lost: over every run what is taken, one or all at a time, and what is left add up to what was there and what was given, modulo 2^32 |
| `Notifications.NotifiedBeforeParking` | FreeRTOS/Source/tasks.c:7719-7756 | a task notified by an interrupt between marking itself and parking still parks, and its own resume makes it runnable with the notification to collect and nothing left pending |
| `Notifications.PostedMeansRunnable` | FreeRTOS/Source/tasks.c:7702-7911 | from the moment a notification reaches a waiting task, whatever happens, the task is runnable whenever the scheduler is not suspended |
| `Common.BitOrSets` | FreeRTOS/Source/tasks.c:7947-7949 | bitwise or sets a bit exactly if one of its operands has it |
| `Common.BitClearClears` | FreeRTOS/Source/tasks.c:7834-7838 | clearing a mask leaves a bit exactly if the first operand has it and the second has not |
| `NotificationValues.ActDelivers` | FreeRTOS/Source/tasks.c:7945-7985 | bit by bit, set bits join those that were there; an increment adds one; a write replaces the value, unless it may not overwrite and one is still to be collected, and then changes nothing |
| `NotificationValues.NotifyMeans` | FreeRTOS/Source/tasks.c:7918-8213 | a notification, from a task or an interrupt, leaves something to collect with that value and concerns nobody else |
| `NotificationValues.BitIff` | FreeRTOS/Source/tasks.c:7827-7900 | a bit is set after a step exactly if the step sets it, or it was set and neither a write nor the entry or exit mask of the task's own call removes it |
| `NotificationValues.BitsArrive` | FreeRTOS/Source/tasks.c:7804-8213 | over every run of tasks and interrupts a bit is in the value that the next call returns exactly if it has been set and neither a mask nor a write has removed it since |
| `NotificationValues.SetBitStays` | FreeRTOS/Source/tasks.c:7947-7949 | in particular a bit set and not removed since is there |
| `NotificationValues.MailStays` | FreeRTOS/Source/tasks.c:7961-7974 | a value written and not yet collected stays through every run of further writes that may not overwrite, all of which are refused |
| `NotificationValues.BlocksIff` | FreeRTOS/Source/tasks.c:7817-7870 | a waiting call that nothing disturbs blocks exactly if there is nothing to collect, and then ends asleep and marked waiting; otherwise it comes back with its value as it was |
| `NotificationValues.TimedOutCallReturns` | FreeRTOS/Source/tasks.c:7872-7905 | a waiting task whose time is up and that was not notified runs on and returns without anything taken |
| `NotificationValues.FinishMeans` | FreeRTOS/Source/tasks.c:7769-7900 | a call that takes all leaves nothing, one that takes one leaves one fewer, one that was notified leaves what its exit mask spares, one that was not leaves everything |
| `NotificationValues.RunnableIff` | FreeRTOS/Source/tasks.c:7918-8213 | a task is runnable until it blocks, and again when a notification, an event, its timeout or the end of a suspension readies it |
| `NotificationValues.PendingIff` | FreeRTOS/Source/tasks.c:8133-8156 | a task is on the pending ready list exactly from the interrupt that readies it during a suspension to the end of that suspension |
| `NotificationValues.EventListIff` | FreeRTOS/Source/tasks.c:5405-5493 | a task is on an event list from when it blocks on one until an event or its timeout takes it off |
| `NotificationValues.SuspensionsNest` | FreeRTOS/Source/tasks.c:4022-4086 | over every run suspensions nest, and with the last one ended nothing is pended |
| `NotificationKernel.NotifyKernel.NotifyTask` | FreeRTOS/Source/tasks.c:7918-8031 | a waiting task is runnable afterwards, the value is as the action says, bit by bit, the value is as the action says, bit by bit, the invariant is kept, and only a write without overwrite on a pending notification fails |
| `NotificationKernel.NotifyKernel.NotifyTaskFromISR` | FreeRTOS/Source/tasks.c:8038-8213 | a waiting task is runnable afterwards or newly on the pending ready list, the value is as the action says, bit by bit, the value is as the action says, bit by bit, the invariant is kept, and only a write without overwrite on a pending notification fails |
| `NotificationKernel.NotifyKernel.CheckAndMark` | FreeRTOS/Source/tasks.c:7827-7848 | either there is something to collect or the caller is marked waiting with its event item free and the scheduler suspended; the invariant is kept |
| `NotificationKernel.NotifyKernel.LeaveWait` | FreeRTOS/Source/tasks.c:4022-4086 | after the resume of a waiting call everybody who was pended is runnable, the caller if it was notified too, nothing is left pending, and the invariant is kept |
| `NotificationKernel.NotifyKernel.DrainPending` | FreeRTOS/Source/tasks.c:4055-4086 | the loop over the pending ready list readies exactly the tasks on it |
| `NotificationKernel.NotifyKernel.CollectNotification` | FreeRTOS/Source/tasks.c:7769-7792 | the call ends with its caller no longer waiting and the invariant kept, returns the value as it was, and takes nothing from it if it was not notified |

## Left out

- Wait-list order is abstracted: in the bookkeeping of priority inheritance any waiter may head a list, because keys change without re-sorting; for the inversion bound the head is a waiter with the greatest key, and `ParkedKeysFixed` shows why; in the queue protocol a parked task may enter its list at any position.
- TickKernel.Kernel.AddToDelayedList: a block time of zero, which only the timer daemon can ask for at the moment of a wrap, is left out; it wakes at the next tick.
- `xNumOfOverflows` and `xPendedTicks` are kept unbounded.
- Removal of the event item when a tick times a task out is part of the queue and notification models, not of the tick engine.
- Queue storage works on slots, one item each; byte offsets within an item are not modelled.
- Message lengths are stored as four little-endian bytes; the configuration may choose another length type.
- The blocking loops of `xStreamBufferSend` and `xStreamBufferReceive`, trigger levels and batching buffers are left out; the copies they guard are modelled with any safe space and any safe count.
- Event bits and affinity masks are sets of bit numbers, event groups having 24 user bits and the control bits above them.
- The timer model takes callbacks as opaque; reload-mode changes, pended function calls and freeing of timers on deletion are left out, and deletion is that of a statically allocated timer.
- The multi-core model covers several priorities at once with affinity; the single-priority configuration, preemption disabling, priority changes and `prvYieldForTask`'s choice of core are left out (its effect, a yield request, is a step).
- Single-core throughout elsewhere, with preemption and the generic task selection.
- Queue sets, reset of a live queue, recursive mutexes, abort-delay, suspension and deletion of tasks are left out because they change the promises above.
- `croutine.c` repeats the delayed-list and ready-list logic of `tasks.c` and would only add easier copies.
- The port layer, memory allocation, stacks, MPU wrappers, trace hooks, statistics, registries and creation variants are left out.
