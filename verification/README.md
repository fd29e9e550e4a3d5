# Verification of rst: task runners, values and preferences

Dafny models of the concurrent and stateful parts of `rst`, and proofs of what they promise.
`dafny verify dfyconfig.toml` checks everything.

**Task runners.** `ThreadPoolTaskRunner` owns a worker pool (`ThreadPool`, `ThreadPoolProgress`,
`ThreadPoolWork`) and a service thread that releases delayed tasks to it (`ServiceThread`);
`ThreadPoolRunner` and `ThreadPoolRunnerProgress` run the two side by side. `Barrier` is the
countdown latch, and `ApplySync` joins pool and barrier for `ApplyTaskSync`, with
`ApplySyncProgress`, `ApplySyncBound` and `ApplySyncStuck` on when it returns. These are state
machines: each region under a mutex is one atomic step and so is each `notify_one` made outside
it. The state has one program counter per thread. Which sleeper a notification wakes, spurious
wakeups, timeouts, clock readings and the interleaving are arbitrary, so a statement about every
run covers every schedule. `LockedRegions` holds the locked regions as code over fields and proves
that they compute those steps.

**Deadline queues.** `TaskHeap` is the binary heap of (time point, id) with its batch drain,
`ReleaseOrder` the order of releases over whole runs, `PollingTaskRunner` the runner that polls,
`OneShotTimer` the timer over all orders of starts, firings, deliveries and destruction.

**Values.** `Values` has the value type, its order and its equality, `ValueOrder` what the order
says on each type, `ValueEquality` how far the equality is one; `Paths` the dotted paths and the
laws of setting and finding; `ValueTree` the owned, mutable tree, proved to follow those laws;
`Preferences` the defaults and typed access on top, proved to behave as a flat map exactly when no
registered path continues another.

**Strings and hashes.** `Format` is the single-pass formatter into a precomputed buffer,
`HashCombine` the fold of element hashes over words of bits, `HashNumbers` the same steps as
arithmetic. `Tasks`, `Options`, `Collections` and `Powers` are shared vocabulary.

## Where the code does less than it seems to

Each of these is kept as the code has it, shown by a concrete input, and delimited.

- A worker whose keep-alive wait times out leaves without looking at the queue again, and still
  counts towards the thread limit until it erases itself. So a queued task can be left with no
  worker (`ThreadPoolProgress.StrandedTask`); `ThreadPoolProgress.ServedKeptExactly` says which
  steps do it, and without such a step a run gets everything done (`ThreadPoolWork.RunsDry`).
- `ApplyTaskSync` never returns when closures that do not end sit on every thread the pool may
  have, the caller's own among them if it is a worker: one worker that calls it on a pool of one,
  two that both call it on a pool of two, and so on (`ApplySyncStuck.CallersBlockOneAnother`,
  `ApplySyncStuck.StuckCallers`, `ApplySyncProgress.NeverReturns`). Below that limit it returns
  (`ApplySyncProgress.ReturnsWhenNothingIsLeft`), unless a closure comes to hang meanwhile: two
  pushes may count on the same waiting worker and create none, and when the closure it takes first
  hangs, the other waits although the pool may have more threads
  (`ApplySyncStuck.StuckBehindHang`). `ApplySyncProgress.ServedKeptExactly` says which steps of a
  call strand it, timeouts included, and `ApplySyncProgress.ReturnsUnlessStranded` that it returns
  without them.
- A timer started again inside a callback that `FireNow` called does not stay running, although
  `Start` is documented to replace the running one (`OneShotTimer.RestartLost`);
  `OneShotTimer.StartKeptExactly` says which starts are lost.
- `==` on values compares numbers within epsilon, so it is not transitive and does not agree with
  `<` (`ValueEquality.EqualIsNotTransitive`). Over the numbers a double can hold it chains through
  a value exactly when all numbers in it have magnitude at least one
  (`ValueEquality.TransitiveExactly`), and agrees with `<` exactly when all are beyond one
  (`ValueEquality.AgreesExactly`).
- Registering both `a` and `a.b` breaks the types that the preferences are documented to assert
  (`Preferences.ClashBreaksTypes`, `Preferences.TypesKeptExactly`).
- `SetDouble` with a fraction, or a number out of range, is accepted for a preference registered
  as an integer, and `GetInt` then fails its check (`Preferences.FractionTaken`, `Preferences.GettersAccept`).

## Model

| member | source | states |
|---|---|---|
| `Tasks.ExpandAfterTake` | rst/task_runner/thread_pool_task_runner.cc:89-96 | taking one invocation of the front item removes exactly the first element of the sequence of invocations a queue stands for |
| `ThreadPool.PushNeverWraps` | rst/task_runner/thread_pool_task_runner.cc:122-127 | the subtractions that size a push never go below zero, the thread limit is kept, and a push to a pool without threads creates one |
| `ThreadPool.PushSize` | rst/task_runner/thread_pool_task_runner.cc:116-127 | waiting and new workers together are enough for every invocation pushed, or for as many as the thread limit leaves room for, and no more are created than that takes |
| `ThreadPool.EraseAccounting` | rst/task_runner/thread_pool_task_runner.cc:58-64 | an exiting worker finds its own id in the map, and the accounting holds after it has erased itself |
| `ThreadPool.AccountingStep` | rst/task_runner/thread_pool_task_runner.cc:58-83 | every step keeps: the map holds exactly the live workers, at most the limit of them, and the waiting count is the number of workers in the wait loop |
| `ThreadPool.ConservationStep` | rst/task_runner/thread_pool_task_runner.cc:85-120 | every step keeps: the invocations taken, followed by the queue with each item repeated, are the invocations pushed, in push order |
| `ThreadPool.DtorWillBeWokenStep` | rst/task_runner/thread_pool_task_runner.cc:47-67 | every step keeps: while the destructor sleeps some live worker does not, whichever sleeper each notification wakes and however waits time out |
| `ThreadPool.SleepersWillBeWokenStep` | rst/task_runner/thread_pool_task_runner.cc:75-102 | every step keeps: while work is queued and a worker sleeps, a pusher owes a notification or some worker will look at the queue or notify before it sleeps |
| `ThreadPool.InvAlways` | rst/task_runner/thread_pool_task_runner.cc:47-166 | all of the above in every state of every run |
| `ThreadPool.TakesExactly` | rst/task_runner/thread_pool_task_runner.cc:75-99 | a step takes the oldest queued invocation if and only if it is a worker's look at a non-empty queue, not after a timeout and not once the destructor has begun |
| `ThreadPool.NothingTakenInShutdown` | rst/task_runner/thread_pool_task_runner.cc:85-86 | what is queued when the destructor begins is never taken, in any run |
| `ThreadPoolProgress.ShutdownStep` | rst/task_runner/thread_pool_task_runner.cc:47-86 | during shutdown every step but a push and a spurious wakeup of the destructor uses up remaining work |
| `ThreadPoolProgress.ShutdownBounded` | rst/task_runner/thread_pool_task_runner.cc:47-86 | a shutdown without further pushes has boundedly many steps |
| `ThreadPoolProgress.ShutdownProgress` | rst/task_runner/thread_pool_task_runner.cc:47-106 | until the destructor returns some thread can still move: the pool does not deadlock in shutdown |
| `ThreadPoolProgress.ShutdownCompletes` | rst/task_runner/thread_pool_task_runner.cc:47-67 | a shutdown that can go no further has returned from the destructor with an empty thread map |
| `ThreadPoolProgress.ServedKeptExactly` | rst/task_runner/thread_pool_task_runner.cc:79-82 | "queued work has a worker that is not on its way out", nor inside a closure that hangs, survives a step if and only if the step is neither a timeout of the last such worker nor a push to a pool at its thread limit without one |
| `ThreadPoolProgress.PushServesExactly` | rst/task_runner/thread_pool_task_runner.cc:122-135 | after a push queued work has such a worker, whatever was before, if and only if the push is not of that kind |
| `ThreadPoolProgress.StrandsNothing` | rst/task_runner/thread_pool_task_runner.cc:75-135 | below the limit nothing is stranded as long as nobody leaves |
| `ThreadPoolProgress.StrandedTask` | rst/task_runner/thread_pool_task_runner.cc:75-83 | a run that leaves a queued task with no worker and nobody due to notify |
| `ThreadPoolProgress.NoLostWakeup` | rst/task_runner/thread_pool_task_runner.cc:75-139 | in every run without timeouts, queued work has a live worker, and if some worker sleeps meanwhile a notification is still due |
| `ThreadPoolWork.WorkStep` | rst/task_runner/thread_pool_task_runner.cc:47-139 | every step that somebody has to make uses up work, timeouts and a shutdown allowed for |
| `ThreadPoolWork.WorkBounded` | rst/task_runner/thread_pool_task_runner.cc:47-139 | so every run has boundedly many steps besides pushes, spurious wakeups and timeouts, and what they add |
| `ThreadPoolWork.RunsDry` | rst/task_runner/thread_pool_task_runner.cc:75-106 | when a run without a stranding step, timeouts included, can go no further on a living pool, the queue is empty, every worker outside closures that hang sleeps, and every invocation pushed has been taken in push order |
| `ThreadPoolWork.RunsDryWithoutTimeouts` | rst/task_runner/thread_pool_task_runner.cc:75-106 | and so it is over every run from a new pool without timeouts |
| `LockedRegions.DelayedTaskRunner.constructor` | rst/task_runner/thread_pool_task_runner.cc:40-45 | starts the pool's fields in the initial state |
| `LockedRegions.DelayedTaskRunner.CreateThreads` | rst/task_runner/thread_pool_task_runner.cc:122-135 | creates as many threads as there are invocations beyond the waiting workers, within the limit, under new ids |
| `LockedRegions.DelayedTaskRunner.PushTasks` | rst/task_runner/thread_pool_task_runner.cc:109-136 | the counting loop and the thread creation make the pool's push step |
| `LockedRegions.DelayedTaskRunner.PushTask` | rst/task_runner/thread_pool_task_runner.cc:141-163 | the same for one item |
| `LockedRegions.DelayedTaskRunner.Test` | rst/task_runner/thread_pool_task_runner.cc:75-99 | a worker's locked region sleeps, leaves, or takes one invocation as the pool's step does |
| `LockedRegions.DelayedTaskRunner.TestAgain` | rst/task_runner/thread_pool_task_runner.cc:76-99 | the same after a wait, a timeout leaving at once |
| `LockedRegions.DelayedTaskRunner.EraseSelf` | rst/task_runner/thread_pool_task_runner.cc:58-64 | removes the worker's own id and nothing else |
| `ServiceThread.ConservationStep` | rst/task_runner/thread_pool_task_runner.cc:217-251 | every step keeps: each delayed task is in the heap, the batch in hand or the pool, and releases follow the deadlines |
| `ServiceThread.PostReleasedExactly` | rst/task_runner/thread_pool_task_runner.cc:217-249 | a drain after a post releases the posted item if and only if clock at the post plus delay is not later than the clock of the drain, and it carries the posted closure and repeat count |
| `ServiceThread.PostOnRecord` | rst/task_runner/thread_pool_task_runner.cc:237-249 | in every later state of a run a post stands under its number with its closure, its repeat count and the deadline now + delay |
| `ServiceThread.RegionReleases` | rst/task_runner/thread_pool_task_runner.cc:217-249 | a step releases nothing, or is a drain after which a posted item has been released if and only if it had been before or its deadline has come |
| `ServiceThread.NeverEarly` | rst/task_runner/thread_pool_task_runner.cc:190-249 | in every run the step that releases a delayed task reads a clock not earlier than its posting time plus its delay |
| `ServiceThread.TopRegion` | rst/task_runner/thread_pool_task_runner.cc:195-227 | the region at the top of the loop exits, waits forever, waits for the least deadline of the heap, or takes just the due items in hand, and which of these |
| `ServiceThread.ResumedRegion` | rst/task_runner/thread_pool_task_runner.cc:211-227 | the region after a wait exits, loops on an empty heap, or takes just the due items in hand |
| `ServiceThread.WillBeWokenStep` | rst/task_runner/thread_pool_task_runner.cc:180-209 | every step keeps: a service thread asleep on a stale view of the heap, of its minimum or of the exit flag is owed a notification, and otherwise its deadline is that of a queued task |
| `ServiceThread.InvAlways` | rst/task_runner/thread_pool_task_runner.cc:180-252 | both in every state of every run |
| `ServiceThread.JoinEnds` | rst/task_runner/thread_pool_task_runner.cc:180-199 | once the destructor joins, the service thread is not asleep and each of its steps brings its exit closer |
| `ServiceThread.JoinProgress` | rst/task_runner/thread_pool_task_runner.cc:186-212 | while the destructor joins, the service thread can move or has exited |
| `LockedRegions.ServiceTaskRunner.constructor` | rst/task_runner/thread_pool_task_runner.cc:168-178 | starts the service thread's fields in the initial state |
| `LockedRegions.ServiceTaskRunner.PushTask` | rst/task_runner/thread_pool_task_runner.cc:237-249 | queues the item on the heap as the post step does, under the next id |
| `LockedRegions.ServiceTaskRunner.Test` | rst/task_runner/thread_pool_task_runner.cc:195-227 | the region at the top of the loop exits, sleeps forever, sleeps to the earliest deadline, or drains, as the step does |
| `LockedRegions.ServiceTaskRunner.TestAgain` | rst/task_runner/thread_pool_task_runner.cc:211-227 | the region after the wait |
| `LockedRegions.ServiceTaskRunner.Drain` | rst/task_runner/thread_pool_task_runner.cc:217-227 | moves exactly the due items out of the heap, in key order |
| `LockedRegions.ThreadPoolTaskRunner.constructor` | rst/task_runner/thread_pool_task_runner.cc:254-259 | builds both inner runners in their initial states |
| `LockedRegions.ThreadPoolTaskRunner.PostDelayedTaskWithIterations` | rst/task_runner/thread_pool_task_runner.cc:263-272 | a zero delay pushes to the pool and leaves the service thread alone, any other delay the other way round |
| `ThreadPoolRunner.InvAlways` | rst/task_runner/thread_pool_task_runner.h:153-154 | pool and service thread keep their invariants together, and what the pool got interleaves what was posted directly and what the service thread released, each in its order |
| `ThreadPoolRunner.InterleavesExactly` | rst/task_runner/thread_pool_task_runner.cc:109-120 | what it means to interleave: some marking of the whole sequence has the two parts as its marked and its unmarked items |
| `ThreadPoolRunner.EveryTaskIsSomewhere` | rst/task_runner/thread_pool_task_runner.cc:217-272 | in every reachable state each delayed task is in exactly one of heap, batch and pool, the pool was given direct and delayed items each in their order, and it has taken or still queues exactly what it was given |
| `ThreadPoolRunner.PoolOutlivesService` | rst/task_runner/thread_pool_task_runner.h:153-154 | the pool's destructor starts only when the service thread has exited and owes it nothing |
| `ThreadPoolRunner.HandOverNeverBlocked` | rst/task_runner/thread_pool_task_runner.cc:230-233 | a due batch meets the assertions of PushTasks whenever it is handed over |
| `ThreadPoolRunnerProgress.DestructionCompletes` | rst/task_runner/thread_pool_task_runner.cc:47-54 | once the destructor has begun, a run of the whole runner that can go no further has joined the service thread and returned with an empty thread map |
| `ThreadPoolRunnerProgress.RunsDry` | rst/task_runner/thread_pool_task_runner.cc:190-235 | a living runner that can go no further, unless a step has stranded work, waits for a deadline that nothing in its heap precedes, or has an empty heap; all that was posted directly or released has been pushed in order and taken |
| `Barrier.CounterPositive` | rst/threading/barrier.cc:48 | the assertion of both countdowns holds whenever it is reached |
| `Barrier.NoEarlyPassStep` | rst/threading/barrier.cc:51-56 | no step lets a thread past its wait while the counter is not zero |
| `Barrier.ChainStep` | rst/threading/barrier.cc:55-80 | every step keeps the wake chain: once the counter is zero, a sleeper implies a thread woken or about to notify |
| `Barrier.InvAlways` | rst/threading/barrier.cc:45-81 | all of this in every state of every run |
| `Barrier.ReleaseStep` | rst/threading/barrier.cc:51-80 | once the counter is zero every step but a new call brings the release of all waiters closer, spurious wakeups included |
| `Barrier.ReleaseBounded` | rst/threading/barrier.cc:45-81 | so the release has boundedly many steps |
| `Barrier.ReleaseProgress` | rst/threading/barrier.cc:45-81 | while a thread is still inside a call the release can go on without spurious wakeups |
| `LockedRegions.Barrier.constructor` | rst/threading/barrier.cc:34-36 | starts at the given count |
| `LockedRegions.Barrier.CountDown` | rst/threading/barrier.cc:58-70 | its assertion holds, and it notifies exactly when it brings the counter to zero |
| `LockedRegions.Barrier.CountDownAndWait` | rst/threading/barrier.cc:45-53 | its assertion holds, and it sleeps unless it was the last |
| `LockedRegions.Barrier.Test` | rst/threading/barrier.cc:72-78 | the wait loops sleep exactly while the counter is not zero |
| `ApplySync.StartExists` | rst/task_runner/task_runner.cc:59-63 | calls of every repeat count have an initial state, so the statements below are about something |
| `ApplySync.IndexInRange` | rst/task_runner/task_runner.cc:70-73 | the index that an invocation fetches is below the repeat count, for every interleaving |
| `ApplySync.CountDownAllowed` | rst/task_runner/task_runner.cc:75 | the countdown that follows finds the counter positive |
| `ApplySync.InvAlways` | rst/task_runner/task_runner.cc:59-81 | in every run queue, workers, index and barrier counter balance, and each fetched index is in one worker's hands or has been run once |
| `ApplySync.ReturnsAfterEveryIndex` | rst/task_runner/task_runner.cc:59-81 | ApplyTaskSync returns only after each of 0, ..., n - 1 has been run to completion exactly once |
| `ApplySyncProgress.CallMoves` | rst/task_runner/task_runner.cc:78-80 | on a living pool that serves its queue, a call that has not returned has a step to go on with |
| `ApplySyncProgress.ServedKeptExactly` | rst/task_runner/task_runner.cc:78-80 | each step of the joint run keeps a worker for queued work, outside closures that hang, if and only if it is no stranding push, timeout or hanging closure |
| `ApplySyncProgress.HelperComes` | rst/task_runner/thread_pool_task_runner.cc:149-162 | the push of the closure finds or creates a worker that does not hang, if closures hang on fewer threads than the limit |
| `ApplySyncProgress.NeverReturns` | rst/task_runner/task_runner.cc:78-80 | a call on a pool with closures that hang on every thread it may have is never past its wait, in any run |
| `ApplySyncProgress.ReturnsUnlessStranded` | rst/task_runner/task_runner.cc:59-81 | a run on a living pool, timeouts included, in which no step strands and nothing is left that anybody has to do, has returned with every index run once |
| `ApplySyncStuck.CallersBlockOneAnother` | rst/task_runner/task_runner.cc:78-80 | when every thread of the limit is inside a closure that ends only once a closure still untaken has been taken, nothing is taken and none of them ends in any run of the pool |
| `ApplySyncStuck.StuckCallers` | rst/task_runner/task_runner.cc:78-80 | for every size of the pool and every repeat count, a run in which calls from inside all its threads have no step left that anybody has to make |
| `ApplySyncStuck.StuckBehindHang` | rst/task_runner/thread_pool_task_runner.cc:149-162 | for every pool of two threads or more, such a run of a caller outside the pool, without timeouts: both pushes counted on one waiting worker, whose closure hangs |
| `ApplySyncProgress.ReturnsWhenNothingIsLeft` | rst/task_runner/task_runner.cc:59-81 | a run without timeouts on a living pool, in which no further closure comes to hang, that can go no further has returned, every index run once, if and only if closures hang on fewer threads than the pool may have |
| `ApplySyncBound.WorkStep` | rst/task_runner/task_runner.cc:69-80 | every step that somebody has to make brings the return closer |
| `ApplySyncBound.CallBounded` | rst/task_runner/task_runner.cc:59-81 | so from the call on every run has boundedly many steps besides pushes of others, spurious wakeups and timeouts, and what they add |
| `LockedRegions.AppliedItem.FetchIndex` | rst/task_runner/task_runner.cc:70-73 | the fetch_add yields the index of the joint state machine and its assertion holds |
| `TaskHeap.FrontIsLeast` | rst/task_runner/item.h:55-58 | no item of a heap is earlier than its front |
| `TaskHeap.ReleasedInvocations` | rst/task_runner/polling_task_runner.cc:69-78 | a released item stands for iterations + 1 calls of its closure at its place among the others |
| `TaskHeap.PushHeap` | rst/task_runner/polling_task_runner.cc:55 | sifting up makes a heap of the same items |
| `TaskHeap.SiftDown` | rst/task_runner/polling_task_runner.cc:70 | sifting down restores a heap of the same items |
| `TaskHeap.PopHeap` | rst/task_runner/polling_task_runner.cc:70 | the front goes to the back, the rest is a heap of the other items |
| `TaskHeap.Enqueue` | rst/task_runner/polling_task_runner.cc:53-55 | adds one item and keeps the heap |
| `TaskHeap.TakeFront` | rst/task_runner/polling_task_runner.cc:65-71 | moving the closure out before the pop loses nothing: the rest is a heap of exactly the other, later items |
| `TaskHeap.TakeReady` | rst/task_runner/polling_task_runner.cc:64-72 | the drain takes exactly the items due, in strictly increasing key order, and leaves a heap of the later ones |
| `TaskHeap.DrainIsUnique` | rst/task_runner/polling_task_runner.cc:62-72 | items and time determine the batch, its order and what is left |
| `ReleaseOrder.QueueIsDistinct` | rst/task_runner/polling_task_runner.cc:53-54 | no two queued items share an id |
| `ReleaseOrder.PostKeepsCoherent` | rst/task_runner/polling_task_runner.cc:45-56 | a post keeps the account of posts and releases and their order |
| `ReleaseOrder.DrainKeepsCoherent` | rst/task_runner/polling_task_runner.cc:58-73 | a drain keeps them, with whatever clock reading |
| `ReleaseOrder.DrainedExactly` | rst/task_runner/polling_task_runner.cc:62-72 | a drain takes the post of a number if and only if it is not released yet and its time point has come |
| `ReleaseOrder.NeverOvertaken` | rst/task_runner/polling_task_runner.cc:45-73 | over a whole run, an item already posted when one with a larger key is released has been released before it |
| `ReleaseOrder.EqualDelaysAreFifo` | rst/task_runner/polling_task_runner.cc:50-55 | with time points that do not decrease, tasks are released in posting order |
| `PollingTaskRunner.PollingTaskRunner.constructor` | rst/task_runner/polling_task_runner.cc:39-41 | starts empty |
| `PollingTaskRunner.PollingTaskRunner.PostDelayedTaskWithIterations` | rst/task_runner/polling_task_runner.cc:45-56 | queues one item at now + delay under the next id and changes nothing else |
| `PollingTaskRunner.PollingTaskRunner.RunTask` | rst/task_runner/polling_task_runner.cc:76-77 | calls a released closure iterations + 1 times in a row; what it posts is queued |
| `PollingTaskRunner.DueExactly` | rst/task_runner/polling_task_runner.cc:50-72 | in terms of the requests: a drain takes just the numbers of those not released whose time of posting plus delay has come, in order of deadline, then of posting |
| `PollingTaskRunner.CallsOfBatch` | rst/task_runner/polling_task_runner.cc:69-78 | a drained batch stands for iterations + 1 calls of the closure of each of its requests, in a row |
| `PollingTaskRunner.PollingTaskRunner.RunPendingTasks` | rst/task_runner/polling_task_runner.cc:58-81 | calls the closure of exactly the requests whose delay is over and that have not been run, by deadline and then by order of posting, each iterations + 1 times in a row, and nothing posted meanwhile |
| `OneShotTimer.InvAlways` | rst/timer/one_shot_timer.cc:45-69 | in every run each started closure is called at most once, in start order, and a running timer holds one with exactly one undelivered post of the current id |
| `OneShotTimer.OnlyTheLatestRuns` | rst/timer/one_shot_timer.cc:54-69 | a step calls a closure if and only if a live, running timer is fired or its latest post delivered, and then it is the latest one |
| `OneShotTimer.StopsExactly` | rst/timer/one_shot_timer.cc:54-68 | which single steps stop a running timer, both directions |
| `OneShotTimer.StartKeptExactly` | rst/timer/one_shot_timer.cc:45-69 | what is started gets called however the run goes on, unless the timer is destroyed or started again first, if and only if the start is not made inside a callback that FireNow called |
| `OneShotTimer.RestartLost` | rst/timer/one_shot_timer.cc:55-57 | a run in which a restart inside a callback of FireNow is never called |
| `OneShotTimer.OneShotTimer.constructor` | rst/timer/one_shot_timer.cc:40-41 | starts idle |
| `OneShotTimer.OneShotTimer.Start` | rst/timer/one_shot_timer.cc:45-52 | its code makes the start step and binds the new id |
| `OneShotTimer.OneShotTimer.BeginRunTask` | rst/timer/one_shot_timer.cc:60-68 | its code makes the step up to the call, its assertion holds |
| `OneShotTimer.OneShotTimer.EndFireNow` | rst/timer/one_shot_timer.cc:57 | FireNow stops the timer after the callback, whatever was started in it |
| `Values.StringTotal` | rst/value/value.cc:337-338 | any two strings are ordered or the same |
| `ValueOrder.StringLessMeans` | rst/value/value.cc:337-338 | a string is less than another if and only if it is a strict prefix of it or has the smaller character where they first differ |
| `Values.EntriesSorted` | rst/value/value.h:120 | the entries of an object are visited in strictly increasing key order |
| `ValueOrder.EntriesComplete` | rst/value/value.h:120 | each member of an object is among its entries |
| `Values.StrictTotalOrder` | rst/value/value.cc:324-350 | `<` is irreflexive, asymmetric, transitive, and two values neither of which is less are structurally identical |
| `ValueOrder.LessAcrossTypes` | rst/value/value.cc:323-324 | values of different types are ordered null, bool, number, string, array, object |
| `ValueOrder.LessOfLeaves` | rst/value/value.cc:326-339 | no null is less than null, false is less than true, numbers and strings are ordered as such |
| `ValueOrder.LessOfArrays` | rst/value/value.cc:340-342 | an array is less than another if and only if it is a strict prefix or has the smaller element where they first differ |
| `ValueOrder.LessOfObjects` | rst/value/value.cc:343-345 | an object is less than another if and only if its sorted entries are a strict prefix of the other's, or have the smaller key, or the same key and the smaller value, where they first differ |
| `Values.EqualReflexive` | rst/value/value.cc:298-322 | every value equals itself |
| `Values.NeitherLessIsEqual` | rst/value/value.cc:298-350 | two values neither of which is less are `==` |
| `ValueEquality.AgreesExactly` | rst/value/value.cc:298-350 | over doubles, `==` on a value agrees with `<`, whatever the value is compared to, if and only if every number in it has magnitude above one |
| `ValueEquality.TransitiveExactly` | rst/value/value.cc:298-322 | over doubles, `==` chains through a value, whatever is on both sides, if and only if every number in it has magnitude at least one |
| `ValueEquality.MappedEqual` | rst/value/value.cc:308-310 | two replacements of all numbers in a value give equal values exactly when they are within epsilon on each of them |
| `ValueEquality.NearFar` | rst/value/value.cc:308-310 | a double of magnitude one or more has no other double within epsilon, except one itself just below |
| `Values.AgreesOnPair` | rst/value/value.cc:308-310 | on one given pair, `==` agrees with `<` if and only if it does not blur two different numbers at the same place |
| `Values.IntegersAreResolved` | rst/value/value.cc:308-310 | values without fractions are never blurred, so on them `==` is identity |
| `ValueEquality.EqualIsNotTransitive` | rst/value/value.cc:308-310 | three doubles on which `==` is not transitive |
| `Values.CloneIsIdentical` | rst/value/value.cc:71-106 | the value of a clone is structurally identical, equal, and not ordered before or after the original |
| `Values.IntegersExactly` | rst/value/value.h:184-200 | IsInt and IsInt64 hold of exactly the values made of an integer in range |
| `ValueEquality.IntegerRanges` | rst/value/value.h:184-200 | the ranges are those of a 32-bit int and of the integers a double holds exactly |
| `Values.TruncateTowardsZero` | rst/value/value.h:210-217 | the conversion to an integer drops the fraction and never moves away from zero |
| `Values.IntegerReadsBack` | rst/value/value.h:210-217 | reading an integer gives back the one the value was made of |
| `Paths.FindDot` | rst/value/value.cc:194-196 | the first dot, or the end |
| `Paths.JoinOfSplit` | rst/value/value.cc:194-207 | joining undoes splitting, for every string |
| `Paths.SplitOfJoin` | rst/value/value.cc:194-207 | splitting undoes joining, for keys without dots |
| `Paths.SplitInjective` | rst/value/value.cc:194-207 | different paths name different key lists |
| `Paths.PrefixByDot` | rst/value/value.cc:194-207 | the keys of a path start another's if and only if the other continues it after a dot |
| `Paths.GetOne` | rst/value/value.cc:212-230 | a single key finds the member of that name or nothing |
| `Paths.GetComposes` | rst/value/value.cc:212-230 | finding a longer path is finding its end in the object that its start finds, and nothing if that is no object |
| `Paths.PutThenGetBelow` | rst/value/value.cc:189-230 | after setting a path, it and its continuations are found inside the value set |
| `Paths.PutThenGetAbove` | rst/value/value.cc:189-230 | a strict prefix of a path that was set finds an object that holds the rest of it |
| `Paths.PutThenGetElsewhere` | rst/value/value.cc:189-230 | every other path finds what it found before |
| `Paths.SetThenFind` | rst/value/value.cc:189-230 | the full effect of setting one path on finding any other, for all trees and strings |
| `Paths.PutTwice` | rst/value/value.cc:189-210 | the second of two settings of one path wins, on the whole tree |
| `Paths.PutBack` | rst/value/value.cc:189-230 | writing back what was found changes nothing |
| `Paths.PutsCommute` | rst/value/value.cc:189-210 | settings of unrelated paths commute, on the whole tree |
| `ValueTree.Node.EmptyObject` | rst/value/value.cc:201 | a new object without members |
| `ValueTree.Node.FindKey` | rst/value/value.cc:108-114 | finds the member, or nothing |
| `ValueTree.Node.FindKeyOfType` | rst/value/value.cc:116-126 | finds the member only if it has the given type |
| `ValueTree.Node.SetKey` | rst/value/value.cc:172-177 | inserts or replaces one member, returns it, and keeps the tree well owned |
| `ValueTree.Node.RemoveKey` | rst/value/value.cc:179-187 | removes one member, and says whether there was one |
| `ValueTree.Node.Clone` | rst/value/value.cc:71-106 | a deep copy, of objects and of arrays: a well-owned tree of new nodes only, that holds the same value |
| `ValueTree.Attach` | rst/value/value.cc:199-209 | SetKey on an object deep in a tree sets that path of the tree above, which is well owned again |
| `ValueTree.Node.FindPath` | rst/value/value.cc:212-230 | the walk down finds what lookup along the split path finds, or null |
| `ValueTree.Node.SetPath` | rst/value/value.cc:189-210 | the mutating walk, creating and replacing objects on its way, sets the split path of the tree and gives the value it was handed |
| `Preferences.FlatStore` | rst/preferences/memory_preferences_store.cc:37-45 | on prefix-free registrations every well-typed history leaves on each path the last value set, or nothing |
| `Preferences.ClashBreaksTypes` | rst/preferences/preferences.h:140-150 | when one registered path continues another, one well-typed setting makes one of them find a value of another type |
| `Preferences.TypesKeptExactly` | rst/preferences/preferences.h:140-150 | types are kept through every well-typed history if and only if the registered paths are prefix-free |
| `Preferences.FlatExactly` | rst/preferences/preferences.h:140-150 | the store is a flat map through every such history under the same condition |
| `Preferences.GettersAccept` | rst/preferences/preferences.cc:52-64 | which getters accept what was set: all but GetInt, and GetInt exactly when no fraction and no number outside the range of int was set last |
| `Preferences.GettersOfTypes` | rst/preferences/preferences.cc:38-120 | which getters accept a value of each type: one for each, two for numbers, GetInt just for the ints, none for null |
| `Preferences.FractionTaken` | rst/preferences/preferences.h:146-149 | a fraction set on an integer preference, which GetInt then refuses |
| `Preferences.Preferences.constructor` | rst/preferences/preferences.cc:32-34 | starts with no defaults and an empty store |
| `Preferences.Preferences.RegisterPreference` | rst/preferences/preferences.h:129-137 | adds one default and changes nothing that was stored |
| `Preferences.Preferences.SetValue` | rst/preferences/preferences.h:140-150 | the tree is again the outcome of the whole history of settings, this one last |
| `Preferences.Preferences.Read` | rst/preferences/preferences.cc:38-120 | a getter gives the stored value it accepts or else the default; on prefix-free registrations that is the last value set or the default |
| `Format.MeaningSize` | rst/strings/format.cc:46-52 | the precomputed size is the length of the output plus the number of brace escapes, and never underflows |
| `Format.FormatAndReturnString` | rst/strings/format.cc:39-93 | never writes past the buffer, and outputs the token-by-token meaning of the format |
| `Format.TemplateMeaning` | rst/strings/format.cc:59-87 | on brace-escaped texts joined by `{}` the output is the texts interleaved with the arguments |
| `Format.EveryFormatIsATemplate` | rst/strings/format.cc:59-87 | every well-formed format is such a template |
| `HashCombine.RotlMovesParts` | rst/stl/hash.cc:35-37 | the rotation moves the two parts of a word past each other |
| `HashNumbers.ValueOfRotl` | rst/stl/hash.cc:35-37 | as a number, the rotation by r is x * 2^r modulo the word size plus x / 2^(width - r) |
| `HashNumbers.Mix32InNumbers` | rst/stl/hash.cc:39-52 | the 32-bit step as arithmetic modulo 2^32 with the constants and amounts of the code |
| `HashNumbers.Mix64InNumbers` | rst/stl/hash.cc:54-68 | the 64-bit step as arithmetic modulo 2^64 |
| `HashCombine.Mix32Injective` | rst/stl/hash.cc:39-52 | the 32-bit step is injective in the accumulator and in the element hash |
| `HashCombine.Mix64Injective` | rst/stl/hash.cc:54-68 | so is the 64-bit step |
| `HashCombine.HashCombineSizeT32` | rst/stl/hash.cc:39-52 | the updates in place make the 32-bit step |
| `HashCombine.HashCombineSizeT64` | rst/stl/hash.cc:54-68 | the updates in place make the 64-bit step |
| `HashCombine.HashCombine` | rst/stl/hash.cc:72-85 | the loop is the fold of the step, and zero on an empty list |
| `HashCombine.FoldOfOne` | rst/stl/hash.cc:77-84 | a single hash is its own combination |
| `HashCombine.FoldOfMore` | rst/stl/hash.cc:78-84 | one more hash at the end is mixed into the combination of those before it |
| `HashCombine.SinglePositionChangesShow` | rst/stl/hash.cc:72-85 | lists of one length that differ at exactly one position have different combinations, for every length, position and word size |

## Left out

- ThreadPoolProgress.NoLostWakeup: runs without keep-alive timeouts only, because the property is false with them; `ServedKeptExactly` says exactly which steps break it, and `ThreadPoolWork.RunsDry` covers the runs with timeouts that have no such step.
- ApplySyncProgress.ReturnsUnlessStranded: assumes a pool that is not being destroyed. One call is followed; calls in other closures are closures that end or that hang.
- ApplySync.ReturnsAfterEveryIndex: the atomic index is a plain counter, so the memory order of `fetch_add` is not modelled; what a worker that called does after the call has returned is not followed.
- ThreadPool.InvAlways: the blocking calls are steps of a state machine, not methods; a region under the mutex is atomic, and the sums of repeat counts are unbounded integers, so `size_t` wrap-around is not modelled. Ids of live threads are distinct.
- ServiceThread.InvAlways: the heap is its multiset of items here; `LockedRegions.ServiceTaskRunner` ties it to the real heap. `task_id_` does not wrap around.
- PollingTaskRunner.PollingTaskRunner.RunPendingTasks: one thread, no call of RunPendingTasks from inside a running closure, and no closure that destroys the runner. What each call posts is a parameter.
- TaskHeap.PushHeap: the library's heap algorithms are written out over a sequence that is reassigned; they are not the code of any one standard library.
- OneShotTimer.InvAlways: the delay of a start is not modelled, posted closures are delivered in any order and at any time; the timer is not destroyed under `FireNow`; the weak pointer is the flag that says whether the timer lives.
- ValueTree.Node.SetKey: a replaced member gives way to the object handed in, so that the address of a slot survives replacement is not modelled; the value handed in is apart from the tree.
- ValueTree.Node.FindKeyOfType: the finders by scalar type are not modelled, being one test on top of it.
- Values.StrictTotalOrder: numbers are reals, so infinities and NaN are not modelled.
- ValueEquality.TransitiveExactly: numbers are the reals that a double can hold, and the difference that `==` takes of two of them is exact; its rounding is not modelled.
- Preferences.Preferences.Read: the six getters are one method with the getter as a parameter, and the read is by value where the source returns a reference.
- Format.FormatAndReturnString: arguments are given as the strings they convert to.
- HashCombine.HashCombine: the hashes of the elements are given.
- Move construction and assignment of values, their union and its lifetime.
- Files, logger, random device, GUID, StrCat, Status, weak pointers, bind, NotNull and the other thin wrappers.
