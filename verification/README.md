# miniMarl in Dafny

miniMarl is a fiber scheduler: workers run stackful fibers, steal tasks from each other, and block fibers rather than
threads. This project models its concurrent core and proves what holds of every run of it.

* **Worker** - `WorkerModel` is one `Scheduler::Worker` as a transition system whose steps are the critical sections of
  `work_.mutex`; every `MARL_ASSERT` of the worker code is a check that sets `failed`. `WorkerInvariant` proves that in
  every run no check fails and that fiber states, containers, counters and parked stacks agree. `WorkerObject` is the
  same worker as an object updated in place, each method equal to one step of the model. `IdleNotify` says what a
  notification of an idle fiber leads to, `WorkerSleep` how a worker's thread sleeps and is woken, `WorkerHistory` in
  which order tasks and fibers get their turn and until when a fiber waits. `WaitingFibers` is the
  timeout set, `Stealing` several workers with thieves, `FiberHomes` the same with fibers by identity, `SpinRing` the ring
  of spinning workers.
* **DAG** - `DagRun` is `invoke`, `notify` and `run` as interleaved strands; `DagInvariant` and `DagTheorems` prove what
  a run executes, in which order, that it returns and how soon; `DagInline` which successors are scheduled and which one is
  invoked inline; `DagBuilder` is the builder.
* **Wake-up** - `CondVar` interleaves waiting fibers and notifying threads at every lock operation; `CondVarLocks`,
  `NoLostWakeup`, `WaitGroup` and `AutoEvent` prove that nobody is stranded, `WaitResults` and `EventHistory` what a wait
  returns and when the flag is set. `FiberWaits` runs the condition variable and
  the workers as one machine. `EventNet` is `Event::any` and the recursive `signal`, `EventLocks` the same called by
  many threads at once.
* **Memory** - `LinkedList` and `SmallVector` are the two containers on the heap; `Allocator` is the layout of default,
  aligned and guarded allocations and the way back from a user pointer to its block.

Runs are given by schedules: a sequence that names, step by step, who moves. A lemma quantified over schedules speaks of
every interleaving. Atomics are sequentially consistent, the clock and the choice of a victim are arbitrary.

Six places where the code keeps less than one might expect are stated exactly:

* A dependency edge into the root lets a run invoke the root again. `RootSafe` is the precise condition
  (`DagTheorems.RootOnceIffSafe`); all acyclic graphs, and all graphs made by `node` and `then`, meet it.
* In `Mode::Auto`, a timed wait that is woken after its deadline returns false without looking at the flag, against the
  comment at include/marl/condition_variable.hpp:75. It swallows a wake-up meant for another fiber. `Calm` is the precise
  condition under which this cannot happen (`AutoEvent.NoticedIffCalm`).
* After `enqueue(Fiber*)` on a consistent worker, no assertion can ever fail if and only if the fiber was not idle
  (`IdleNotify.EnqueueFiberExact`); idle fibers do occur (`IdleNotify.IdleIsReachable`), but a condition variable never
  notifies one (`FiberWaits.NotifiedIsWaiting`).
* `Deleter` frees without the alignment. With a `malloc` that promises multiples of some granule, it finds the block of
  every object if and only if the alignment of the type divides the granule (`Allocator.DeleterFindsBase`); otherwise it
  can hand the system an address that begins no block (`Allocator.DeleterMissesAll`, `Allocator.OverAlignedDelete`).
* Vector assignment begins with `free()`, which keeps the count and the capacity. It works if and only if it has to grow
  an empty vector, or not to grow one whose capacity is still that of the inline buffer (`SmallVector.Vector.Assign`);
  `SmallVector.AssignGoesWrong` and `SmallVector.AssignLosesStorage` are two that do not.
* A worker asleep with something queued is always owed a wake-up, but its stop task can be stolen, and then it sleeps
  through its own shutdown. It is always woken for what it waits for if and only if there is no other worker thread to
  steal that task, or nobody who pushes one (`WorkerSleep.OversleepsIffStolen`).

## Model

| member | source | states |
|---|---|---|
| `WorkerInvariant.RunSafe` | src/scheduler.cpp:393-666 | In every state of every run no worker assertion has failed, and until the hand-off to the main fiber: `num` is tasks plus queued fibers, the queue has no repeats, Queued/Waiting/Idle hold exactly for the members of the queue, the timeout set and `idle_fibers_`, only the current fiber is Running, and `num_blocked_fibers` counts the fibers parked in `suspend` |
| `WorkerInvariant.StepSafe` | src/scheduler.cpp:419-645 | Every step of the owner, of an enqueuer and of a thief leads from a consistent worker to a consistent or properly finished one |
| `WorkerInvariant.SuspendInv` | src/scheduler.cpp:419-427 | The first half of `suspend` keeps states, containers and counters in agreement, timed or not |
| `WorkerInvariant.WakeUpInv` | src/scheduler.cpp:550-566 | Requeueing the expired fibers keeps the agreement, and every fiber so requeued was Waiting |
| `WorkerInvariant.SwitchAwayInv` | src/scheduler.cpp:429-451 | The second half of `suspend`, whichever of the three targets it picks, keeps the agreement across the stack switch |
| `WorkerInvariant.LoopTurnInv` | src/scheduler.cpp:614-645 | A turn of `runUntilIdle` keeps the agreement; the dequeued fiber is neither idle nor current |
| `WorkerInvariant.EnqueueKeepsInvIff` | src/scheduler.cpp:457-484 | `enqueue(Fiber*)` keeps the worker consistent if and only if its target is not idle |
| `IdleNotify.DequeueFails` | src/scheduler.cpp:619-629 | An idle fiber that was queued trips an assertion the moment it is taken off the queue, in the idle loop or in `suspend` |
| `IdleNotify.DoomedRun` | src/scheduler.cpp:470-479 | Over every continuation after that call, the fiber cannot leave the queue and the worker cannot exit without an assertion having failed |
| `IdleNotify.EnqueueFiberExact` | src/scheduler.cpp:457-484 | After `enqueue(Fiber*)` on a consistent worker, no continuation makes any assertion fail if and only if the target was not idle |
| `IdleNotify.IdleIsReachable` | src/scheduler.cpp:610-630 | A concrete run ends with an idle fiber and the mutex free, from where notifying that fiber leads to a failing assertion |
| `WorkerInvariant.LeavingMeansNothingLeft` | src/scheduler.cpp:530-535 | When the loop condition fails there are no tasks, queued fibers or timed waiters, every other fiber is back in its idle loop, and the main fiber, if not current, is Idle |
| `WorkerInvariant.TestShutdownSafe` | src/scheduler.cpp:518-535 | Leaving `run()` ends in the main fiber with nothing left, directly or by a switch whose Idle-to-Running check passes |
| `WorkerInvariant.HandOffWalksOut` | src/scheduler.cpp:518-535 | After the hand-off the main fiber takes no further task and reaches its exit in at most two steps |
| `WorkerInvariant.ExitLeavesNothing` | src/scheduler.cpp:518-535 | Over every run: the step with which a worker exits leaves nothing undone on any of its fibers |
| `WorkerInvariant.ExitIsFinal` | src/scheduler.cpp:365-382 | Whatever happens to a worker after its exit, it never starts another task |
| `WorkerHistory.TasksInOrder` | src/scheduler.cpp:486-516 | In every run, the tasks taken so far, started by the worker or handed to thieves, followed by those still queued are the tasks enqueued, in order |
| `WorkerHistory.StartedInOrder` | src/scheduler.cpp:632-643 | Without thefts, tasks are started in the order in which they were enqueued |
| `WorkerHistory.FibersInOrder` | src/scheduler.cpp:434-439 | In every run, the fibers resumed so far followed by those still queued are the fibers made runnable by notifications and deadlines, in order |
| `WorkerHistory.WaitsUntilDue` | src/scheduler.cpp:419-427 | A fiber that suspends until `t` stays Waiting with deadline `t` through all steps of all threads that neither notify it nor wake the worker at a time `t` or later |
| `WorkerHistory.DueIsReleased` | src/scheduler.cpp:558-566 | The first step that does either takes it out of the timeout set and queues it |
| `WorkerHistory.GoesOnWhereLeft` | src/scheduler.cpp:434-451 | The fiber `suspend` switches to goes on where it was left: in user code, in its idle loop, or at the start of `run()` |
| `WorkerHistory.TaskThenLoop` | src/scheduler.cpp:632-644 | After a task the queues are looked at again before `shutdown` is |
| `WorkerHistory.WaitsOnlyWithoutWork` | src/scheduler.cpp:537-548 | `waitForWork` returns at once exactly when something is queued; otherwise a worker thread spins and a bound thread sleeps |
| `WorkerHistory.ReturnsOnlyForCause` | src/scheduler.cpp:550-556 | It returns later only for work, for a shutdown with no fiber blocked, or because a fiber has a deadline |
| `WorkerHistory.StartsWaiting` | src/scheduler.cpp:518-524 | A new worker thread does nothing before the first enqueue or shutdown |
| `WorkerHistory.ShutdownBeforeWork` | src/scheduler.cpp:525-531 | A worker thread woken only to shut down leaves at once |
| `WorkerHistory.StopReturns` | src/scheduler.cpp:372-378 | `stop()` on a bound thread with nothing left to do returns at once |
| `WorkerSleep.FlagIsWaiting` | src/scheduler.cpp:673-681 | In every run `notify_added` is set until the first wait is over, and then exactly while the owner is inside `Work::wait` |
| `WorkerSleep.ShutdownIsStopped` | src/scheduler.cpp:367-371 | In every run `shutdown` is set exactly when a stop task has been executed, by the owner or by a thief |
| `WorkerSleep.WakesAndLeaves` | src/scheduler.cpp:481-483 | The sleeping owner is woken exactly by a deadline, spuriously, or by an enqueuer that saw the flag, and leaves `Work::wait` exactly on a true condition or when its time has run out |
| `WorkerSleep.PushIsNoticed` | src/scheduler.cpp:457-499 | In every run, a worker asleep on `added` with something queued is owed a `notify_one` by an enqueuer that read `notify_added` under the mutex |
| `WorkerSleep.StepInv` | src/scheduler.cpp:672-681 | `Work::wait`, `enqueue`, thefts, deadlines and spurious wake-ups all keep that, and the flag is set whenever the owner is inside `Work::wait` |
| `WorkerSleep.StopIsStolen` | src/scheduler.cpp:365-371 | From every start with an enqueuer and another worker thread, a run ends with the owner asleep, `shutdown` set and nobody about to wake it |
| `WorkerSleep.OversleepsIffStolen` | src/scheduler.cpp:537-552 | The owner never sleeps unowed through what it waits for, shutdown included, if and only if there is no other worker thread to steal the stop task, or no enqueuer |
| `WorkerObject.WorkerState.constructor` | src/scheduler.cpp:322-363 | A new worker is in the initial state of the model |
| `WorkerObject.WorkerState.SuspendCurrent` | src/scheduler.cpp:419-427 | The in-place update equals the model's step, passes the source's state assertion, and stores exactly the given deadline |
| `WorkerObject.WorkerState.EnqueueFiberTimeouts` | src/scheduler.cpp:558-566 | The loop ends; exactly the fibers with deadline at most `now` move to the end of the queue in (deadline, fiber) order, become Queued and are counted; the rest stay |
| `WorkerObject.WorkerState.ReturnFromWait` | src/scheduler.cpp:550-556 | The end of `waitForWork` equals the model's step |
| `WorkerObject.WorkerState.EnqueueWaiter` | src/scheduler.cpp:457-484 | The in-place update equals the model's step for every target: a suspended fiber is queued once and leaves the timeout set, a running or queued one is left alone; the worker stays consistent exactly when the target was not idle |
| `WorkerObject.WorkerState.EnqueueWork` | src/scheduler.cpp:486-499 | The task goes to the end of the queue and is counted |
| `WorkerObject.WorkerState.StealTask` | src/scheduler.cpp:501-516 | Succeeds exactly when there is work whose oldest task is not SameThread, and then takes that task; otherwise changes nothing |
| `WorkerObject.WorkerState.SwitchToFiber` | src/scheduler.cpp:659-666 | The switch and what the resumed fiber does first equal the model's step |
| `WorkerObject.WorkerState.SwitchToOther` | src/scheduler.cpp:429-451 | Resumes the oldest queued fiber, else an idle one, else a new one, as the model's step |
| `WorkerObject.WorkerState.TurnLoop` | src/scheduler.cpp:614-645 | One turn of the nested loops: queued fibers first, then the oldest task, as the model's step |
| `WorkerObject.WorkerState.LeaveOrStay` | src/scheduler.cpp:526-535 | The shutdown decision and the switch to the main fiber, as the model's step, with all assertions passed |
| `WaitingFibers.InsertSorted` | src/scheduler.cpp:289-294 | Insertion keeps the timeouts in order and adds exactly one entry |
| `WaitingFibers.WaitingSet.Add` | src/scheduler.cpp:289-294 | Set and map stay in sync and refine the map with the new deadline |
| `WaitingFibers.WaitingSet.Erase` | src/scheduler.cpp:296-305 | The fiber leaves set and map together; an absent fiber is a no-op; the out-of-sync assertion passes |
| `WaitingFibers.WaitingSet.Contains` | src/scheduler.cpp:307-309 | Membership in the refined map |
| `WaitingFibers.WaitingSet.NextTimeout` | src/scheduler.cpp:284-287 | The minimum of all deadlines |
| `WaitingFibers.WaitingSet.Take` | src/scheduler.cpp:268-282 | The first fiber in (deadline, fiber) order when its deadline has passed, removed; none exactly when no deadline has passed |
| `WaitingFibers.WaitingSet.FrontIsFirst` | src/scheduler.cpp:311-316 | The front of the ordered set is ahead of every other waiting fiber |
| `WaitingFibers.TakenIsExpired` | src/scheduler.cpp:558-566 | Taking one by one until none is due yields exactly the expired fibers, in deadline order |
| `Stealing.TasksConserved` | src/scheduler.cpp:139-184 | Across all workers and interleavings, every task is queued, in a thief's hand or started exactly as often as it was submitted; SameThread tasks are queued and started only on their home worker; every worker stays consistent |
| `Stealing.NeverStartedTwice` | src/scheduler.cpp:632-643 | No task is started more often than it was submitted |
| `Stealing.DrainedMeansAllStarted` | src/scheduler.cpp:582-608 | With empty queues and hands, every task was started exactly as often as it was submitted |
| `Stealing.LateTaskStays` | src/scheduler.cpp:486-499 | Over every run of the pool: a task queued on a worker that has exited stays there, and that worker starts nothing more, as long as nobody steals from it |
| `FiberHomes.FibersStayHome` | src/scheduler.cpp:199-212 | Over every run, with notifications by identity from any thread: a worker's containers, taken as fibers, hold only fibers that worker created |
| `FiberHomes.NeverOnTwoWorkers` | src/scheduler.cpp:457-479 | No fiber is ever found on two workers |
| `FiberHomes.HomeIsTheOnlyAddress` | src/scheduler.cpp:210-212 | Sending a notification to some worker keeps its containers to its own fibers if and only if that worker created the fiber (or the fiber is running or queued, when nothing happens) |
| `FiberHomes.NotifyGoesHome` | src/scheduler.cpp:210-212 | `Fiber::notify` is `enqueue(Fiber*)` on the containers of the fiber's own worker and touches no other worker |
| `FiberHomes.NextInv` | src/scheduler.cpp:647-657 | Creation and every other move keep fibers and workers' numberings in one-to-one correspondence |
| `SpinRing.RingIsStack` | src/scheduler.cpp:145-157 | Over every sequence of operations, pops past empty and index wrap-around included, the ring is a LIFO stack of at most eight entries that drops its oldest |
| `SpinRing.PushHolds` | src/scheduler.cpp:186-189 | A push onto the ring is a push onto the bounded stack |
| `SpinRing.PopHolds` | src/scheduler.cpp:147-148 | A pop from the ring is a pop from the bounded stack, with the same answer |
| `SpinRing.WorkerChooser.BeginSpin` | src/scheduler.cpp:186-189 | The in-place slot update is a push onto the bounded stack |
| `SpinRing.WorkerChooser.Choose` | src/scheduler.cpp:147-153 | The chosen index is a worker: the most recent spinner, or the next in turn when none is recorded, and the turn advances exactly then |
| `SpinRing.WorkerChooser.ChooseInTurn` | src/scheduler.cpp:149-152 | Submissions in a row with no spinner go to consecutive turns |
| `SpinRing.EveryoneGetsATurn` | src/scheduler.cpp:151 | As many turns in a row as there are workers serve each worker exactly once |
| `DagTheorems.RunInv` | include/marl/dag.hpp:99-135 | Under every interleaving: nodes are claimed exactly when all predecessors have notified them, counters are in-degree minus notifications received, the wait group counts the unfinished strands, nothing outside a closed set starts |
| `DagInvariant.StepInv` | include/marl/dag.hpp:110-135 | Every step keeps that invariant or makes the root ready a second time |
| `DagInvariant.NotifyReady` | include/marl/dag.hpp:99-107 | `notify` answers true exactly when the notification completes the node's predecessors |
| `DagTheorems.RunReturns` | include/marl/dag.hpp:250-256 | When `run` returns, all strands are finished and exactly the least set containing the root and every node whose predecessors all execute was executed, each node once, none before its predecessors had returned |
| `DagTheorems.NoUnderflow` | include/marl/dag.hpp:99-135 | No step of any run takes a counter or the wait group below zero |
| `DagTheorems.SomeoneMoves` | include/marl/dag.hpp:110-135 | Until all strands are finished some strand can move |
| `DagTheorems.RunIsShort` | include/marl/dag.hpp:110-135 | Every run has at most 3 steps per node, 5 per edge and 2 more |
| `DagTheorems.Run` | include/marl/dag.hpp:250-256 | Driven by any scheduler, `run` returns, and correctly |
| `DagInline.LastReadyRunsInline` | include/marl/dag.hpp:117-134 | In every run, of the successors a node was the last to notify, all but the last are scheduled, in the order in which they became ready, and the last is invoked in the same strand |
| `DagTheorems.AcyclicIsSafe` | include/marl/dag.hpp:137-138 | Every acyclic graph is root-safe |
| `DagTheorems.SourceRootIsSafe` | include/marl/dag.hpp:137-138 | A root without predecessors is safe even in a cyclic graph |
| `DagTheorems.UnsafeRootRunsAgain` | include/marl/dag.hpp:110-135 | In a graph that is not root-safe, no run ends without having made the root ready again |
| `DagTheorems.RootOnceIffSafe` | include/marl/dag.hpp:110-135 | No run makes the root ready again if and only if the graph is root-safe |
| `DagTheorems.SelfLoopRunsRootAgain` | include/marl/dag.hpp:199-203 | A concrete graph, one edge from the root to itself, with a run that makes the root ready again |
| `DagTheorems.CountersInvisible` | include/marl/dag.hpp:99-107 | Whether nodes with one predecessor have counters makes no difference to any run |
| `DagTheorems.LeanRunsLikeFull` | include/marl/dag.hpp:210-216 | The built DAG runs, schedule by schedule, like one with a counter on every node |
| `DagBuilder.Builder.constructor` | include/marl/dag.hpp:168-173 | A new builder holds the root alone |
| `DagBuilder.Builder.AddDependency` | include/marl/dag.hpp:199-203 | Adds one edge; `numIns` remains the number of occurrences in all successor lists |
| `DagBuilder.Builder.AddNode` | include/marl/dag.hpp:185-197 | Adds a node behind all of `after`; edges stay ascending if they were |
| `DagBuilder.Builder.Then` | include/marl/dag.hpp:149-153 | Adds a node behind this one; edges stay ascending if they were |
| `DagBuilder.Builder.Build` | include/marl/dag.hpp:206-218 | Keeps the graph, gives a private counter holding the in-degree exactly to nodes with more than one predecessor, and yields a root-safe DAG from ascending edges |
| `DagBuilder.AscendingIsSafe` | include/marl/dag.hpp:185-197 | Low-to-high edges make the graph acyclic and root-safe |
| `CondVarLocks.StepLocks` | include/marl/condition_variable.hpp:21-72 | Every step keeps: each lock is held by whom the program counters say, the waiter list holds exactly the fibers between `emplace_front` and `erase`, `num_waiting_` counts those between its increment and decrement |
| `NoLostWakeup.StepKeeps` | src/scheduler.cpp:393-417 | Every step keeps: a fiber that saw a false predicate is protected by the user lock or, once it has let go of it, is owed a notification when the predicate is true |
| `NoLostWakeup.NobodyStranded` | include/marl/condition_variable.hpp:36-72 | In every run with `notify_all`, a fiber parked while the predicate holds is owed a notification by a setter that has not reached it yet |
| `NoLostWakeup.QuietMeansAwake` | include/marl/condition_variable.hpp:36-47 | When all setters have notified, no fiber is parked under a true predicate |
| `WaitResults.ReturnsAsDecided` | include/marl/condition_variable.hpp:87-113 | In every run a wait ends with true exactly when it read a true predicate, on entry or at the head of its loop, and with false exactly when it got its lock back after its deadline |
| `WaitResults.UntimedNeverFails` | include/marl/condition_variable.hpp:51-72 | A wait without a deadline never ends with false |
| `WaitResults.WakesInStages` | src/scheduler.cpp:403-409 | A parked fiber is queued, then resumed, and only then takes the user lock again |
| `WaitResults.PicksLatest` | include/marl/condition_variable.hpp:21-47 | `notify_one` picks the fiber that entered the waiter list last, `notify_all` goes to every fiber in the list |
| `WaitResults.TurnsBackIffNobody` | include/marl/condition_variable.hpp:37 | A notifier turns back at `num_waiting_` exactly when no fiber is between announcing its wait and the end of it |
| `FiberWaits.RunInv` | src/scheduler.cpp:393-484 | In every run of the condition variable and the workers as one machine no worker assertion fails, and a parked waiter is Yielded or Waiting on its worker, a woken one Queued, one elsewhere inside its wait the Running fiber |
| `FiberWaits.StepCoupled` | src/scheduler.cpp:419-451 | Every worker step moves a waiting fiber at most one stage on: suspended, queued, running; never to Idle |
| `FiberWaits.NotifiedIsWaiting` | include/marl/condition_variable.hpp:36-47 | The fiber a notifier is about to notify exists on its worker and is not idle |
| `FiberWaits.SuspendedIsOwed` | src/scheduler.cpp:393-417 | In every joint run with `notify_all`, a fiber inside its wait that its worker holds as Yielded or Waiting while the predicate is true is owed a notification |
| `WaitGroup.PerformInv` | include/marl/wait_group.hpp:20-40 | `add`, `done` and `wait` are steps of the condition-variable machine with predicate `count == 0`, and keep its invariant though the count changes outside the mutex |
| `WaitGroup.RunGroup` | include/marl/wait_group.hpp:20-40 | The same over every run |
| `WaitGroup.CountIsBalance` | include/marl/wait_group.hpp:20-27 | In every run the count is the initial count plus what was added less the number of `done` calls |
| `WaitGroup.WaitPassesIffAllDone` | include/marl/wait_group.hpp:37-40 | A fiber that looks gets past `wait` exactly at a moment when as many `done` calls were made as were announced |
| `WaitGroup.LastDoneNotifies` | include/marl/wait_group.hpp:28-33 | `done` goes on to notify exactly when it was the last |
| `WaitGroup.ZeroCountWakes` | include/marl/wait_group.hpp:25-34 | With the count at zero and a fiber parked in `wait`, some `done` stands between its decrement to zero and its notification of that fiber |
| `AutoEvent.SignalsConserved` | include/marl/event.hpp:106-149 | In every run, timed waits included: initial flag plus effective signals equal successful waits, successful tests and effective clears plus the current flag |
| `AutoEvent.PerformInv` | include/marl/event.hpp:31-64 | Each step of `wait`, `signal`, `test` and `clear` keeps the balance, the locks, and what a fiber holding the mutex has read |
| `EventHistory.FlagIsLastWord` | include/marl/event.hpp:31-64 | In every run the flag is what the last of `signal`, `clear`, `test` and successful waits made it |
| `EventHistory.SignalOnSetFlag` | include/marl/event.hpp:106-114 | `signal` notifies exactly when it found the flag clear, and on a set flag changes nothing |
| `EventHistory.ReturnsAsDecided` | include/marl/event.hpp:119-149 | A wait on the event returns true exactly when it read a set flag, false exactly when it got the mutex back after its deadline; without a deadline never false |
| `EventHistory.UntimedWaitConsumes` | include/marl/event.hpp:119-125 | Every untimed wait that returns found the flag set and resets it |
| `AutoEvent.CalmIsNoticed` | include/marl/condition_variable.hpp:21-33 | Under `Calm`, a flag that is set while the mutex is free leaves nobody parked or some woken fiber yet to recheck |
| `AutoEvent.TimedWaitSwallows` | src/scheduler.cpp:409-413 | From any fresh event with a timed waiter, another waiter and a signaller, a run leads to a fiber parked under a set flag with nobody to recheck |
| `AutoEvent.NoticedIffCalm` | include/marl/event.hpp:106-149 | Every run notices a set flag if and only if no wait is timed, or there is at most one waiter, or no signaller |
| `EventNet.Network.Create` | include/marl/event.hpp:19-23 | A new event is newer than all others and has no dependents |
| `EventNet.Network.Signal` | include/marl/event.hpp:106-118 | The recursion ends, takes mutexes in strictly increasing creation order, signals the least set closed under passing on from newly signalled events, and leaves every direct dependent signalled when it found its event clear |
| `EventNet.Network.Any` | include/marl/event.hpp:75-88 | Dependencies run only from older to newer events; each source gains the new event as dependent as often as it is listed, and nobody else does; it starts signalled exactly when a source is |
| `EventNet.SignalReaches` | include/marl/event.hpp:106-118 | An event ends up signalled if and only if it was before or a chain of clear events, each a dependent of the one before, leads to it from the signalled event |
| `EventLocks.RunInv` | include/marl/event.hpp:75-118 | With any number of threads inside `signal` and `any`, every thread holds and requests mutexes in creation order, and dependencies keep pointing from older to newer events |
| `EventLocks.NoDeadlock` | include/marl/event.hpp:106-118 | In every such run, as long as a call is unfinished some thread can go on |
| `EventLocks.RunDelivers` | include/marl/event.hpp:79-87 | Without resets, every dependent of a signalled event is signalled or some thread is still going to signal it |
| `EventLocks.QuietIsClosed` | include/marl/event.hpp:75-118 | Without resets, once all concurrent calls have returned every dependent of a signalled event is signalled |
| `EventLocks.SetEventReturns` | include/marl/event.hpp:107-108 | A `signal` that finds its event set returns and has changed nothing |
| `EventLocks.CallsHaveEffect` | include/marl/event.hpp:75-118 | Without resets, once all concurrent calls have returned every event on which `signal` was called is signalled and the event made by an `any` is a dependent of each source |
| `LinkedList.Unlink` | include/marl/containers.hpp:316-328 | Removes one entry from a doubly-linked chain, keeps the order of the others and clears its links |
| `LinkedList.Link` | include/marl/containers.hpp:329-337 | Puts an unlinked entry in front of a chain |
| `LinkedList.List.Grow` | include/marl/containers.hpp:348-377 | Adds `count` fresh entries in front of the free list and to the capacity |
| `LinkedList.List.EmplaceFront` | include/marl/containers.hpp:283-293 | The new entry comes first, all others keep place, identity and value; used and free chains stay disjoint, acyclic and partition the capacity, which is eight times a power of two and at most max(8, 2 * (peak - 1)) |
| `LinkedList.List.Erase` | include/marl/containers.hpp:294-300 | The others keep order, identity and value; the erased entry becomes free; capacity is unchanged |
| `SmallVector.Vector.Free` | include/marl/containers.hpp:208-217 | Destroys every element; a heap block is given back and leaves no storage behind, the inline buffer stays; count and capacity are kept |
| `SmallVector.Vector.Reserve` | include/marl/containers.hpp:179-197 | On a vector in order: same contents, exactly the slots below `count` constructed, at most one live heap block, elements moved only when the capacity was too small; right after `free()`: defined exactly when it need not grow or has nothing to move |
| `SmallVector.Vector.PushBack` | include/marl/containers.hpp:110-114 | Appends to the contents, at the cost the cost model charges |
| `SmallVector.Vector.PopBack` | include/marl/containers.hpp:121-125 | Drops the last element and keeps the capacity |
| `SmallVector.Vector.Resize` | include/marl/containers.hpp:168-178 | Cuts the contents or fills them up with default values |
| `SmallVector.Vector.Assign` | include/marl/containers.hpp:75-95 | With every access to a destroyed element or to storage given back ending the call as undefined: the assignment is defined and leaves a usable vector if and only if it grows an empty vector or does not grow one whose capacity is that of the inline buffer; then the contents are the other vector's |
| `SmallVector.AssignGoesWrong` | include/marl/containers.hpp:75-83 | Two elements assigned to one element in an inline buffer of one: not a usable vector |
| `SmallVector.AssignLosesStorage` | include/marl/containers.hpp:208-217 | One element assigned to an emptied vector that had grown: not a usable vector |
| `SmallVector.AppendsAreCheap` | include/marl/containers.hpp:179-197 | `m` appends to a fresh vector move fewer than `2 * m` elements, whatever the inline capacity |
| `Allocator.AlignUp` | include/marl/memory.hpp:23-25 | A multiple of the alignment, less than one alignment above the argument; an aligned argument is returned |
| `Allocator.AlignUpLeast` | include/marl/memory.hpp:23-25 | No aligned address lies between the argument and the result |
| `Allocator.LayoutFits` | src/memory.cpp:48-95 | User range, saved base and guard pages lie inside the block and apart from the user range; the low guard ends where the user range begins, the high one begins within a page of its end and closes the block |
| `Allocator.NothingToSpare` | src/memory.cpp:85-95 | A plain block is the user range; an aligned one has one byte to spare at the worst base |
| `Allocator.ResultAligned` | src/memory.cpp:119-120 | The user pointer is aligned, for guarded memory when the alignment divides the page |
| `Allocator.BaseIsFound` | src/memory.cpp:128-136 | From the user pointer and the original request, `free` finds the original base |
| `Allocator.DeleterFindsBase` | include/marl/memory.hpp:115-124 | `free` with the request `Deleter` passes finds the base whatever multiple of the granule `malloc` returned, if and only if the alignment divides the granule |
| `Allocator.DeleterMissesAll` | include/marl/memory.hpp:119-123 | Where the base was not aligned, the address that reaches the system begins no outstanding block |
| `Allocator.OverAlignedDelete` | include/marl/memory.hpp:150-170 | A concrete object of alignment 64 at base 16 for which that happens |
| `Allocator.DefaultAllocator.Allocate` | src/memory.cpp:108-126 | A new, aligned pointer (for guarded memory when the alignment divides the page) with its saved base; every other live allocation can still be freed |
| `Allocator.DefaultAllocator.Write` | src/memory.cpp:85-95 | A write inside a user range disturbs no saved base |
| `Allocator.DefaultAllocator.Free` | src/memory.cpp:128-136 | Gives back exactly the block the allocation came from, base and length; the blocks outstanding are exactly those of live allocations |

## Left out

- Stack switching, `OSFiber`, assembly and ucontext code: a switch sets the current fiber and resumes it where it was parked.
- Threads, affinity and thread names: calls into the operating system.
- Liveness, fairness and the join in `stop()`: in `WorkerModel` `shutdown` may become true at any step; `WorkerSleep` gives a run after which `stop()` waits for a thread that nobody is about to wake.
- Real clocks and spin durations: `now`, the end of a spin and the victim of a theft are arbitrary.
- The sleeping thread behind `Work::wait` in `WorkerModel`: a blocked worker may return whenever its condition holds or a timed waiter exists; the flag and the notifications are in `WorkerSleep`, where fibers and tasks are one queue.
- C++ memory ordering: atomics are sequentially consistent.
- Condition-variable waiters that are not fibers: they are handed to `std::condition_variable`.
- Notification of an idle fiber inside `WorkerInvariant.RunSafe`: its runs contain none; `IdleNotify` says what such a call leads to and `FiberWaits` that a condition variable makes none. In `FiberWaits`, notifications that come from elsewhere than the one condition variable are still taken to spare idle fibers.
- Integer widths: DAG counters, the wait-group count, sizes and addresses are unbounded; only the 32-bit ring and round-robin indices wrap.
- Out-of-memory: `malloc` and `mmap` always return a block apart from the live ones.
- Alignment zero: `allocate` would divide by zero in its assertion, so allocations are modelled for positive alignments.
- Allocator.DeleterFindsBase: speaks of unguarded requests only, since `create`, `make_unique` and `make_shared` never ask for guards.
- SmallVector.Vector.Assign: the source vector is given by its contents, so self-assignment and the emptying of a moved-from vector are not covered.
- The list's allocation chain and destructor, and iterators beyond entry identity.
- `Event` in `Mode::Manual`: its `notify_all` under the mutex is an instance of `NoLostWakeup`; the sequential network in `EventNet` does not track modes, since `signal` treats the flag and the dependents alike in both.
- EventNet.Network.Signal: one call at a time; interleaved calls are in `EventLocks`, without the condition variables inside the events, whose locks are taken last.
- EventLocks.QuietIsClosed: for runs without `clear`, `test` or a consuming wait, which may reset a dependent at any time.
- SpinRing.RingIsStack: takes each push and each pop as atomic, although index and slot are two atomics.
- `TrackedAllocator`, `StlAllocator`, `Scheduler::bind`/`unbind`, `blocking_call`, `parallelize`, `defer`, tracing and debugging: easy or plumbing.
