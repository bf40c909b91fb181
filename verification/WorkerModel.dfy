/** One `Scheduler::Worker` (src/scheduler.cpp) as a transition system.

    A step is what happens under `work_.mutex` between two places where the code gives the mutex up or
    could give it up; `pc` says where the worker's thread stands. A stack switch changes `current`
    and resumes the target where `parks` says it was left. Steps of other threads interleave whenever
    the mutex is free. Every `MARL_ASSERT` of the Worker code sets `failed` when it does not hold. */
module WorkerModel {
  import opened Wrappers

  /** `Fiber::State`. */
  datatype FiberState = Idle | Yielded | Waiting | Queued | Running

  /** Where a fiber's stack was left. */
  datatype Park =
    | Active        // it is the current fiber
    | Fresh         // created, run() not entered
    | InSuspend     // inside suspend(), behind switchToFiber
    | InIdleLoop    // inside runUntilIdle(), behind switchToFiber
    | Gone          // run() has returned

  /** Who called waitForWork(). */
  datatype Caller = FromSuspend | FromLoop

  datatype Pc =
    | User                      // user code or a task; mutex free
    | CheckWork(caller: Caller)     // waitForWork entered
    | Spinning(caller: Caller)      // spinForWork; mutex free
    | Blocked(caller: Caller)       // work_.wait; mutex free
    | GotWork(caller: Caller)       // waitForWork has returned
    | FirstWait                 // the work_.wait at the top of run(); mutex free
    | Loop                      // loop head of runUntilIdle
    | ShutdownTest              // loop condition of runUntilShutdown
    | Exited                    // the main fiber has left run() or stop(); mutex free for good

  datatype Task = Task(id: nat, sameThread: bool, home: nat)

  const MAIN: nat := 0

  datatype Worker = Worker(
    multiThreaded: bool,
    states: seq<FiberState>,    // indexed by fiber id; 0 is the main fiber
    parks: seq<Park>,
    current: nat,
    pc: Pc,
    num: int,
    blocked: int,               // num_blocked_fibers
    tasks: seq<Task>,
    queue: seq<nat>,            // work_.fibers
    waiting: map<nat, int>,     // work_.waiting, fiber to deadline
    idle: set<nat>,             // idle_fibers_
    shutdown: bool,
    mainLoops: bool,            // the main fiber is inside run() or stop()
    started: seq<Task>,         // history: tasks taken for execution, in order
    failed: bool)

  /** `start()`. */
  function Init(multiThreaded: bool): Worker {
    Worker(multiThreaded, [Running], [Active], MAIN, if multiThreaded then FirstWait else User,
           0, 0, [], [], map[], {}, false, multiThreaded, [], false)
  }

  predicate MutexFree(w: Worker) {
    w.pc.User? || w.pc.Spinning? || w.pc.Blocked? || w.pc.FirstWait? || w.pc.Exited?
  }

  /** Indices a step follows are in bounds. */
  predicate Sane(w: Worker) {
    && |w.parks| == |w.states| > 0
    && w.current < |w.states|
    && (forall i :: 0 <= i < |w.queue| ==> w.queue[i] < |w.states|)
    && (forall f :: f in w.idle ==> f < |w.states|)
  }

  // ---------------------------------------------------------------- switching

  /** `switchToFiber(to)` by a fiber that leaves its stack at `left`, and what `to` does first when resumed. */
  function SwitchTo(w: Worker, left: Park, to: nat): Worker
    requires |w.parks| == |w.states| && w.current < |w.states| && to < |w.states|
  {
    var misuse := w.failed || !(to == MAIN || to !in w.idle);
    var parks := w.parks[w.current := left];
    match parks[to]
    case InSuspend =>
      w.(current := to, parks := parks[to := Active], failed := misuse,
         blocked := w.blocked - 1, states := w.states[to := Running], pc := User)
    case InIdleLoop =>
      w.(current := to, parks := parks[to := Active], failed := misuse || w.states[to] != Idle,
         states := w.states[to := Running], pc := Loop)
    case Fresh =>
      w.(current := to, parks := parks[to := Active],
         failed := misuse || !(w.multiThreaded || w.states[to] == Running),
         pc := if w.multiThreaded then FirstWait else ShutdownTest)
    case _ => w.(current := to, parks := parks[to := Active], failed := true)
  }

  // ---------------------------------------------------------------- steps of the worker's own thread

  /** The first half of `suspend`. */
  function Suspend(w: Worker, timeout: Option<int>): Worker
    requires w.current < |w.states|
  {
    match timeout
    case Some(t) =>
      w.(states := w.states[w.current := Waiting], waiting := w.waiting[w.current := t], pc := CheckWork(FromSuspend),
         failed := w.failed || w.states[w.current] != Running || w.current in w.waiting)
    case None =>
      w.(states := w.states[w.current := Yielded], pc := CheckWork(FromSuspend),
         failed := w.failed || w.states[w.current] != Running)
  }

  /** `waitForWork` up to the point where it releases the mutex or returns. */
  function EnterWait(w: Worker): Worker
    requires w.pc.CheckWork?
  {
    w.(pc := if w.num > 0 then GotWork(w.pc.caller)
             else if w.multiThreaded then Spinning(w.pc.caller) else Blocked(w.pc.caller),
       failed := w.failed || w.num != |w.queue| + |w.tasks|)
  }

  datatype Timeout = Timeout(timepoint: int, fiber: nat)

  /** `Timeout::operator<`. */
  predicate Less(a: Timeout, b: Timeout) {
    if a.timepoint != b.timepoint then a.timepoint < b.timepoint else a.fiber < b.fiber
  }

  /** `f` waits ahead of `g`. */
  predicate Before(waiting: map<nat, int>, f: nat, g: nat) {
    f in waiting && g in waiting && Less(Timeout(waiting[f], f), Timeout(waiting[g], g))
  }

  /** `order` lists the fibers whose deadline has passed, earliest deadline first, ties by fiber. */
  ghost predicate Expired(waiting: map<nat, int>, now: int, order: seq<nat>) {
    && (forall f :: f in order <==> f in waiting && waiting[f] <= now)
    && (forall i, j :: 0 <= i < j < |order| ==> Before(waiting, order[i], order[j]))
  }

  function Requeue(states: seq<FiberState>, order: seq<nat>): seq<FiberState> {
    seq(|states|, f requires 0 <= f < |states| => if f in order then Queued else states[f])
  }

  /** The end of `waitForWork`: `enqueueFiberTimeouts` at clock reading `now`. */
  function WakeUp(w: Worker, order: seq<nat>): Worker
    requires w.pc.Blocked?
  {
    w.(states := Requeue(w.states, order),
       queue := w.queue + order,
       num := w.num + |order|,
       waiting := w.waiting - (set f | f in order),
       pc := GotWork(w.pc.caller),
       failed := w.failed || exists f :: f in order && (f >= |w.states| || w.states[f] != Waiting))
  }

  /** `suspend` takes the front of the fiber queue ... */
  function SuspendTakes(w: Worker): Worker
    requires Sane(w) && w.queue != []
  {
    w.(blocked := w.blocked + 1, num := w.num - 1, queue := w.queue[1..],
       failed := w.failed || w.states[w.queue[0]] != Queued)
  }

  /** ... and so does `runUntilIdle`, which leaves the current fiber behind as an idle one. */
  function LoopTakes(w: Worker): Worker
    requires Sane(w) && w.queue != []
  {
    var to := w.queue[0];
    var misuse := to in w.idle || to == w.current || w.states[to] != Queued
                  || w.states[w.current] != Running || w.current in w.idle;
    w.(num := w.num - 1, queue := w.queue[1..], failed := w.failed || misuse,
       states := w.states[w.current := Idle], idle := w.idle + {w.current})
  }

  /** The second half of `suspend`; `pick` is whatever `take(idle_fibers_)` yields. */
  function SwitchAway(w: Worker, pick: nat): Worker
    requires Sane(w) && (w.queue == [] && w.idle != {} ==> pick in w.idle)
  {
    if w.queue != [] then SwitchTo(SuspendTakes(w), InSuspend, w.queue[0])
    else if w.idle != {} then
      SwitchTo(w.(blocked := w.blocked + 1, idle := w.idle - {pick},
                  failed := w.failed || w.states[pick] != Idle), InSuspend, pick)
    else
      SwitchTo(w.(blocked := w.blocked + 1, states := w.states + [Running], parks := w.parks + [Fresh]),
               InSuspend, |w.states|)
  }

  /** One turn of the loops in `runUntilIdle`. */
  function LoopTurn(w: Worker): Worker
    requires Sane(w)
  {
    if w.queue != [] then SwitchTo(LoopTakes(w), InIdleLoop, w.queue[0])
    else if w.tasks != [] then
      w.(num := w.num - 1, tasks := w.tasks[1..], started := w.started + [w.tasks[0]], pc := User)
    else w.(pc := ShutdownTest)
  }

  /** `runUntilShutdown` decides whether to go on; a fiber that leaves switches to the main fiber. */
  function TestShutdown(w: Worker): Worker
    requires Sane(w)
  {
    if !w.shutdown || w.num > 0 || w.blocked > 0 then w.(pc := CheckWork(FromLoop))
    else if w.current == MAIN then w.(pc := Exited)
    else SwitchTo(w, Gone, MAIN)
  }

  function EnterLoop(w: Worker): Worker
    requires w.current < |w.states|
  {
    w.(pc := Loop, failed := w.failed || w.states[w.current] != Running || w.num != |w.queue| + |w.tasks|)
  }

  // ---------------------------------------------------------------- steps of any thread

  /** `enqueue(Task&&)`, `enqueueAndUnlock` and the push of a stolen task. */
  function EnqueueTask(w: Worker, t: Task): Worker {
    w.(tasks := w.tasks + [t], num := w.num + 1)
  }

  /** `enqueue(Fiber*)`. */
  function EnqueueFiber(w: Worker, f: nat): Worker
    requires f < |w.states|
  {
    match w.states[f]
    case Running => w
    case Queued => w
    case _ =>
      var waiting := if w.states[f] == Waiting then w.waiting - {f} else w.waiting;
      w.(waiting := waiting, queue := w.queue + [f], states := w.states[f := Queued], num := w.num + 1,
         failed := w.failed || f in waiting)
  }

  /** A successful `steal`. */
  predicate CanSteal(w: Worker) {
    w.num != 0 && w.tasks != [] && !w.tasks[0].sameThread
  }

  function StealFront(w: Worker): Worker
    requires w.tasks != []
  {
    w.(num := w.num - 1, tasks := w.tasks[1..])
  }

  // ---------------------------------------------------------------- runs

  datatype Action =
    | DoSuspend(timeout: Option<int>)
    | DoTaskReturns
    | DoStop
    | DoEnterWait
    | DoSpinEnds
    | DoWakeUp(now: int, order: seq<nat>)
    | DoFirstWakeUp
    | DoSwitchAway(pick: nat)
    | DoEnterLoop
    | DoLoopTurn
    | DoTestShutdown
    | DoEnqueueTask(task: Task)
    | DoEnqueueFiber(fiber: nat)
    | DoSteal
    | DoShutdown

  /** Fibers in a condition variable's list are inside a wait, so a notified fiber is not idle. */
  ghost predicate Enabled(w: Worker, a: Action) {
    Sane(w) &&
    match a
    case DoSuspend(_) => w.pc.User?
    case DoTaskReturns => w.pc.User? && (w.current != MAIN || w.mainLoops)
    case DoStop => w.pc.User? && !w.multiThreaded && w.current == MAIN && !w.mainLoops
    case DoEnterWait => w.pc.CheckWork?
    case DoSpinEnds => w.pc.Spinning?
    case DoWakeUp(now, order) =>
      && w.pc.Blocked?
      && (w.num > 0 || (w.shutdown && w.blocked == 0) || w.waiting != map[])
      && Expired(w.waiting, now, order)
    case DoFirstWakeUp => w.pc.FirstWait? && (w.num > 0 || w.waiting != map[] || w.shutdown)
    case DoSwitchAway(pick) => w.pc == GotWork(FromSuspend) && (w.queue == [] && w.idle != {} ==> pick in w.idle)
    case DoEnterLoop => w.pc == GotWork(FromLoop)
    case DoLoopTurn => w.pc.Loop?
    case DoTestShutdown => w.pc.ShutdownTest?
    case DoEnqueueTask(_) => MutexFree(w)
    case DoEnqueueFiber(f) => MutexFree(w) && f < |w.states| && w.states[f] != Idle
    case DoSteal => MutexFree(w) && CanSteal(w)
    case DoShutdown => w.multiThreaded
  }

  ghost function Apply(w: Worker, a: Action): Worker
    requires Enabled(w, a)
  {
    match a
    case DoSuspend(timeout) => Suspend(w, timeout)
    case DoTaskReturns => w.(pc := Loop)
    case DoStop => w.(shutdown := true, mainLoops := true, pc := ShutdownTest)
    case DoEnterWait => EnterWait(w)
    case DoSpinEnds => w.(pc := Blocked(w.pc.caller))
    case DoWakeUp(_, order) => WakeUp(w, order)
    case DoFirstWakeUp => w.(pc := ShutdownTest, failed := w.failed || w.states[w.current] != Running)
    case DoSwitchAway(pick) => SwitchAway(w, pick)
    case DoEnterLoop => EnterLoop(w)
    case DoLoopTurn => LoopTurn(w)
    case DoTestShutdown => TestShutdown(w)
    case DoEnqueueTask(t) => EnqueueTask(w, t)
    case DoEnqueueFiber(f) => EnqueueFiber(w, f)
    case DoSteal => StealFront(w)
    case DoShutdown => w.(shutdown := true)
  }

  ghost function Then(r: Option<Worker>, a: Action): Option<Worker> {
    if r.Some? && Enabled(r.value, a) then Some(Apply(r.value, a)) else None
  }

  /** The state after a sequence of actions, `None` when one of them is not possible. */
  ghost function ExecFrom(start: Worker, actions: seq<Action>): Option<Worker> {
    if actions == [] then Some(start)
    else Then(ExecFrom(start, actions[..|actions| - 1]), actions[|actions| - 1])
  }

  lemma ExecLast(start: Worker, actions: seq<Action>, a: Action)
    ensures ExecFrom(start, actions + [a]) == Then(ExecFrom(start, actions), a)
  {
    assert (actions + [a])[..|actions|] == actions;
  }

  ghost function Exec(multiThreaded: bool, actions: seq<Action>): Option<Worker> {
    ExecFrom(Init(multiThreaded), actions)
  }
}
