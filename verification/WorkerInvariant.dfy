/** What every step of a worker keeps. */
module WorkerInvariant {
  import opened Wrappers
  import opened WorkerModel

  // ---------------------------------------------------------------- counting parked fibers

  ghost function CountParked(parks: seq<Park>, p: Park): nat {
    if parks == [] then 0 else CountParked(parks[..|parks| - 1], p) + if parks[|parks| - 1] == p then 1 else 0
  }

  lemma {:induction false} CountUpdate(parks: seq<Park>, i: nat, q: Park, p: Park)
    requires i < |parks|
    ensures CountParked(parks[i := q], p)
         == CountParked(parks, p) + (if q == p then 1 else 0) - (if parks[i] == p then 1 else 0)
  {
    var last := |parks| - 1;
    if i == last {
      assert parks[i := q][..last] == parks[..last];
    } else {
      CountUpdate(parks[..last], i, q, p);
      assert parks[i := q][..last] == parks[..last][i := q];
    }
  }

  lemma {:induction false} CountZero(parks: seq<Park>, p: Park, i: nat)
    requires i < |parks| && CountParked(parks, p) == 0
    ensures parks[i] != p
  {
    if i == |parks| - 1 {
    } else {
      CountZero(parks[..|parks| - 1], p, i);
    }
  }

  lemma CountAppend(parks: seq<Park>, q: Park, p: Park)
    ensures CountParked(parks + [q], p) == CountParked(parks, p) + if q == p then 1 else 0
  {
    assert (parks + [q])[..|parks|] == parks;
  }

  // ---------------------------------------------------------------- the invariant

  ghost predicate Suspending(pc: Pc) {
    (pc.CheckWork? || pc.Spinning? || pc.Blocked? || pc.GotWork?) && pc.caller == FromSuspend
  }

  predicate InWait(s: FiberState) {
    s == Yielded || s == Waiting || s == Queued
  }

  /** The state of one fiber agrees with its membership in the containers and with where its stack was left. */
  predicate Agrees(state: FiberState, park: Park, isCurrent: bool, suspending: bool,
                   queued: bool, waiting: bool, idle: bool) {
    && (state == Queued <==> queued)
    && (state == Waiting <==> waiting)
    && (state == Idle <==> idle)
    && (park == Active <==> isCurrent)
    && (isCurrent ==> if suspending then InWait(state) else state == Running)
    && (!isCurrent ==> (park == InSuspend && InWait(state)) || (park == InIdleLoop && state == Idle))
  }

  ghost predicate FiberOk(w: Worker, f: nat)
    requires |w.parks| == |w.states| && f < |w.states|
  {
    Agrees(w.states[f], w.parks[f], f == w.current, Suspending(w.pc), f in w.queue, f in w.waiting, f in w.idle)
  }

  ghost predicate FibersOk(w: Worker)
    requires |w.parks| == |w.states|
  {
    forall f: nat :: f < |w.states| ==> FiberOk(w, f)
  }

  ghost predicate NoRepeats(q: seq<nat>) {
    forall i, j :: 0 <= i < j < |q| ==> q[i] != q[j]
  }

  ghost predicate InRange(w: Worker) {
    && Sane(w)
    && (forall f :: f in w.waiting ==> f < |w.states|)
  }

  ghost predicate CountsOk(w: Worker) {
    && w.num == |w.queue| + |w.tasks|
    && w.blocked == CountParked(w.parks, InSuspend)
  }

  /** The worker before it hands control back to its main fiber for good. */
  ghost predicate Inv(w: Worker) {
    && !w.failed
    && !w.pc.Exited?
    && InRange(w)
    && NoRepeats(w.queue)
    && CountsOk(w)
    && FibersOk(w)
  }

  /** Nothing is left to do: no task, no queued fiber, no timed waiter, and every other fiber's stack is
      empty down to the idle loop. */
  ghost predicate NothingLeft(w: Worker) {
    && |w.parks| == |w.states| && w.current < |w.states|
    && w.shutdown && w.num == 0 && w.blocked == 0
    && w.tasks == [] && w.queue == [] && w.waiting == map[]
    && (forall f: nat :: f < |w.states| && f != w.current ==>
          (w.parks[f] == InIdleLoop && w.states[f] == Idle) || (w.parks[f] == Gone && w.states[f] == Running))
    && w.states[w.current] == Running
  }

  /** After the last fiber has left `run()`: the main fiber is on its way out. */
  ghost predicate HandedOff(w: Worker) {
    !w.failed && Sane(w) && w.current == MAIN && (w.pc.Loop? || w.pc.ShutdownTest?) && NothingLeft(w)
  }

  /** Tasks may still be pushed onto a worker that has exited, and stolen from it; nothing else happens to it. */
  ghost predicate Stopped(w: Worker) {
    && !w.failed && Sane(w) && w.current == MAIN && w.pc.Exited?
    && w.num == |w.tasks| && w.queue == [] && w.waiting == map[]
    && (forall f: nat :: f < |w.states| ==> w.states[f] == Idle || w.states[f] == Running)
  }

  ghost predicate Safe(w: Worker) {
    Inv(w) || HandedOff(w) || Stopped(w)
  }

  lemma InitInv(multiThreaded: bool)
    ensures Inv(Init(multiThreaded))
  {
    var w := Init(multiThreaded);
    CountAppend([], Active, InSuspend);
    assert w.parks == [] + [Active];
  }

  // ---------------------------------------------------------------- steps that do not switch

  lemma SuspendInv(w: Worker, timeout: Option<int>)
    requires Inv(w) && w.pc.User?
    ensures Inv(Suspend(w, timeout))
  {
    var w' := Suspend(w, timeout);
    assert FiberOk(w, w.current);
    forall f: nat | f < |w'.states| ensures FiberOk(w', f) {
      assert FiberOk(w, f);
    }
  }

  lemma EnterWaitInv(w: Worker)
    requires Inv(w) && w.pc.CheckWork?
    ensures Inv(EnterWait(w))
  {
    var w' := EnterWait(w);
    forall f: nat | f < |w'.states| ensures FiberOk(w', f) {
      assert FiberOk(w, f);
    }
  }

  lemma PcInv(w: Worker, pc: Pc)
    requires Inv(w) && !pc.Exited? && Suspending(pc) == Suspending(w.pc)
    ensures Inv(w.(pc := pc))
  {
    forall f: nat | f < |w.states| ensures FiberOk(w.(pc := pc), f) {
      assert FiberOk(w, f);
    }
  }

  lemma StopInv(w: Worker)
    requires Inv(w) && w.pc.User?
    ensures Inv(w.(shutdown := true, mainLoops := true, pc := ShutdownTest))
  {
    var w' := w.(shutdown := true, mainLoops := true, pc := ShutdownTest);
    forall f: nat | f < |w'.states| ensures FiberOk(w', f) {
      assert FiberOk(w, f);
    }
  }

  lemma ShutdownInv(w: Worker)
    requires Inv(w)
    ensures Inv(w.(shutdown := true))
  {
    var w' := w.(shutdown := true);
    forall f: nat | f < |w'.states| ensures FiberOk(w', f) {
      assert FiberOk(w, f);
    }
  }

  lemma WakeUpInv(w: Worker, now: int, order: seq<nat>)
    requires Inv(w) && w.pc.Blocked? && Expired(w.waiting, now, order)
    ensures Inv(WakeUp(w, order))
  {
    var w' := WakeUp(w, order);
    forall f | f in order ensures f < |w.states| && w.states[f] == Waiting {
      assert FiberOk(w, f);
    }
    forall i | 0 <= i < |w'.queue| ensures w'.queue[i] < |w'.states| {
      assert i >= |w.queue| ==> order[i - |w.queue|] in order;
    }
    forall f: nat | f < |w'.states| ensures FiberOk(w', f) {
      assert FiberOk(w, f);
    }
    forall i, j | 0 <= i < j < |w'.queue| ensures w'.queue[i] != w'.queue[j] {
      if i < |w.queue| <= j {
        assert FiberOk(w, w.queue[i]);
        assert order[j - |w.queue|] in order;
      }
    }
  }

  lemma EnterLoopInv(w: Worker)
    requires Inv(w) && w.pc == GotWork(FromLoop)
    ensures Inv(EnterLoop(w))
  {
    assert FiberOk(w, w.current);
    var w' := EnterLoop(w);
    forall f: nat | f < |w'.states| ensures FiberOk(w', f) {
      assert FiberOk(w, f);
    }
  }

  lemma EnqueueTaskInv(w: Worker, t: Task)
    requires Inv(w)
    ensures Inv(EnqueueTask(w, t))
  {
    var w' := EnqueueTask(w, t);
    forall f: nat | f < |w'.states| ensures FiberOk(w', f) {
      assert FiberOk(w, f);
    }
  }

  lemma StealInv(w: Worker)
    requires Inv(w) && CanSteal(w)
    ensures Inv(StealFront(w))
  {
    var w' := StealFront(w);
    forall f: nat | f < |w'.states| ensures FiberOk(w', f) {
      assert FiberOk(w, f);
    }
  }

  lemma EnqueueFiberInv(w: Worker, f: nat)
    requires Inv(w) && MutexFree(w) && f < |w.states| && w.states[f] != Idle
    ensures Inv(EnqueueFiber(w, f))
  {
    var w' := EnqueueFiber(w, f);
    assert FiberOk(w, f);
    forall g: nat | g < |w'.states| ensures FiberOk(w', g) {
      assert FiberOk(w, g);
    }
  }

  /** `enqueue(Fiber*)` keeps the worker consistent exactly when its target is not idle. On an idle fiber it leaves
      the fiber in `idle_fibers_` while queueing it. */
  lemma EnqueueKeepsInvIff(w: Worker, f: nat)
    requires Inv(w) && MutexFree(w) && f < |w.states|
    ensures Inv(EnqueueFiber(w, f)) <==> w.states[f] != Idle
  {
    if w.states[f] == Idle {
      assert FiberOk(w, f);
      assert !FiberOk(EnqueueFiber(w, f), f);
    } else {
      EnqueueFiberInv(w, f);
    }
  }

  /** What it does to the two containers. */
  lemma EnqueueFiberMoves(w: Worker, f: nat)
    requires Inv(w) && f < |w.states|
    ensures EnqueueFiber(w, f).waiting == w.waiting - {f} && !EnqueueFiber(w, f).failed
    ensures EnqueueFiber(w, f).queue
         == if w.states[f] == Running || w.states[f] == Queued then w.queue else w.queue + [f]
  {
    assert FiberOk(w, f);
  }

  // ---------------------------------------------------------------- steps that switch

  lemma PopFront(q: seq<nat>)
    requires q != [] && NoRepeats(q)
    ensures NoRepeats(q[1..])
    ensures forall f :: f in q[1..] <==> f in q && f != q[0]
  {
    assert q == [q[0]] + q[1..];
  }

  lemma SwitchCounts(w: Worker, left: Park, to: nat)
    requires |w.parks| == |w.states| && w.current < |w.states| && to < |w.states|
    requires w.blocked == CountParked(w.parks[w.current := left], InSuspend)
    ensures SwitchTo(w, left, to).blocked == CountParked(SwitchTo(w, left, to).parks, InSuspend)
  {
    CountUpdate(w.parks[w.current := left], to, Active, InSuspend);
  }

  ghost predicate FrontTaken(w: Worker, f: nat)
    requires |w.parks| == |w.states|
  {
    && w.queue != [] && w.queue[0] < |w.states| && w.current < |w.states| && f < |w.states|
    && FiberOk(w, f) && FiberOk(w, w.queue[0]) && FiberOk(w, w.current)
    && (f in w.queue[1..] <==> f in w.queue && f != w.queue[0])
  }

  /** Resuming a fiber left inside `suspend`. */
  ghost function Resumed(w: Worker, left: Park, to: nat): Worker
    requires |w.parks| == |w.states| && w.current < |w.states| && to < |w.states|
  {
    w.(current := to, parks := w.parks[w.current := left][to := Active], blocked := w.blocked - 1,
       states := w.states[to := Running], pc := User)
  }

  lemma ResumedIsSwitch(w: Worker, left: Park, to: nat)
    requires |w.parks| == |w.states| && w.current < |w.states| && to < |w.states|
    requires w.parks[w.current := left][to] == InSuspend && to !in w.idle
    ensures SwitchTo(w, left, to) == Resumed(w, left, to)
  {
  }

  lemma QueuedFiberOk(w: Worker, f: nat)
    requires Sane(w) && FrontTaken(w, f) && w.pc == GotWork(FromSuspend)
    ensures FiberOk(Resumed(SuspendTakes(w), InSuspend, w.queue[0]), f)
  {
  }

  lemma LoopFiberOk(w: Worker, f: nat)
    requires Sane(w) && FrontTaken(w, f) && w.pc.Loop?
    ensures FiberOk(Resumed(LoopTakes(w), InIdleLoop, w.queue[0]), f)
  {
  }

  /** Everything but the fibers themselves, once the target has been resumed. */
  lemma ResumedRest(w: Worker, left: Park, to: nat)
    requires !w.failed && InRange(w) && NoRepeats(w.queue) && to < |w.states|
    requires w.num == |w.queue| + |w.tasks|
    requires w.blocked == CountParked(w.parks[w.current := left], InSuspend)
    requires w.parks[w.current := left][to] == InSuspend
    ensures var w' := Resumed(w, left, to);
            !w'.failed && !w'.pc.Exited? && InRange(w') && NoRepeats(w'.queue) && CountsOk(w')
  {
    CountUpdate(w.parks[w.current := left], to, Active, InSuspend);
  }

  lemma QueuedResult(w: Worker)
    requires Inv(w) && w.pc == GotWork(FromSuspend) && w.queue != []
    ensures var w1 := SuspendTakes(w);
            && w1.parks[w.current := InSuspend][w.queue[0]] == InSuspend
            && SwitchAway(w, 0) == Resumed(w1, InSuspend, w.queue[0])
  {
    assert FiberOk(w, w.queue[0]) && FiberOk(w, w.current);
    ResumedIsSwitch(SuspendTakes(w), InSuspend, w.queue[0]);
  }

  lemma SwitchToQueued(w: Worker)
    requires Inv(w) && w.pc == GotWork(FromSuspend) && w.queue != []
    ensures Inv(SwitchAway(w, 0))
  {
    var to := w.queue[0];
    PopFront(w.queue);
    QueuedResult(w);
    assert FiberOk(w, to) && FiberOk(w, w.current);
    var w1 := SuspendTakes(w);
    CountUpdate(w.parks, w.current, InSuspend, InSuspend);
    ResumedRest(w1, InSuspend, to);
    var w' := Resumed(w1, InSuspend, to);
    forall f: nat | f < |w'.states| ensures FiberOk(w', f) {
      assert FiberOk(w, f);
      QueuedFiberOk(w, f);
    }
  }

  lemma SwitchToIdle(w: Worker, pick: nat)
    requires Inv(w) && w.pc == GotWork(FromSuspend) && w.queue == [] && pick in w.idle
    ensures Inv(SwitchAway(w, pick))
  {
    var w1 := w.(blocked := w.blocked + 1, idle := w.idle - {pick});
    assert FiberOk(w, pick) && FiberOk(w, w.current);
    CountUpdate(w.parks, w.current, InSuspend, InSuspend);
    SwitchCounts(w1, InSuspend, pick);
    var w' := SwitchTo(w1, InSuspend, pick);
    forall f: nat | f < |w'.states| ensures FiberOk(w', f) {
      assert FiberOk(w, f);
    }
  }

  /** The worker once it has created a fiber and switched to it. */
  ghost function StartedFresh(w: Worker): Worker
    requires |w.parks| == |w.states| && w.current < |w.states|
  {
    w.(blocked := w.blocked + 1, states := w.states + [Running],
       parks := w.parks[w.current := InSuspend] + [Active], current := |w.states|,
       pc := if w.multiThreaded then FirstWait else ShutdownTest)
  }

  lemma FreshResult(w: Worker, pick: nat)
    requires Sane(w) && w.queue == [] && w.idle == {}
    ensures SwitchAway(w, pick) == StartedFresh(w)
  {
    var w1 := w.(blocked := w.blocked + 1, states := w.states + [Running], parks := w.parks + [Fresh]);
    assert w1.parks[w.current := InSuspend][|w.states| := Active] == w.parks[w.current := InSuspend] + [Active];
  }

  lemma FreshFiberOk(w: Worker, f: nat)
    requires |w.parks| == |w.states| && w.current < |w.states| && f < |w.states| && w.pc == GotWork(FromSuspend)
    requires FiberOk(w, f) && FiberOk(w, w.current)
    ensures FiberOk(StartedFresh(w), f)
  {
  }

  lemma SwitchToFresh(w: Worker, pick: nat)
    requires Inv(w) && w.pc == GotWork(FromSuspend) && w.queue == [] && w.idle == {}
    ensures Inv(SwitchAway(w, pick))
  {
    FreshResult(w, pick);
    assert FiberOk(w, w.current);
    CountUpdate(w.parks, w.current, InSuspend, InSuspend);
    CountAppend(w.parks[w.current := InSuspend], Active, InSuspend);
    var w' := StartedFresh(w);
    forall f: nat | f < |w'.states| ensures FiberOk(w', f) {
      if f < |w.states| {
        assert FiberOk(w, f);
        FreshFiberOk(w, f);
      }
    }
  }

  lemma LoopResult(w: Worker)
    requires Inv(w) && w.pc.Loop? && w.queue != []
    ensures var w1 := LoopTakes(w);
            && w1.parks[w.current := InIdleLoop][w.queue[0]] == InSuspend
            && LoopTurn(w) == Resumed(w1, InIdleLoop, w.queue[0])
  {
    assert FiberOk(w, w.queue[0]) && FiberOk(w, w.current);
    ResumedIsSwitch(LoopTakes(w), InIdleLoop, w.queue[0]);
  }

  lemma LoopResumes(w: Worker)
    requires Inv(w) && w.pc.Loop? && w.queue != []
    ensures Inv(LoopTurn(w))
  {
    var to := w.queue[0];
    PopFront(w.queue);
    LoopResult(w);
    assert FiberOk(w, to) && FiberOk(w, w.current);
    var w1 := LoopTakes(w);
    CountUpdate(w.parks, w.current, InIdleLoop, InSuspend);
    ResumedRest(w1, InIdleLoop, to);
    var w' := Resumed(w1, InIdleLoop, to);
    forall f: nat | f < |w'.states| ensures FiberOk(w', f) {
      assert FiberOk(w, f);
      LoopFiberOk(w, f);
    }
  }

  lemma LoopTurnInv(w: Worker)
    requires Inv(w) && w.pc.Loop?
    ensures Inv(LoopTurn(w))
  {
    if w.queue != [] {
      LoopResumes(w);
    } else {
      var w' := LoopTurn(w);
      forall f: nat | f < |w'.states| ensures FiberOk(w', f) {
        assert FiberOk(w, f);
      }
    }
  }

  /** The assertions made while the front of the queue is taken off in the idle loop, and the switch itself. */
  lemma LoopFrontOk(w: Worker)
    requires Inv(w) && w.pc.Loop? && w.queue != []
    ensures var to := w.queue[0];
            && to !in w.idle && to != w.current && w.states[to] == Queued
            && w.states[w.current] == Running && w.current !in w.idle
            && !LoopTakes(w).failed && !LoopTurn(w).failed
  {
    assert FiberOk(w, w.queue[0]) && FiberOk(w, w.current);
    LoopResult(w);
    ResumedIsSwitch(LoopTakes(w), InIdleLoop, w.queue[0]);
  }

  /** The same for the two ways in which `suspend` resumes an existing fiber. */
  lemma QueuedFrontOk(w: Worker)
    requires Inv(w) && w.pc == GotWork(FromSuspend) && w.queue != []
    ensures w.states[w.queue[0]] == Queued
    ensures !SuspendTakes(w).failed && !SwitchAway(w, 0).failed
  {
    assert FiberOk(w, w.queue[0]) && FiberOk(w, w.current);
    QueuedResult(w);
    ResumedIsSwitch(SuspendTakes(w), InSuspend, w.queue[0]);
  }

  lemma IdlePickOk(w: Worker, pick: nat)
    requires Inv(w) && w.pc == GotWork(FromSuspend) && w.queue == [] && pick in w.idle
    ensures w.states[pick] == Idle
    ensures SwitchTo(w.(blocked := w.blocked + 1, idle := w.idle - {pick}), InSuspend, pick) == SwitchAway(w, pick)
    ensures !SwitchAway(w, pick).failed
  {
    SwitchToIdle(w, pick);
    assert FiberOk(w, pick);
  }

  /** When `runUntilShutdown` gives up, there is nothing left to do anywhere on this worker. */
  lemma LeavingMeansNothingLeft(w: Worker)
    requires Inv(w) && w.pc.ShutdownTest? && w.shutdown && w.num == 0 && w.blocked == 0
    ensures NothingLeft(w)
    ensures w.current != MAIN ==> w.parks[MAIN] == InIdleLoop && w.states[MAIN] == Idle
  {
    assert FiberOk(w, w.current);
    forall f: nat | f < |w.states| && f != w.current
      ensures w.parks[f] == InIdleLoop && w.states[f] == Idle && f !in w.waiting
    {
      assert FiberOk(w, f);
      CountZero(w.parks, InSuspend, f);
    }
  }

  /** Leaving `runUntilShutdown` ends in the main fiber, directly or through the hand-off, with nothing left. */
  lemma TestShutdownSafe(w: Worker)
    requires Inv(w) && w.pc.ShutdownTest?
    ensures Safe(TestShutdown(w))
    ensures w.shutdown && w.num == 0 && w.blocked == 0 ==>
              (HandedOff(TestShutdown(w)) || Stopped(TestShutdown(w))) && NothingLeft(TestShutdown(w))
  {
    if !w.shutdown || w.num > 0 || w.blocked > 0 {
      PcInv(w, CheckWork(FromLoop));
    } else {
      LeavingMeansNothingLeft(w);
    }
  }

  // ---------------------------------------------------------------- all steps, all runs

  lemma SwitchAwayInv(w: Worker, pick: nat)
    requires Inv(w) && w.pc == GotWork(FromSuspend) && (w.queue == [] && w.idle != {} ==> pick in w.idle)
    ensures Inv(SwitchAway(w, pick))
  {
    if w.queue != [] {
      SwitchToQueued(w);
    } else if w.idle != {} {
      SwitchToIdle(w, pick);
    } else {
      SwitchToFresh(w, pick);
    }
  }

  lemma FirstWakeUpInv(w: Worker)
    requires Inv(w) && w.pc.FirstWait?
    ensures w.states[w.current] == Running
    ensures Inv(w.(pc := ShutdownTest))
  {
    assert FiberOk(w, w.current);
    PcInv(w, ShutdownTest);
  }

  lemma StepSafe(w: Worker, a: Action)
    requires Inv(w) && Enabled(w, a)
    ensures Safe(Apply(w, a))
  {
    match a
    case DoSuspend(timeout) => SuspendInv(w, timeout);
    case DoTaskReturns => PcInv(w, Loop);
    case DoStop => StopInv(w);
    case DoEnterWait => EnterWaitInv(w);
    case DoSpinEnds => PcInv(w, Blocked(w.pc.caller));
    case DoWakeUp(now, order) => WakeUpInv(w, now, order);
    case DoFirstWakeUp => FirstWakeUpInv(w);
    case DoSwitchAway(pick) => SwitchAwayInv(w, pick);
    case DoEnterLoop => EnterLoopInv(w);
    case DoLoopTurn => LoopTurnInv(w);
    case DoTestShutdown => TestShutdownSafe(w);
    case DoEnqueueTask(t) => EnqueueTaskInv(w, t);
    case DoEnqueueFiber(f) => EnqueueFiberInv(w, f);
    case DoSteal => StealInv(w);
    case DoShutdown => ShutdownInv(w);
  }

  /** From the hand-off the main fiber walks out of its loops and takes no further task. */
  lemma HandOffWalksOut(w: Worker, a: Action)
    requires HandedOff(w) && Enabled(w, a)
    ensures HandedOff(Apply(w, a)) || (Stopped(Apply(w, a)) && NothingLeft(Apply(w, a)))
    ensures Apply(w, a).started == w.started
    ensures a != DoShutdown ==>
              && (w.pc.Loop? ==> Apply(w, a).pc.ShutdownTest?)
              && (w.pc.ShutdownTest? ==> Apply(w, a).pc.Exited?)
  {
  }

  lemma StoppedStays(w: Worker, a: Action)
    requires Stopped(w) && Enabled(w, a)
    ensures Stopped(Apply(w, a)) && Apply(w, a).started == w.started
  {
  }

  lemma SafeStep(w: Worker, a: Action)
    requires Safe(w) && Enabled(w, a)
    ensures Safe(Apply(w, a))
  {
    if Inv(w) {
      StepSafe(w, a);
    } else if HandedOff(w) {
      HandOffWalksOut(w, a);
    } else {
      StoppedStays(w, a);
    }
  }

  lemma {:induction false} SafeFrom(start: Worker, actions: seq<Action>)
    requires Safe(start) && ExecFrom(start, actions).Some?
    ensures Safe(ExecFrom(start, actions).value)
  {
    if actions == [] {
    } else {
      var last := |actions| - 1;
      SafeFrom(start, actions[..last]);
      SafeStep(ExecFrom(start, actions[..last]).value, actions[last]);
    }
  }

  /** In every reachable state of every run, no `MARL_ASSERT` of the worker has failed, and states, stacks,
      containers and counters agree until the worker hands back to its main fiber for good. */
  lemma RunSafe(multiThreaded: bool, actions: seq<Action>)
    requires Exec(multiThreaded, actions).Some?
    ensures Safe(Exec(multiThreaded, actions).value)
    ensures !Exec(multiThreaded, actions).value.failed
  {
    InitInv(multiThreaded);
    SafeFrom(Init(multiThreaded), actions);
  }

  lemma OnlyTestExits(w: Worker, a: Action)
    requires Inv(w) && Enabled(w, a) && Apply(w, a).pc.Exited?
    ensures a == DoTestShutdown
  {
    if a.DoSwitchAway? {
      SwitchAwayInv(w, a.pick);
    } else if a.DoLoopTurn? {
      LoopTurnInv(w);
    }
  }

  /** Over every run: at the step with which the worker exits, it leaves no task, no queued fiber, no timed waiter
      and no half-finished work on any fiber. */
  lemma ExitLeavesNothing(multiThreaded: bool, actions: seq<Action>, a: Action)
    requires Exec(multiThreaded, actions + [a]).Some? && Exec(multiThreaded, actions).Some?
    requires !Exec(multiThreaded, actions).value.pc.Exited? && Exec(multiThreaded, actions + [a]).value.pc.Exited?
    ensures NothingLeft(Exec(multiThreaded, actions + [a]).value)
    ensures Stopped(Exec(multiThreaded, actions + [a]).value)
  {
    var w := Exec(multiThreaded, actions).value;
    ExecLast(Init(multiThreaded), actions, a);
    RunSafe(multiThreaded, actions);
    if Inv(w) {
      OnlyTestExits(w, a);
      TestShutdownSafe(w);
    } else {
      HandOffWalksOut(w, a);
    }
  }

  lemma StoppedStep(multiThreaded: bool, actions: seq<Action>, a: Action)
    requires Exec(multiThreaded, actions + [a]).Some?
    ensures Exec(multiThreaded, actions).Some?
    ensures var w, w' := Exec(multiThreaded, actions).value, Exec(multiThreaded, actions + [a]).value;
            Stopped(w) ==> Stopped(w') && w'.started == w.started
  {
    ExecLast(Init(multiThreaded), actions, a);
    var w := Exec(multiThreaded, actions).value;
    if Stopped(w) {
      StoppedStays(w, a);
    }
  }

  /** After the exit, whatever is done to the worker, its list of started tasks never grows again. */
  lemma {:induction false} ExitIsFinal(multiThreaded: bool, actions: seq<Action>, more: seq<Action>)
    requires Exec(multiThreaded, actions).Some? && Exec(multiThreaded, actions).value.pc.Exited?
    requires Exec(multiThreaded, actions + more).Some?
    ensures Stopped(Exec(multiThreaded, actions + more).value)
    ensures Exec(multiThreaded, actions + more).value.started == Exec(multiThreaded, actions).value.started
  {
    if more == [] {
      assert actions + more == actions;
      RunSafe(multiThreaded, actions);
    } else {
      var before := actions + more[..|more| - 1];
      var a := more[|more| - 1];
      assert actions + more == before + [a];
      StoppedStep(multiThreaded, before, a);
      ExitIsFinal(multiThreaded, actions, more[..|more| - 1]);
    }
  }
}
