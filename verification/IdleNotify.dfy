/** What `enqueue(Fiber*)` on an idle fiber does to a worker: an assertion of the source is then bound to fail before
    the fiber leaves the queue, and before the worker exits. */
module IdleNotify {
  import opened Wrappers
  import opened WorkerModel
  import opened WorkerInvariant

  /** `f` is queued while it is still in `idle_fibers_`, its stack left in the idle loop. */
  ghost predicate Doomed(w: Worker, f: nat) {
    && f < |w.states| && f < |w.parks| && f != w.current
    && f in w.queue && f in w.idle && f !in w.waiting
    && w.states[f] == Queued && w.parks[f] == InIdleLoop
    && w.num == |w.queue| + |w.tasks|
    && !w.pc.Exited?
  }

  ghost predicate DoomedOrFailed(w: Worker, f: nat) {
    w.failed || Doomed(w, f)
  }

  lemma IdleIsDoomed(w: Worker, f: nat)
    requires Inv(w) && f < |w.states| && w.states[f] == Idle
    ensures Doomed(EnqueueFiber(w, f), f)
  {
    assert FiberOk(w, f) && FiberOk(w, w.current);
  }

  // ---------------------------------------------------------------- no way out

  lemma FailedSwitch(w: Worker, left: Park, to: nat)
    requires |w.parks| == |w.states| && w.current < |w.states| && to < |w.states|
    ensures w.failed ==> SwitchTo(w, left, to).failed
  {
  }

  lemma FailedSwitchAway(w: Worker, pick: nat)
    requires w.failed && Sane(w) && (w.queue == [] && w.idle != {} ==> pick in w.idle)
    ensures SwitchAway(w, pick).failed
  {
  }

  lemma FailedLoopTurn(w: Worker)
    requires w.failed && Sane(w)
    ensures LoopTurn(w).failed
  {
  }

  lemma FailedStays(w: Worker, a: Action)
    requires w.failed && Enabled(w, a)
    ensures Apply(w, a).failed
  {
    if a.DoSwitchAway? {
      FailedSwitchAway(w, a.pick);
    } else if a.DoLoopTurn? {
      FailedLoopTurn(w);
    } else if a.DoTestShutdown? {
      FailedSwitch(w, Gone, MAIN);
    }
  }

  /** A switch away from or to other fibers leaves `f` as it is. */
  lemma SwitchPastDoomed(w: Worker, left: Park, to: nat, f: nat)
    requires |w.parks| == |w.states| && w.current < |w.states| && to < |w.states| && to != f
    requires Doomed(w, f)
    ensures DoomedOrFailed(SwitchTo(w, left, to), f)
  {
  }

  /** Taken from the queue, `f` trips "dequeued fiber is idle", "switching to idle fiber", or, when it is the main
      fiber, the check that it was Idle. */
  lemma DequeueFails(w: Worker, a: Action, f: nat)
    requires Doomed(w, f) && Enabled(w, a) && w.queue[0] == f && (a.DoLoopTurn? || a.DoSwitchAway?)
    ensures Apply(w, a).failed
  {
  }

  lemma FrontDoomed(w: Worker, f: nat)
    requires Doomed(w, f) && Sane(w) && w.queue[0] != f
    ensures Doomed(LoopTakes(w), f) && Doomed(SuspendTakes(w), f)
  {
    assert w.queue == [w.queue[0]] + w.queue[1..];
  }

  lemma FrontPastDoomed(w: Worker, pick: nat, f: nat)
    requires Doomed(w, f) && Sane(w) && w.queue[0] != f
    ensures DoomedOrFailed(LoopTurn(w), f) && DoomedOrFailed(SwitchAway(w, pick), f)
  {
    FrontDoomed(w, f);
    SwitchPastDoomed(LoopTakes(w), InIdleLoop, w.queue[0], f);
    SwitchPastDoomed(SuspendTakes(w), InSuspend, w.queue[0], f);
  }

  lemma WakeUpPastDoomed(w: Worker, now: int, order: seq<nat>, f: nat)
    requires Doomed(w, f) && Enabled(w, DoWakeUp(now, order))
    ensures Doomed(WakeUp(w, order), f)
  {
  }

  lemma EnqueuePastDoomed(w: Worker, g: nat, f: nat)
    requires Doomed(w, f) && g < |w.states|
    ensures Doomed(EnqueueFiber(w, g), f)
  {
  }

  lemma DoomedStep(w: Worker, a: Action, f: nat)
    requires Doomed(w, f) && Enabled(w, a)
    ensures DoomedOrFailed(Apply(w, a), f)
  {
    if (a.DoLoopTurn? || a.DoSwitchAway?) && w.queue[0] == f {
      DequeueFails(w, a, f);
    } else {
      match a
      case DoLoopTurn => FrontPastDoomed(w, 0, f);
      case DoSwitchAway(pick) => FrontPastDoomed(w, pick, f);
      case DoWakeUp(now, order) => WakeUpPastDoomed(w, now, order, f);
      case DoEnqueueFiber(g) => EnqueuePastDoomed(w, g, f);
      case _ =>
    }
  }

  /** Over every continuation, whoever takes part: as long as no assertion has failed, `f` has not left the queue and
      the worker has not exited. */
  lemma {:induction false} DoomedRun(start: Worker, actions: seq<Action>, f: nat)
    requires Doomed(start, f) && ExecFrom(start, actions).Some?
    ensures DoomedOrFailed(ExecFrom(start, actions).value, f)
  {
    if actions == [] {
    } else {
      var last := |actions| - 1;
      DoomedRun(start, actions[..last], f);
      var w := ExecFrom(start, actions[..last]).value;
      if w.failed {
        FailedStays(w, actions[last]);
      } else {
        DoomedStep(w, actions[last], f);
      }
    }
  }

  // ---------------------------------------------------------------- a way to the failure

  /** Some time before every deadline. */
  lemma Early(waiting: map<nat, int>) returns (now: int)
    ensures forall f :: f in waiting ==> now < waiting[f]
    decreases waiting.Keys
  {
    if waiting == map[] {
      now := 0;
    } else {
      var f :| f in waiting;
      var rest := waiting - {f};
      now := Early(rest);
      if waiting[f] <= now {
        now := waiting[f] - 1;
      }
      forall g | g in waiting ensures now < waiting[g] {
        assert g != f ==> g in rest;
      }
    }
  }

  /** How far the worker's thread is from taking the next fiber off the queue. */
  ghost function Distance(pc: Pc): nat {
    match pc
    case FirstWait => 6
    case ShutdownTest => 5
    case User => 5
    case CheckWork(_) => 4
    case Spinning(_) => 4
    case Blocked(_) => 3
    case GotWork(_) => 2
    case Loop => 1
    case Exited => 0
  }

  lemma SwitchIsSane(w: Worker, left: Park, to: nat)
    requires Sane(w) && to < |w.states|
    ensures Sane(SwitchTo(w, left, to)) && SwitchTo(w, left, to).queue == w.queue
  {
  }

  lemma FrontIsSane(w: Worker)
    requires Sane(w) && w.queue != []
    ensures Sane(LoopTurn(w)) && Sane(SwitchAway(w, 0))
    ensures |LoopTurn(w).queue| == |SwitchAway(w, 0).queue| == |w.queue| - 1
  {
    SwitchIsSane(LoopTakes(w), InIdleLoop, w.queue[0]);
    SwitchIsSane(SuspendTakes(w), InSuspend, w.queue[0]);
  }

  ghost predicate Closer(w: Worker, w': Worker) {
    && Sane(w')
    && (|w'.queue| < |w.queue| || (|w'.queue| == |w.queue| && Distance(w'.pc) < Distance(w.pc)))
  }

  lemma WakeEarly(w: Worker) returns (now: int)
    requires Sane(w) && w.pc.Blocked? && w.num > 0
    ensures Enabled(w, DoWakeUp(now, [])) && Closer(w, WakeUp(w, []))
  {
    now := Early(w.waiting);
  }

  /** The worker's thread can always move on, and gets closer. */
  lemma MoveOn(w: Worker, f: nat) returns (a: Action)
    requires Sane(w) && Doomed(w, f)
    ensures Enabled(w, a) && Closer(w, Apply(w, a))
  {
    match w.pc
    case Blocked(_) =>
      var now := WakeEarly(w);
      a := DoWakeUp(now, []);
    case Loop =>
      FrontIsSane(w);
      a := DoLoopTurn;
    case GotWork(FromSuspend) =>
      FrontIsSane(w);
      a := DoSwitchAway(0);
    case _ => a := MoveOnInPlace(w);
  }

  lemma MoveOnInPlace(w: Worker) returns (a: Action)
    requires Sane(w) && w.num > 0
    requires w.pc.User? || w.pc.CheckWork? || w.pc.Spinning? || w.pc.FirstWait? || w.pc.ShutdownTest?
          || w.pc == GotWork(FromLoop)
    ensures Enabled(w, a) && Closer(w, Apply(w, a))
  {
    match w.pc
    case User => a := DoSuspend(None);
    case CheckWork(_) => a := DoEnterWait;
    case Spinning(_) => a := DoSpinEnds;
    case GotWork(_) => a := DoEnterLoop;
    case FirstWait => a := DoFirstWakeUp;
    case ShutdownTest => a := DoTestShutdown;
  }

  lemma {:induction false} ExecCons(w: Worker, a: Action, rest: seq<Action>)
    requires Enabled(w, a)
    ensures ExecFrom(w, [a] + rest) == ExecFrom(Apply(w, a), rest)
  {
    if rest == [] {
      ExecLast(w, [], a);
      assert [a] + rest == [] + [a];
    } else {
      var before, last := rest[..|rest| - 1], rest[|rest| - 1];
      ExecCons(w, a, before);
      assert [a] + rest == ([a] + before) + [last] && rest == before + [last];
      ExecLast(w, [a] + before, last);
      ExecLast(Apply(w, a), before, last);
    }
  }

  lemma FindFailure(w: Worker, f: nat) returns (actions: seq<Action>)
    requires Sane(w) && DoomedOrFailed(w, f)
    ensures ExecFrom(w, actions).Some? && ExecFrom(w, actions).value.failed
    decreases |w.queue|, Distance(w.pc)
  {
    actions := [];
    if !w.failed {
      var a := MoveOn(w, f);
      DoomedStep(w, a, f);
      var rest := FindFailure(Apply(w, a), f);
      ExecCons(w, a, rest);
      actions := [a] + rest;
    }
  }

  // ---------------------------------------------------------------- the exact boundary

  /** No continuation makes an assertion fail. */
  ghost predicate NeverFails(w: Worker) {
    forall actions :: ExecFrom(w, actions).Some? ==> !ExecFrom(w, actions).value.failed
  }

  /** The precise boundary of `enqueue(Fiber*)` on a consistent worker: afterwards no assertion can ever fail if and
      only if the fiber was not idle. */
  lemma EnqueueFiberExact(w: Worker, f: nat)
    requires Inv(w) && MutexFree(w) && f < |w.states|
    ensures NeverFails(EnqueueFiber(w, f)) <==> w.states[f] != Idle
  {
    var w' := EnqueueFiber(w, f);
    if w.states[f] == Idle {
      IdleIsDoomed(w, f);
      var actions := FindFailure(w', f);
    } else {
      EnqueueFiberInv(w, f);
      forall actions | ExecFrom(w', actions).Some? ensures !ExecFrom(w', actions).value.failed {
        SafeFrom(w', actions);
      }
    }
  }

  // ---------------------------------------------------------------- idle fibers do exist

  ghost predicate Reachable(multiThreaded: bool, w: Worker) {
    exists actions :: Exec(multiThreaded, actions) == Some(w)
  }

  lemma Follow(w: Worker, a: Action, w': Worker)
    requires Reachable(w.multiThreaded, w) && Enabled(w, a) && Apply(w, a) == w'
    ensures Reachable(w.multiThreaded, w')
  {
    var actions :| Exec(w.multiThreaded, actions) == Some(w);
    ExecLast(Init(w.multiThreaded), actions, a);
    assert Exec(w.multiThreaded, actions + [a]) == Some(w');
  }

  /** The main fiber of a bound thread suspends ... */
  lemma MainSuspends() returns (w: Worker)
    ensures w == Init(false).(states := [Yielded], pc := Blocked(FromSuspend)) && Reachable(false, w)
  {
    var w0 := Init(false);
    assert Exec(false, []) == Some(w0);
    var w1 := w0.(states := [Yielded], pc := CheckWork(FromSuspend));
    Follow(w0, DoSuspend(None), w1);
    w := w1.(pc := Blocked(FromSuspend));
    Follow(w1, DoEnterWait, w);
  }

  /** ... a task arrives ... */
  lemma TaskArrives(w: Worker, t: Task) returns (w': Worker)
    requires w == Init(false).(states := [Yielded], pc := Blocked(FromSuspend)) && Reachable(false, w)
    ensures w' == w.(tasks := [t], num := 1, pc := GotWork(FromSuspend)) && Reachable(false, w')
  {
    var w1 := w.(tasks := [t], num := 1);
    Follow(w, DoEnqueueTask(t), w1);
    w' := w1.(pc := GotWork(FromSuspend));
    WakesToTask(w1);
    Follow(w1, DoWakeUp(0, []), w');
  }

  lemma WakesToTask(w: Worker)
    requires Sane(w) && w.pc.Blocked? && w.num > 0 && w.waiting == map[]
    ensures Enabled(w, DoWakeUp(0, [])) && WakeUp(w, []) == w.(pc := GotWork(w.pc.caller))
  {
    assert Requeue(w.states, []) == w.states;
    assert w.waiting - (set f | f in []) == map[];
  }

  /** ... for which a second fiber is made ... */
  lemma SecondFiber(t: Task) returns (w: Worker)
    ensures Reachable(false, w) && Sane(w)
    ensures w == Worker(false, [Yielded, Running], [InSuspend, Active], 1, ShutdownTest, 1, 1, [t], [], map[], {},
                        false, false, [], false)
  {
    var w0 := MainSuspends();
    var w1 := TaskArrives(w0, t);
    w := w1.(states := [Yielded, Running], parks := [InSuspend, Active], current := 1, blocked := 1,
             pc := ShutdownTest);
    FreshResult(w1, 0);
    Follow(w1, DoSwitchAway(0), w);
  }

  /** ... which enters its loop ... */
  lemma LoopEntered(w: Worker)
    requires Reachable(w.multiThreaded, w) && Sane(w) && w.pc.ShutdownTest? && w.states[w.current] == Running
    requires !w.failed && w.num == |w.queue| + |w.tasks| > 0
    ensures Reachable(w.multiThreaded, w.(pc := Loop))
  {
    Follow(w, DoTestShutdown, w.(pc := CheckWork(FromLoop)));
    Follow(w.(pc := CheckWork(FromLoop)), DoEnterWait, w.(pc := GotWork(FromLoop)));
    Follow(w.(pc := GotWork(FromLoop)), DoEnterLoop, w.(pc := Loop));
  }

  /** ... and executes the task ... */
  lemma TaskExecutes(w: Worker, t: Task) returns (w': Worker)
    requires Reachable(false, w) && Sane(w)
    requires w == Worker(false, [Yielded, Running], [InSuspend, Active], 1, ShutdownTest, 1, 1, [t], [], map[], {},
                         false, false, [], false)
    ensures Reachable(false, w') && Sane(w')
    ensures w' == w.(pc := User, num := 0, tasks := [], started := [t])
  {
    LoopEntered(w);
    w' := w.(pc := User, num := 0, tasks := [], started := [t]);
    assert [t][1..] == [] && [] + [t] == [t];
    Follow(w.(pc := Loop), DoLoopTurn, w');
  }

  /** ... while the main fiber is notified. */
  lemma MainNotified(t: Task) returns (w: Worker)
    ensures Reachable(false, w) && Sane(w)
    ensures w == Worker(false, [Queued, Running], [InSuspend, Active], 1, Loop, 1, 1, [], [0], map[], {},
                        false, false, [t], false)
  {
    var w0 := SecondFiber(t);
    var w1 := TaskExecutes(w0, t);
    var w2 := w1.(states := [Queued, Running], queue := [0], num := 1);
    Follow(w1, DoEnqueueFiber(0), w2);
    w := w2.(pc := Loop);
    Follow(w2, DoTaskReturns, w);
  }

  /** The second fiber then switches back and stays behind as an idle one. */
  lemma SecondFiberIdles(t: Task) returns (w: Worker)
    ensures Reachable(false, w)
    ensures w.pc.User? && |w.states| == 2 && w.states[1] == Idle
  {
    var w0 := MainNotified(t);
    w := w0.(states := [Running, Idle], parks := [Active, InIdleLoop], current := 0, queue := [], num := 0,
             blocked := 0, idle := {1}, pc := User);
    assert [0][1..] == [];
    Follow(w0, DoLoopTurn, w);
  }

  /** So the boundary can be met: from a reachable state, `enqueue(Fiber*)` on an idle fiber leads to a failing
      assertion. */
  lemma IdleIsReachable()
    ensures exists w :: Reachable(false, w) && MutexFree(w) && |w.states| == 2 && w.states[1] == Idle
                        && !NeverFails(EnqueueFiber(w, 1))
  {
    var w := SecondFiberIdles(Task(0, false, 0));
    var actions :| Exec(false, actions) == Some(w);
    RunSafe(false, actions);
    EnqueueFiberExact(w, 1);
  }
}
