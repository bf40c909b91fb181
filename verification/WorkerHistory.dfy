/** What a worker does, told from the actions of its run alone: which task is taken next, which fiber is resumed next,
    and until when a fiber with a deadline waits. */
module WorkerHistory {
  import opened Wrappers
  import opened WorkerModel
  import opened WorkerInvariant
  import S = Stealing

  // ---------------------------------------------------------------- tasks: first in, first out

  ghost function Submits(a: Action): seq<Task> {
    if a.DoEnqueueTask? then [a.task] else []
  }

  /** The tasks of the run's enqueues, in order. */
  ghost function Submitted(actions: seq<Action>): seq<Task> {
    if actions == [] then []
    else Submitted(actions[..|actions| - 1]) + Submits(actions[|actions| - 1])
  }

  /** The worker after a run. */
  ghost function After(start: Worker, actions: seq<Action>): Worker {
    if ExecFrom(start, actions).Some? then ExecFrom(start, actions).value else start
  }

  /** The last step of a run. */
  lemma LastStep(start: Worker, actions: seq<Action>)
    requires actions != [] && ExecFrom(start, actions).Some?
    ensures ExecFrom(start, actions[..|actions| - 1]).Some?
    ensures Enabled(After(start, actions[..|actions| - 1]), actions[|actions| - 1])
    ensures After(start, actions) == Apply(After(start, actions[..|actions| - 1]), actions[|actions| - 1])
  {
  }

  lemma Glue<T>(taken: seq<T>, more: seq<T>, left: seq<T>, was: seq<T>, all: seq<T>, added: seq<T>)
    requires more + left == was + added && taken + was == all
    ensures (taken + more) + left == all + added
  {
    calc {
      (taken + more) + left;
      taken + (more + left);
      (taken + was) + added;
    }
  }

  /** The task a step from `w` to `w'` hands to a thief, or begins to execute. */
  ghost function Takes(w: Worker, a: Action, w': Worker): seq<Task> {
    if a.DoSteal? then if w.tasks == [] then [] else [w.tasks[0]]
    else if w.started <= w'.started then w'.started[|w.started|..] else []
  }

  ghost function Taken(start: Worker, actions: seq<Action>): seq<Task> {
    if actions == [] then []
    else
      var before := actions[..|actions| - 1];
      Taken(start, before) + Takes(After(start, before), actions[|actions| - 1], After(start, actions))
  }

  lemma TaskStep(w: Worker, a: Action, w': Worker)
    requires Enabled(w, a) && w' == Apply(w, a)
    ensures Takes(w, a, w') + w'.tasks == w.tasks + Submits(a)
    ensures !a.DoSteal? ==> w'.started == w.started + Takes(w, a, w')
  {
    if a.DoLoopTurn? {
      S.LoopTurnTasks(w);
    } else if !a.DoEnqueueTask? && !a.DoSteal? {
      S.OthersKeepTasks(w, a);
    }
  }

  /** In every run: the tasks taken so far, by the worker or by thieves, followed by those still queued are the tasks
      submitted, in the order of submission. */
  lemma {:induction false} TasksInOrder(start: Worker, actions: seq<Action>)
    requires start.tasks == [] && ExecFrom(start, actions).Some?
    ensures Taken(start, actions) + After(start, actions).tasks == Submitted(actions)
  {
    if actions == [] {
    } else {
      var before, a := actions[..|actions| - 1], actions[|actions| - 1];
      LastStep(start, actions);
      TasksInOrder(start, before);
      var w, w' := After(start, before), After(start, actions);
      TaskStep(w, a, w');
      Glue(Taken(start, before), Takes(w, a, w'), w'.tasks, w.tasks, Submitted(before), Submits(a));
    }
  }

  ghost predicate NoThefts(actions: seq<Action>) {
    forall k :: 0 <= k < |actions| ==> !actions[k].DoSteal?
  }

  lemma {:induction false} TakenAreStarted(start: Worker, actions: seq<Action>)
    requires ExecFrom(start, actions).Some? && NoThefts(actions) && start.started == []
    ensures After(start, actions).started == Taken(start, actions)
  {
    if actions == [] {
    } else {
      var before, a := actions[..|actions| - 1], actions[|actions| - 1];
      LastStep(start, actions);
      TakenAreStarted(start, before);
      TaskStep(After(start, before), a, After(start, actions));
    }
  }

  /** Without thefts, tasks are started in the order in which they were submitted, with none left out in between. */
  lemma StartedInOrder(multiThreaded: bool, actions: seq<Action>)
    requires Exec(multiThreaded, actions).Some? && NoThefts(actions)
    ensures Exec(multiThreaded, actions).value.started + Exec(multiThreaded, actions).value.tasks == Submitted(actions)
  {
    TasksInOrder(Init(multiThreaded), actions);
    TakenAreStarted(Init(multiThreaded), actions);
  }

  // ---------------------------------------------------------------- fibers: first woken, first resumed

  /** The fibers a step makes runnable: one that is notified while suspended, or those whose deadlines have passed. */
  ghost function Wakes(w: Worker, a: Action): seq<nat> {
    match a
    case DoEnqueueFiber(f) => if f < |w.states| && InWait(w.states[f]) && w.states[f] != Queued then [f] else []
    case DoWakeUp(_, order) => order
    case _ => []
  }

  ghost function Woken(start: Worker, actions: seq<Action>): seq<nat> {
    if actions == [] then []
    else
      var before := actions[..|actions| - 1];
      Woken(start, before) + Wakes(After(start, before), actions[|actions| - 1])
  }

  /** The fiber a step from `w` to `w'` switches to because it was runnable. */
  ghost function Resumes(w: Worker, a: Action, w': Worker): seq<nat> {
    if (a.DoSwitchAway? || a.DoLoopTurn?) && w.queue != [] then [w'.current] else []
  }

  ghost function Resumed(start: Worker, actions: seq<Action>): seq<nat> {
    if actions == [] then []
    else
      var before := actions[..|actions| - 1];
      Resumed(start, before) + Resumes(After(start, before), actions[|actions| - 1], After(start, actions))
  }

  lemma SwitchGoesTo(w: Worker, left: Park, to: nat)
    requires |w.parks| == |w.states| && w.current < |w.states| && to < |w.states|
    ensures SwitchTo(w, left, to).current == to && SwitchTo(w, left, to).queue == w.queue
  {
  }

  lemma SwitchTakesFront(w: Worker, pick: nat)
    requires Sane(w) && w.queue != []
    ensures SwitchAway(w, pick).current == w.queue[0] && SwitchAway(w, pick).queue == w.queue[1..]
    ensures LoopTurn(w).current == w.queue[0] && LoopTurn(w).queue == w.queue[1..]
  {
    SwitchGoesTo(SuspendTakes(w), InSuspend, w.queue[0]);
    SwitchGoesTo(LoopTakes(w), InIdleLoop, w.queue[0]);
  }

  lemma EmptyStaysEmpty(w: Worker, pick: nat)
    requires Sane(w) && w.queue == [] && (w.idle != {} ==> pick in w.idle)
    ensures SwitchAway(w, pick).queue == [] && LoopTurn(w).queue == []
  {
  }

  lemma QueueTaken(w: Worker, a: Action)
    requires Enabled(w, a) && (a.DoSwitchAway? || a.DoLoopTurn?)
    ensures Resumes(w, a, Apply(w, a)) + Apply(w, a).queue == w.queue
  {
    var pick := if a.DoSwitchAway? then a.pick else 0;
    if w.queue != [] {
      SwitchTakesFront(w, pick);
      assert w.queue == [w.queue[0]] + w.queue[1..];
    } else if a.DoSwitchAway? {
      EmptyStaysEmpty(w, pick);
    }
  }

  lemma QueueGrows(w: Worker, a: Action)
    requires Enabled(w, a) && !a.DoSwitchAway? && !a.DoLoopTurn?
    ensures Apply(w, a).queue == w.queue + Wakes(w, a)
  {
    if a.DoTestShutdown? {
      SwitchGoesTo(w, Gone, MAIN);
    }
  }

  lemma FiberStep(w: Worker, a: Action, w': Worker)
    requires Enabled(w, a) && w' == Apply(w, a)
    ensures Resumes(w, a, w') + w'.queue == w.queue + Wakes(w, a)
  {
    if a.DoSwitchAway? || a.DoLoopTurn? {
      QueueTaken(w, a);
    } else {
      QueueGrows(w, a);
    }
  }

  /** In every run: the fibers resumed so far followed by those still queued are the fibers made runnable, in that
      order. */
  lemma {:induction false} FibersInOrder(start: Worker, actions: seq<Action>)
    requires start.queue == [] && ExecFrom(start, actions).Some?
    ensures Resumed(start, actions) + After(start, actions).queue == Woken(start, actions)
  {
    if actions == [] {
    } else {
      var before, a := actions[..|actions| - 1], actions[|actions| - 1];
      LastStep(start, actions);
      FibersInOrder(start, before);
      var w, w' := After(start, before), After(start, actions);
      FiberStep(w, a, w');
      Glue(Resumed(start, before), Resumes(w, a, w'), w'.queue, w.queue, Woken(start, before), Wakes(w, a));
    }
  }

  // ---------------------------------------------------------------- deadlines

  /** The step ends the wait of a fiber that waits until `t`: it is notified, or the clock has reached `t`. */
  predicate Releases(a: Action, f: nat, t: int) {
    a == DoEnqueueFiber(f) || (a.DoWakeUp? && t <= a.now)
  }

  lemma SwitchKeepsWaiting(w: Worker, left: Park, to: nat)
    requires |w.parks| == |w.states| && w.current < |w.states| && to < |w.states|
    ensures SwitchTo(w, left, to).waiting == w.waiting
  {
  }

  lemma SwitchesKeepWaiting(w: Worker, pick: nat)
    requires Sane(w) && (w.queue == [] && w.idle != {} ==> pick in w.idle)
    ensures SwitchAway(w, pick).waiting == w.waiting && LoopTurn(w).waiting == w.waiting
  {
    if w.queue != [] {
      SwitchKeepsWaiting(SuspendTakes(w), InSuspend, w.queue[0]);
      SwitchKeepsWaiting(LoopTakes(w), InIdleLoop, w.queue[0]);
    }
  }

  /** Apart from suspending, being notified and waking up, no step touches the timeout set. */
  lemma OthersKeepWaiting(w: Worker, a: Action)
    requires Enabled(w, a) && !a.DoSuspend? && !a.DoEnqueueFiber? && !a.DoWakeUp?
    ensures Apply(w, a).waiting == w.waiting
  {
    if a.DoSwitchAway? {
      SwitchesKeepWaiting(w, a.pick);
    } else if a.DoLoopTurn? {
      LoopKeepsWaiting(w);
    } else if a.DoTestShutdown? {
      SwitchKeepsWaiting(w, Gone, MAIN);
    }
  }

  /** A waiting fiber keeps its deadline until a step releases it, and that step makes it runnable. */
  lemma DeadlineStep(w: Worker, a: Action, f: nat)
    requires Inv(w) && Enabled(w, a) && f in w.waiting
    ensures Releases(a, f, w.waiting[f]) ==> f !in Apply(w, a).waiting && f in Apply(w, a).queue
    ensures !Releases(a, f, w.waiting[f]) ==> f in Apply(w, a).waiting && Apply(w, a).waiting[f] == w.waiting[f]
  {
    assert FiberOk(w, f) && FiberOk(w, w.current);
    if !a.DoSuspend? && !a.DoEnqueueFiber? && !a.DoWakeUp? {
      OthersKeepWaiting(w, a);
    }
  }

  lemma LoopKeepsWaiting(w: Worker)
    requires Sane(w)
    ensures LoopTurn(w).waiting == w.waiting
  {
    if w.queue != [] {
      SwitchKeepsWaiting(LoopTakes(w), InIdleLoop, w.queue[0]);
    }
  }

  ghost predicate NoneReleases(actions: seq<Action>, f: nat, t: int) {
    forall k :: 0 <= k < |actions| ==> !Releases(actions[k], f, t)
  }

  /** A worker with a fiber that waits for a deadline has not handed off or stopped. */
  lemma WaiterKeepsWorker(w: Worker, f: nat)
    requires Safe(w) && f in w.waiting
    ensures Inv(w)
  {
  }

  lemma {:induction false} KeepsWaiting(w: Worker, more: seq<Action>, f: nat)
    requires Safe(w) && f in w.waiting && ExecFrom(w, more).Some? && NoneReleases(more, f, w.waiting[f])
    ensures Safe(ExecFrom(w, more).value)
    ensures f in ExecFrom(w, more).value.waiting && ExecFrom(w, more).value.waiting[f] == w.waiting[f]
  {
    SafeFrom(w, more);
    if more == [] {
    } else {
      var before, a := more[..|more| - 1], more[|more| - 1];
      KeepsWaiting(w, before, f);
      WaiterKeepsWorker(ExecFrom(w, before).value, f);
      DeadlineStep(ExecFrom(w, before).value, a, f);
    }
  }

  /** The worker right after its current fiber has suspended until `t`, and after `more`. */
  ghost function AfterSuspend(w: Worker, t: int, more: seq<Action>): Option<Worker>
    requires Enabled(w, DoSuspend(Some(t)))
  {
    ExecFrom(Apply(w, DoSuspend(Some(t))), more)
  }

  /** A fiber that suspends until `t` waits for exactly that: through any steps, of whatever thread, that neither notify
      it nor find the clock at `t` or later, it stays where it is. */
  lemma WaitsUntilDue(w: Worker, t: int, more: seq<Action>)
    requires Inv(w) && Enabled(w, DoSuspend(Some(t))) && AfterSuspend(w, t, more).Some?
    requires NoneReleases(more, w.current, t)
    ensures var w' := AfterSuspend(w, t, more).value;
            && Inv(w') && w.current in w'.waiting && w'.waiting[w.current] == t
            && w.current < |w'.states| && w'.states[w.current] == Waiting
  {
    SuspendInv(w, Some(t));
    KeepsWaiting(Apply(w, DoSuspend(Some(t))), more, w.current);
    var w' := AfterSuspend(w, t, more).value;
    WaiterKeepsWorker(w', w.current);
    assert FiberOk(w', w.current);
  }

  /** And the first step that does, whichever of the two it is, makes it runnable. */
  lemma DueIsReleased(w: Worker, t: int, more: seq<Action>, a: Action)
    requires Inv(w) && Enabled(w, DoSuspend(Some(t))) && AfterSuspend(w, t, more + [a]).Some?
    requires NoneReleases(more, w.current, t) && Releases(a, w.current, t)
    ensures var w' := AfterSuspend(w, t, more + [a]).value;
            w.current !in w'.waiting && w.current in w'.queue
  {
    ExecLast(Apply(w, DoSuspend(Some(t))), more, a);
    WaitsUntilDue(w, t, more);
    DeadlineStep(AfterSuspend(w, t, more).value, a, w.current);
  }

  // ---------------------------------------------------------------- where a fiber goes on

  /** A fiber that is resumed goes on where it was left: in the code that suspended, in its idle loop, or, when it is
      new, at the start of `run()`. */
  lemma GoesOnWhereLeft(w: Worker, pick: nat)
    requires Inv(w) && Enabled(w, DoSwitchAway(pick))
    ensures w.queue != [] ==> SwitchAway(w, pick).current == w.queue[0] && SwitchAway(w, pick).pc == User
    ensures w.queue == [] && w.idle != {} ==> SwitchAway(w, pick).current == pick && SwitchAway(w, pick).pc == Loop
    ensures w.queue == [] && w.idle == {} ==>
              && SwitchAway(w, pick).current == |w.states|
              && SwitchAway(w, pick).pc == if w.multiThreaded then FirstWait else ShutdownTest
  {
    if w.queue != [] {
      QueuedResult(w);
    } else if w.idle != {} {
      assert FiberOk(w, pick) && FiberOk(w, w.current);
    } else {
      FreshResult(w, pick);
    }
  }

  /** After a task the worker looks at its queues again before it looks at `shutdown`. */
  lemma TaskThenLoop(w: Worker)
    requires Inv(w) && Enabled(w, DoTaskReturns)
    ensures Apply(w, DoTaskReturns).pc == Loop && Enabled(Apply(w, DoTaskReturns), DoLoopTurn)
  {
  }

  // ---------------------------------------------------------------- when a worker waits

  /** `waitForWork` returns at once exactly when something is queued; with nothing queued, a worker thread first looks
      for work elsewhere, and a bound thread goes to sleep. */
  lemma WaitsOnlyWithoutWork(w: Worker)
    requires Inv(w) && w.pc.CheckWork?
    ensures EnterWait(w).pc.GotWork? <==> w.queue != [] || w.tasks != []
    ensures EnterWait(w).pc.Spinning? <==> w.queue == [] && w.tasks == [] && w.multiThreaded
    ensures EnterWait(w).pc.Blocked? <==> w.queue == [] && w.tasks == [] && !w.multiThreaded
    ensures EnterWait(w).pc.caller == w.pc.caller
  {
    assert w.num == |w.queue| + |w.tasks|;
  }

  /** And it returns later only for work, for a shutdown with no fiber blocked, or because some fiber has a deadline. */
  lemma ReturnsOnlyForCause(w: Worker, a: Action)
    requires Inv(w) && Enabled(w, a) && !w.pc.GotWork? && Apply(w, a).pc.GotWork?
    ensures w.queue != [] || w.tasks != [] || (w.shutdown && w.blocked == 0) || w.waiting != map[]
  {
    if a.DoLoopTurn? {
      LoopLeaves(w);
    } else if a.DoTestShutdown? {
      TestShutdownSafe(w);
    }
  }

  lemma LoopLeaves(w: Worker)
    requires Inv(w) && w.pc.Loop?
    ensures !LoopTurn(w).pc.GotWork?
  {
    if w.queue != [] {
      LoopResult(w);
    }
  }

  /** A worker thread does nothing before the first task, notification or shutdown; a bound thread is in user code. */
  lemma StartsWaiting(a: Action)
    requires Enabled(Init(true), a)
    ensures a.DoEnqueueTask? || a.DoEnqueueFiber? || a.DoShutdown?
    ensures Init(false).pc.User? && !Init(false).mainLoops
  {
  }

  lemma TwoSteps(w: Worker, a: Action, b: Action, w1: Worker, w2: Worker)
    requires Enabled(w, a) && w1 == Apply(w, a) && Enabled(w1, b) && w2 == Apply(w1, b)
    ensures ExecFrom(w, [a, b]) == Some(w2)
  {
    ExecLast(w, [], a);
    ExecLast(w, [a], b);
    assert [] + [a] == [a] && [a] + [b] == [a, b];
  }

  /** The shutdown test of a main fiber with nothing left to do. */
  lemma TestExits(w: Worker)
    requires Sane(w) && w.pc.ShutdownTest? && w.current == MAIN && w.shutdown && w.num == 0 && w.blocked == 0
    ensures Enabled(w, DoTestShutdown) && Apply(w, DoTestShutdown) == w.(pc := Exited)
  {
  }

  /** A worker thread that is woken only to shut down leaves without entering its loop. */
  lemma ShutdownBeforeWork(w: Worker)
    requires Inv(w) && w.pc.FirstWait? && w.current == MAIN && w.shutdown && w.num == 0 && w.blocked == 0
    ensures ExecFrom(w, [DoFirstWakeUp, DoTestShutdown]) == Some(w.(pc := Exited))
  {
    FirstWakeUpInv(w);
    var w1 := w.(pc := ShutdownTest);
    TestExits(w1);
    TwoSteps(w, DoFirstWakeUp, DoTestShutdown, w1, w.(pc := Exited));
  }

  /** `stop()` on a bound thread that has nothing left to do comes back at once. */
  lemma StopReturns(w: Worker)
    requires Inv(w) && Enabled(w, DoStop) && w.num == 0 && w.blocked == 0
    ensures ExecFrom(w, [DoStop, DoTestShutdown]) == Some(w.(shutdown := true, mainLoops := true, pc := Exited))
  {
    var w1 := w.(shutdown := true, mainLoops := true, pc := ShutdownTest);
    TestExits(w1);
    TwoSteps(w, DoStop, DoTestShutdown, w1, w1.(pc := Exited));
  }
}
