/** The critical sections of `Scheduler::Worker` as methods that update its fields in place, each proved
    to be the corresponding step of `WorkerModel`. The `assert`s are the source's `MARL_ASSERT`s. */
module WorkerObject {
  import opened Wrappers
  import opened WorkerModel
  import opened WorkerInvariant
  import opened WaitingFibers

  class WorkerState {
    const multiThreaded: bool
    const waiting: WaitingSet
    var states: seq<FiberState>
    var current: nat
    var num: int
    var blocked: int
    var tasks: seq<Task>
    var queue: seq<nat>
    var idle: set<nat>
    var shutdown: bool
    var parks: seq<Park>        // stands for the saved stacks
    ghost var pc: Pc
    ghost var mainLoops: bool
    ghost var started: seq<Task>

    ghost function View(): Worker
      reads this, waiting
    {
      Worker(multiThreaded, states, parks, current, pc, num, blocked, tasks, queue, waiting.fibers, idle,
             shutdown, mainLoops, started, false)
    }

    ghost predicate Valid()
      reads this, waiting
    {
      waiting.Valid() && Inv(View())
    }

    constructor (multiThreaded: bool)
      ensures Valid() && fresh(waiting)
      ensures View() == WorkerModel.Init(multiThreaded)
    {
      this.multiThreaded := multiThreaded;
      waiting := new WaitingSet();
      states, current, num, blocked := [Running], MAIN, 0, 0;
      tasks, queue, idle, shutdown := [], [], {}, false;
      parks, pc := [Active], if multiThreaded then FirstWait else User;
      mainLoops, started := multiThreaded, [];
      new;
      InitInv(multiThreaded);
    }

    /** The first half of `suspend`. */
    method SuspendCurrent(timeout: Option<int>)
      requires Valid() && pc.User?
      modifies this, waiting
      ensures Valid()
      ensures View() == WorkerModel.Suspend(old(View()), timeout)
      ensures waiting.fibers == match timeout
                                case Some(t) => old(waiting.fibers)[old(current) := t]
                                case None => old(waiting.fibers)
      ensures states == old(states)[old(current) := if timeout.Some? then Waiting else Yielded]
    {
      SuspendInv(View(), timeout);
      assert FiberOk(View(), current);
      assert states[current] == Running;
      match timeout {
        case Some(t) =>
          states := states[current := Waiting];
          waiting.Add(t, current);
        case None =>
          states := states[current := Yielded];
      }
      pc := CheckWork(FromSuspend);
    }

    /** `enqueueFiberTimeouts`: moves exactly the fibers whose deadline has passed to the end of the fiber
        queue, in deadline order, and leaves the others waiting. */
    method EnqueueFiberTimeouts(now: int) returns (ghost order: seq<nat>)
      requires waiting.Valid() && AllWaiting(states, waiting.fibers)
      modifies this`states, this`queue, this`num, waiting
      ensures waiting.Valid()
      ensures Expired(old(waiting.fibers), now, order)
      ensures waiting.fibers == old(waiting.fibers) - (set x | x in order)
      ensures states == Requeue(old(states), order)
      ensures queue == old(queue) + order
      ensures num == old(num) + |order|
    {
      ghost var before, were := waiting.fibers, states;
      order := [];
      assert states == Requeue(were, order);
      while true
        invariant waiting.Valid()
        invariant queue == old(queue) + order
        invariant num == old(num) + |order|
        invariant states == Requeue(were, order)
        invariant TakenOneByOne(before, now, order)
        invariant waiting.fibers == Without(before, order)
        decreases |Without(before, order)|
      {
        var fiber := waiting.Take(now);
        if fiber.None? {
          TakenIsExpired(before, now, order);
          WithoutIsRest(before, order);
          return;
        }
        TakeOne(before, now, order, fiber.value);
        RemainsNew(before, order, fiber.value);
        Shrinks(Without(before, order), fiber.value);
        RequeueStep(were, order, fiber.value);
        AppendLast(old(queue), order, fiber.value);
        assert states[fiber.value] == Waiting;
        states := states[fiber.value := Queued];
        queue := queue + [fiber.value];
        num := num + 1;
        order := order + [fiber.value];
      }
    }

    /** The end of `waitForWork`. */
    method ReturnFromWait(now: int) returns (ghost order: seq<nat>)
      requires Valid() && pc.Blocked?
      modifies this, waiting
      ensures Valid()
      ensures Expired(old(View()).waiting, now, order)
      ensures View() == WakeUp(old(View()), order)
    {
      ghost var before := View();
      forall f | f in waiting.fibers ensures f < |states| && states[f] == Waiting {
        assert FiberOk(before, f);
      }
      order := EnqueueFiberTimeouts(now);
      pc := GotWork(pc.caller);
      WakeUpInv(before, now, order);
    }

    /** `enqueue(Fiber*)`: a fiber inside a wait becomes runnable once. An idle fiber is queued too, and that is the
        one case that leaves the worker inconsistent. */
    method EnqueueWaiter(f: nat)
      requires Valid() && MutexFree(View()) && f < |states|
      modifies this, waiting
      ensures View() == EnqueueFiber(old(View()), f)
      ensures queue == if old(states)[f] == Running || old(states)[f] == Queued then old(queue) else old(queue) + [f]
      ensures waiting.fibers == old(waiting.fibers) - {f}
      ensures Valid() <==> old(states)[f] != Idle
    {
      EnqueueKeepsInvIff(View(), f);
      EnqueueFiberMoves(View(), f);
      assert f in waiting.fibers ==> states[f] == Waiting by {
        assert FiberOk(View(), f);
      }
      if states[f] == Running || states[f] == Queued {
        return;
      }
      if states[f] == Waiting {
        waiting.Erase(f);
      }
      assert f !in waiting.fibers;
      PushFiber(f);
    }

    method PushFiber(f: nat)
      requires f < |states|
      modifies this`queue, this`states, this`num
      ensures View() == old(View()).(queue := old(queue) + [f], states := old(states)[f := Queued], num := old(num) + 1)
    {
      queue := queue + [f];
      states := states[f := Queued];
      num := num + 1;
    }

    method EnqueueWork(t: Task)
      requires Valid() && MutexFree(View())
      modifies this
      ensures Valid()
      ensures View() == EnqueueTask(old(View()), t)
      ensures tasks == old(tasks) + [t]
    {
      EnqueueTaskInv(View(), t);
      tasks := tasks + [t];
      num := num + 1;
    }

    /** `steal`: gives away the oldest task unless it must stay on this thread. */
    method StealTask() returns (out: Option<Task>)
      requires Valid() && MutexFree(View())
      modifies this
      ensures Valid()
      ensures out.Some? <==> CanSteal(old(View()))
      ensures out.Some? <==> old(tasks) != [] && !old(tasks)[0].sameThread
      ensures out.Some? ==> old(tasks) == [out.value] + tasks && View() == StealFront(old(View()))
      ensures out.None? ==> View() == old(View())
    {
      if num == 0 || tasks == [] || tasks[0].sameThread {
        return None;
      }
      StealInv(View());
      out := Some(tasks[0]);
      num := num - 1;
      tasks := tasks[1..];
    }

    /** `switchToFiber(to)`, with what the target does first when it is resumed. */
    method SwitchToFiber(left: Park, to: nat)
      requires |parks| == |states| && current < |states| && to < |states|
      requires !SwitchTo(View(), left, to).failed
      modifies this
      ensures View() == SwitchTo(old(View()), left, to)
    {
      assert to == MAIN || to !in idle;
      var resumed := parks[current := left][to];
      var parked := parks[current := left][to := Active];
      match resumed {
        case InSuspend =>
          Arrive(to, parked, states[to := Running], blocked - 1, User);
        case InIdleLoop =>
          assert states[to] == Idle;
          Arrive(to, parked, states[to := Running], blocked, Loop);
        case Fresh =>
          Arrive(to, parked, states, blocked, if multiThreaded then FirstWait else ShutdownTest);
        case _ =>
          assert false;
      }
    }

    /** The fields a switch and the first actions of the resumed fiber change. */
    method Arrive(to: nat, parked: seq<Park>, changed: seq<FiberState>, stillBlocked: int, ghost at: Pc)
      modifies this`current, this`parks, this`states, this`blocked, this`pc
      ensures View() == old(View()).(current := to, parks := parked, states := changed,
                                     blocked := stillBlocked, pc := at)
    {
      current := to;
      parks, states, blocked, pc := parked, changed, stillBlocked, at;
    }

    method ResumeQueued()
      requires Valid() && pc == GotWork(FromSuspend) && queue != []
      modifies this
      ensures Valid()
      ensures View() == SwitchAway(old(View()), 0)
    {
      ghost var before := View();
      SwitchAwayInv(before, 0);
      QueuedFrontOk(before);
      blocked := blocked + 1;
      num := num - 1;
      var to := queue[0];
      queue := queue[1..];
      assert states[to] == Queued;
      assert View() == SuspendTakes(before);
      SwitchToFiber(InSuspend, to);
    }

    method ResumeIdle() returns (ghost pick: nat)
      requires Valid() && pc == GotWork(FromSuspend) && queue == [] && idle != {}
      modifies this
      ensures Valid()
      ensures pick in old(idle) && View() == SwitchAway(old(View()), pick)
    {
      ghost var before := View();
      blocked := blocked + 1;
      var to :| to in idle;
      pick := to;
      SwitchAwayInv(before, pick);
      IdlePickOk(before, pick);
      idle := idle - {to};
      assert states[to] == Idle;
      assert View() == before.(blocked := before.blocked + 1, idle := before.idle - {to});
      SwitchToFiber(InSuspend, to);
    }

    method ResumeFresh()
      requires Valid() && pc == GotWork(FromSuspend) && queue == [] && idle == {}
      modifies this
      ensures Valid()
      ensures View() == SwitchAway(old(View()), 0)
    {
      ghost var before := View();
      SwitchAwayInv(before, 0);
      blocked := blocked + 1;
      states := states + [Running];
      parks := parks + [Fresh];
      SwitchToFiber(InSuspend, |states| - 1);
    }

    /** The second half of `suspend`: resume a queued fiber, an idle one, or a new one. */
    method SwitchToOther() returns (ghost pick: nat)
      requires Valid() && pc == GotWork(FromSuspend)
      modifies this
      ensures Valid()
      ensures old(queue == [] && idle != {}) ==> pick in old(idle)
      ensures View() == SwitchAway(old(View()), pick)
    {
      pick := 0;
      if queue != [] {
        ResumeQueued();
      } else if idle != {} {
        pick := ResumeIdle();
      } else {
        ResumeFresh();
      }
    }

    method ParkAndResume()
      requires Valid() && pc.Loop? && queue != []
      modifies this
      ensures Valid()
      ensures View() == LoopTurn(old(View()))
    {
      ghost var before := View();
      LoopTurnInv(before);
      LoopFrontOk(before);
      num := num - 1;
      var to := queue[0];
      queue := queue[1..];
      assert to !in idle;
      assert to != current;
      assert states[to] == Queued;
      assert states[current] == Running;
      states := states[current := Idle];
      assert current !in idle;
      idle := idle + {current};
      assert View() == LoopTakes(before);
      SwitchToFiber(InIdleLoop, to);
    }

    method TakeTask()
      requires tasks != []
      modifies this`num, this`tasks, this`started, this`pc
      ensures View() == old(View()).(num := old(num) - 1, tasks := old(tasks)[1..],
                                     started := old(started) + [old(tasks)[0]], pc := User)
    {
      num := num - 1;
      started := started + [tasks[0]];
      tasks := tasks[1..];
      pc := User;
    }

    /** One turn of `runUntilIdle`: queued fibers first, then the oldest task. */
    method TurnLoop()
      requires Valid() && pc.Loop?
      modifies this
      ensures Valid()
      ensures View() == LoopTurn(old(View()))
    {
      LoopTurnInv(View());
      if queue != [] {
        ParkAndResume();
      } else if tasks != [] {
        TakeTask();
      } else {
        pc := ShutdownTest;
      }
    }

    /** `runUntilShutdown`'s decision and the end of `run()`. */
    method LeaveOrStay()
      requires Valid() && pc.ShutdownTest?
      modifies this
      ensures View() == TestShutdown(old(View()))
      ensures waiting.Valid() && Safe(View())
    {
      ghost var before := View();
      TestShutdownSafe(before);
      if !shutdown || num > 0 || blocked > 0 {
        pc := CheckWork(FromLoop);
      } else if current == MAIN {
        pc := Exited;
      } else {
        SwitchToFiber(Gone, MAIN);
      }
    }
  }

  ghost predicate AllWaiting(states: seq<FiberState>, waiting: map<nat, int>) {
    forall f :: f in waiting ==> f < |states| && states[f] == Waiting
  }
}
