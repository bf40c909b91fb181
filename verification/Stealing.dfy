/** Several workers, tasks submitted to any of them, and work stealing
    (`Scheduler::enqueue`, `stealWork`, `Worker::steal`, `spinForWork` in src/scheduler.cpp). */
module Stealing {
  import opened Wrappers
  import opened WorkerModel
  import opened WorkerInvariant

  /** `hands[i]` is the local `stolen` of worker `i`'s `spinForWork`; `submitted` is history. */
  datatype Pool = Pool(workers: seq<Worker>, hands: seq<Option<Task>>, submitted: seq<Task>)

  function Init(modes: seq<bool>): Pool {
    Pool(seq(|modes|, i requires 0 <= i < |modes| => WorkerModel.Init(modes[i])), seq(|modes|, _ => None), [])
  }

  datatype Move =
    | Local(worker: nat, action: Action)      // any worker step that neither submits nor steals
    | Submit(worker: nat, task: Task)
    | Steal(thief: nat, victim: nat)
    | PushStolen(thief: nat)

  ghost predicate Possible(p: Pool, m: Move) {
    |p.hands| == |p.workers| &&
    match m
    case Local(i, a) =>
      && i < |p.workers| && Enabled(p.workers[i], a)
      && !a.DoEnqueueTask? && !a.DoSteal?
      && (a.DoSpinEnds? ==> p.hands[i].None?)
    case Submit(i, t) =>
      && i < |p.workers| && Enabled(p.workers[i], DoEnqueueTask(t))
      && (t.sameThread ==> i == t.home)       // Worker::getCurrent()->enqueue
    case Steal(i, v) =>
      && i < |p.workers| && v < |p.workers| && i != v
      && p.workers[i].pc.Spinning? && p.hands[i].None?
      && p.workers[v].multiThreaded && Enabled(p.workers[v], DoSteal)
    case PushStolen(i) =>
      && i < |p.workers| && p.hands[i].Some? && Enabled(p.workers[i], DoEnqueueTask(p.hands[i].value))
  }

  ghost function Next(p: Pool, m: Move): Pool
    requires Possible(p, m)
  {
    match m
    case Local(i, a) => p.(workers := p.workers[i := Apply(p.workers[i], a)])
    case Submit(i, t) =>
      p.(workers := p.workers[i := EnqueueTask(p.workers[i], t)], submitted := p.submitted + [t])
    case Steal(i, v) =>
      p.(workers := p.workers[v := StealFront(p.workers[v])], hands := p.hands[i := Some(p.workers[v].tasks[0])])
    case PushStolen(i) =>
      p.(workers := p.workers[i := EnqueueTask(p.workers[i], p.hands[i].value)], hands := p.hands[i := None])
  }

  ghost function Then(r: Option<Pool>, m: Move): Option<Pool> {
    if r.Some? && Possible(r.value, m) then Some(Next(r.value, m)) else None
  }

  ghost function Run(modes: seq<bool>, moves: seq<Move>): Option<Pool> {
    if moves == [] then Some(Init(modes))
    else Then(Run(modes, moves[..|moves| - 1]), moves[|moves| - 1])
  }

  lemma RunLast(modes: seq<bool>, moves: seq<Move>, m: Move)
    ensures Run(modes, moves + [m]) == Then(Run(modes, moves), m)
  {
    assert (moves + [m])[..|moves|] == moves;
  }

  // ---------------------------------------------------------------- counting a task

  ghost function Queued(w: Worker, t: Task): nat { multiset(w.tasks)[t] }
  ghost function Started(w: Worker, t: Task): nat { multiset(w.started)[t] }
  ghost function InHand(h: Option<Task>, t: Task): nat { if h == Some(t) then 1 else 0 }

  ghost function Total(workers: seq<Worker>, hands: seq<Option<Task>>, t: Task): nat
    requires |workers| == |hands|
  {
    if workers == [] then 0
    else
      var last := |workers| - 1;
      Total(workers[..last], hands[..last], t)
      + Queued(workers[last], t) + Started(workers[last], t) + InHand(hands[last], t)
  }

  lemma {:induction false} TotalUpdate(
    workers: seq<Worker>, hands: seq<Option<Task>>, i: nat, w: Worker, h: Option<Task>, t: Task)
    requires |workers| == |hands| && i < |workers|
    ensures Total(workers[i := w], hands[i := h], t)
         == Total(workers, hands, t)
            + Queued(w, t) + Started(w, t) + InHand(h, t)
            - Queued(workers[i], t) - Started(workers[i], t) - InHand(hands[i], t)
  {
    var last := |workers| - 1;
    if i == last {
      assert workers[i := w][..last] == workers[..last] && hands[i := h][..last] == hands[..last];
    } else {
      TotalUpdate(workers[..last], hands[..last], i, w, h, t);
      assert workers[i := w][..last] == workers[..last][i := w] && hands[i := h][..last] == hands[..last][i := h];
    }
  }

  lemma {:induction false} TotalAtStart(modes: seq<bool>, t: Task)
    ensures Total(Init(modes).workers, Init(modes).hands, t) == 0
  {
    if modes == [] {
    } else {
      var last := |modes| - 1;
      TotalAtStart(modes[..last], t);
      assert Init(modes).workers[..last] == Init(modes[..last]).workers;
      assert Init(modes).hands[..last] == Init(modes[..last]).hands;
    }
  }

  // ---------------------------------------------------------------- single steps

  lemma SwitchKeepsTasks(w: Worker, left: Park, to: nat)
    requires |w.parks| == |w.states| && w.current < |w.states| && to < |w.states|
    ensures SwitchTo(w, left, to).tasks == w.tasks && SwitchTo(w, left, to).started == w.started
  {
  }

  lemma SwitchAwayKeepsTasks(w: Worker, pick: nat)
    requires Sane(w) && (w.queue == [] && w.idle != {} ==> pick in w.idle)
    ensures SwitchAway(w, pick).tasks == w.tasks && SwitchAway(w, pick).started == w.started
  {
  }

  /** Only a turn of the idle loop, a submission or a theft changes what is queued or started. */
  lemma OthersKeepTasks(w: Worker, a: Action)
    requires Enabled(w, a) && !a.DoEnqueueTask? && !a.DoSteal? && !a.DoLoopTurn?
    ensures Apply(w, a).tasks == w.tasks && Apply(w, a).started == w.started
  {
    if a.DoSwitchAway? {
      SwitchAwayKeepsTasks(w, a.pick);
    } else if a.DoTestShutdown? {
      SwitchKeepsTasks(w, Gone, MAIN);
    }
  }

  /** A turn of the idle loop starts the oldest task, or none. */
  lemma LoopTurnTasks(w: Worker)
    requires Sane(w)
    ensures var w' := LoopTurn(w);
            if w.queue == [] && w.tasks != [] then w'.tasks == w.tasks[1..] && w'.started == w.started + [w.tasks[0]]
            else w'.tasks == w.tasks && w'.started == w.started
  {
  }

  lemma LocalKeepsTasks(w: Worker, a: Action, t: Task)
    requires Enabled(w, a) && !a.DoEnqueueTask? && !a.DoSteal?
    ensures Queued(Apply(w, a), t) + Started(Apply(w, a), t) == Queued(w, t) + Started(w, t)
  {
    if a.DoLoopTurn? {
      LoopTurnTasks(w);
      assert w.tasks != [] ==> w.tasks == [w.tasks[0]] + w.tasks[1..];
    } else {
      OthersKeepTasks(w, a);
    }
  }

  lemma NextTotal(p: Pool, m: Move, t: Task)
    requires Possible(p, m)
    ensures |Next(p, m).workers| == |Next(p, m).hands|
    ensures Total(Next(p, m).workers, Next(p, m).hands, t)
         == Total(p.workers, p.hands, t) + if m.Submit? && m.task == t then 1 else 0
  {
    match m
    case Local(i, a) =>
      TotalUpdate(p.workers, p.hands, i, Apply(p.workers[i], a), p.hands[i], t);
      assert p.hands[i := p.hands[i]] == p.hands;
      LocalKeepsTasks(p.workers[i], a, t);
    case Submit(i, x) =>
      TotalUpdate(p.workers, p.hands, i, EnqueueTask(p.workers[i], x), p.hands[i], t);
      assert p.hands[i := p.hands[i]] == p.hands;
    case Steal(i, v) =>
      StealTotal(p, i, v, t);
    case PushStolen(i) =>
      TotalUpdate(p.workers, p.hands, i, EnqueueTask(p.workers[i], p.hands[i].value), None, t);
  }

  lemma StealTotal(p: Pool, i: nat, v: nat, t: Task)
    requires Possible(p, Steal(i, v))
    ensures Total(Next(p, Steal(i, v)).workers, Next(p, Steal(i, v)).hands, t) == Total(p.workers, p.hands, t)
  {
    var victim := p.workers[v];
    var robbed := p.workers[v := StealFront(victim)];
    RobbedTotal(p, v, t);
    TotalUpdate(robbed, p.hands, i, robbed[i], Some(victim.tasks[0]), t);
    assert robbed[i := robbed[i]] == robbed;
  }

  lemma RobbedTotal(p: Pool, v: nat, t: Task)
    requires |p.hands| == |p.workers| && v < |p.workers| && p.workers[v].tasks != []
    ensures Total(p.workers[v := StealFront(p.workers[v])], p.hands, t)
         == Total(p.workers, p.hands, t) - InHand(Some(p.workers[v].tasks[0]), t)
  {
    var victim := p.workers[v];
    assert victim.tasks == [victim.tasks[0]] + victim.tasks[1..];
    TotalUpdate(p.workers, p.hands, v, StealFront(victim), p.hands[v], t);
    assert p.hands[v := p.hands[v]] == p.hands;
  }

  // ---------------------------------------------------------------- the pool invariant

  /** A task marked SameThread is only ever queued or started on its home worker. */
  ghost predicate AtHome(w: Worker, i: nat) {
    && (forall t :: t in w.tasks && t.sameThread ==> t.home == i)
    && (forall t :: t in w.started && t.sameThread ==> t.home == i)
  }

  ghost predicate Free(h: Option<Task>) { h.Some? ==> !h.value.sameThread }

  ghost predicate PoolInv(p: Pool) {
    && |p.hands| == |p.workers|
    && (forall i :: 0 <= i < |p.workers| ==> Safe(p.workers[i]))
    && (forall i :: 0 <= i < |p.workers| ==> AtHome(p.workers[i], i))
    && (forall i :: 0 <= i < |p.hands| ==> Free(p.hands[i]))
    && (forall t :: Total(p.workers, p.hands, t) == multiset(p.submitted)[t])
  }

  lemma LocalKeepsHome(w: Worker, a: Action, i: nat)
    requires Enabled(w, a) && AtHome(w, i)
    requires a.DoEnqueueTask? ==> a.task.sameThread ==> a.task.home == i
    ensures AtHome(Apply(w, a), i)
  {
    assert w.tasks != [] ==> w.tasks == [w.tasks[0]] + w.tasks[1..];
    if a.DoLoopTurn? {
      LoopTurnTasks(w);
    } else if !a.DoEnqueueTask? && !a.DoSteal? {
      OthersKeepTasks(w, a);
    }
  }

  /** The worker a move changes, and the worker step it is there. */
  ghost function Touched(p: Pool, m: Move): (nat, Action)
    requires Possible(p, m)
  {
    match m
    case Local(i, a) => (i, a)
    case Submit(i, t) => (i, DoEnqueueTask(t))
    case Steal(_, v) => (v, DoSteal)
    case PushStolen(i) => (i, DoEnqueueTask(p.hands[i].value))
  }

  lemma NextIsLocal(p: Pool, m: Move)
    requires Possible(p, m)
    ensures var (i, a) := Touched(p, m);
            i < |p.workers| && Enabled(p.workers[i], a)
            && Next(p, m).workers == p.workers[i := Apply(p.workers[i], a)]
  {
  }

  lemma NextWorkers(p: Pool, m: Move)
    requires PoolInv(p) && Possible(p, m)
    ensures forall k :: 0 <= k < |Next(p, m).workers| ==>
              Safe(Next(p, m).workers[k]) && AtHome(Next(p, m).workers[k], k)
  {
    var (i, a) := Touched(p, m);
    NextIsLocal(p, m);
    assert AtHome(p.workers[i], i) && Safe(p.workers[i]) && Free(p.hands[i]);
    SafeStep(p.workers[i], a);
    LocalKeepsHome(p.workers[i], a, i);
  }

  lemma NextHands(p: Pool, m: Move)
    requires PoolInv(p) && Possible(p, m)
    ensures |Next(p, m).hands| == |Next(p, m).workers|
    ensures forall k :: 0 <= k < |Next(p, m).hands| ==> Free(Next(p, m).hands[k])
  {
  }

  lemma NextConserves(p: Pool, m: Move, t: Task)
    requires PoolInv(p) && Possible(p, m)
    ensures |Next(p, m).hands| == |Next(p, m).workers|
    ensures Total(Next(p, m).workers, Next(p, m).hands, t) == multiset(Next(p, m).submitted)[t]
  {
    NextTotal(p, m, t);
    assert Total(p.workers, p.hands, t) == multiset(p.submitted)[t];
  }

  lemma NextInv(p: Pool, m: Move)
    requires PoolInv(p) && Possible(p, m)
    ensures PoolInv(Next(p, m))
  {
    NextWorkers(p, m);
    NextHands(p, m);
    forall t ensures Total(Next(p, m).workers, Next(p, m).hands, t) == multiset(Next(p, m).submitted)[t] {
      NextConserves(p, m, t);
    }
  }

  /** Across all workers and every interleaving: what is queued, in a thief's hand or started is exactly what
      was submitted; SameThread tasks stay home; every worker stays consistent. */
  lemma {:induction false} TasksConserved(modes: seq<bool>, moves: seq<Move>)
    requires Run(modes, moves).Some?
    ensures PoolInv(Run(modes, moves).value)
  {
    if moves == [] {
      var p := Init(modes);
      forall i | 0 <= i < |p.workers| ensures Safe(p.workers[i]) && AtHome(p.workers[i], i) {
        InitInv(modes[i]);
      }
      forall t ensures Total(p.workers, p.hands, t) == multiset(p.submitted)[t] {
        TotalAtStart(modes, t);
      }
    } else {
      TasksConserved(modes, moves[..|moves| - 1]);
      NextInv(Run(modes, moves[..|moves| - 1]).value, moves[|moves| - 1]);
    }
  }

  // ---------------------------------------------------------------- consequences

  ghost function StartedAnywhere(workers: seq<Worker>, t: Task): nat {
    if workers == [] then 0
    else StartedAnywhere(workers[..|workers| - 1], t) + Started(workers[|workers| - 1], t)
  }

  lemma {:induction false} StartedWithinTotal(workers: seq<Worker>, hands: seq<Option<Task>>, t: Task)
    requires |workers| == |hands|
    ensures StartedAnywhere(workers, t) <= Total(workers, hands, t)
  {
    if workers == [] {
    } else {
      StartedWithinTotal(workers[..|workers| - 1], hands[..|workers| - 1], t);
    }
  }

  /** A task is never started more often than it was submitted. */
  lemma NeverStartedTwice(modes: seq<bool>, moves: seq<Move>, t: Task)
    requires Run(modes, moves).Some?
    ensures StartedAnywhere(Run(modes, moves).value.workers, t) <= multiset(Run(modes, moves).value.submitted)[t]
  {
    var p := Run(modes, moves).value;
    TasksConserved(modes, moves);
    StartedWithinTotal(p.workers, p.hands, t);
  }

  ghost predicate Drained(p: Pool) {
    && (forall i :: 0 <= i < |p.workers| ==> p.workers[i].tasks == [])
    && (forall i :: 0 <= i < |p.hands| ==> p.hands[i].None?)
  }

  lemma {:induction false} DrainedTotal(workers: seq<Worker>, hands: seq<Option<Task>>, t: Task)
    requires |workers| == |hands|
    requires forall i :: 0 <= i < |workers| ==> workers[i].tasks == []
    requires forall i :: 0 <= i < |hands| ==> hands[i].None?
    ensures Total(workers, hands, t) == StartedAnywhere(workers, t)
  {
    if workers == [] {
    } else {
      DrainedTotal(workers[..|workers| - 1], hands[..|workers| - 1], t);
    }
  }

  /** Once the queues and the thieves' hands are empty, every task was started exactly as often as submitted. */
  lemma DrainedMeansAllStarted(modes: seq<bool>, moves: seq<Move>, t: Task)
    requires Run(modes, moves).Some? && Drained(Run(modes, moves).value)
    ensures StartedAnywhere(Run(modes, moves).value.workers, t) == multiset(Run(modes, moves).value.submitted)[t]
  {
    var p := Run(modes, moves).value;
    TasksConserved(modes, moves);
    DrainedTotal(p.workers, p.hands, t);
  }

  /** Nobody steals from worker `i` during these moves. */
  ghost predicate NoTheftFrom(moves: seq<Move>, i: nat) {
    forall k :: 0 <= k < |moves| ==> !(moves[k].Steal? && moves[k].victim == i)
  }

  lemma StoppedKeeps(p: Pool, m: Move, i: nat, t: Task)
    requires Possible(p, m) && i < |p.workers| && !(m.Steal? && m.victim == i)
    requires Stopped(p.workers[i]) && t in p.workers[i].tasks
    ensures i < |Next(p, m).workers| && Stopped(Next(p, m).workers[i])
    ensures t in Next(p, m).workers[i].tasks && Next(p, m).workers[i].started == p.workers[i].started
  {
    NextIsLocal(p, m);
    var (x, a) := Touched(p, m);
    if x == i {
      StoppedStays(p.workers[i], a);
    }
  }

  /** Worker `i` has exited with task `t` queued, and has started `begun` and nothing else. */
  ghost predicate Keeps(p: Pool, i: nat, t: Task, begun: seq<Task>) {
    i < |p.workers| && Stopped(p.workers[i]) && t in p.workers[i].tasks && p.workers[i].started == begun
  }

  /** Exited workers do not by themselves drain the pool: in every run of the pool, a task that was pushed onto a
      worker that has left stays there, never started by it, until another worker steals from it. */
  lemma {:induction false} LateTaskStays(modes: seq<bool>, moves: seq<Move>, more: seq<Move>, i: nat, t: Task)
    requires Run(modes, moves).Some? && Run(modes, moves + more).Some?
    requires i < |Run(modes, moves).value.workers| && NoTheftFrom(more, i)
    requires var w := Run(modes, moves).value.workers[i]; w.pc.Exited? && t in w.tasks
    ensures Keeps(Run(modes, moves + more).value, i, t, Run(modes, moves).value.workers[i].started)
  {
    if more == [] {
      assert moves + more == moves;
      TasksConserved(modes, moves);
      assert Safe(Run(modes, moves).value.workers[i]);
    } else {
      var before, m := more[..|more| - 1], more[|more| - 1];
      assert moves + more == (moves + before) + [m];
      RunLast(modes, moves + before, m);
      LateTaskStays(modes, moves, before, i, t);
      StoppedKeeps(Run(modes, moves + before).value, m, i, t);
    }
  }
}
