/** The condition variable on top of the workers. `CondVar` knows a waiting fiber only by a program counter, and
    `WorkerModel` takes on trust that a notified fiber is not idle. Here the two machines take their steps together:
    `suspend()` inside `Worker::wait` is the worker's `suspend`, a notification is the worker's `enqueue(Fiber*)`, and a
    fiber goes on when its worker switches to it. */
module FiberWaits {
  import opened Wrappers
  import W = WorkerModel
  import I = WorkerInvariant
  import C = CondVar
  import L = CondVarLocks
  import N = NoLostWakeup

  /** Waiter `i` of the condition variable is fiber `fiber[i]` of worker `cv.home[i]`. */
  datatype Joint = Joint(cv: C.State, workers: seq<W.Worker>, fiber: seq<nat>)

  datatype Step =
    | Wait(waiter: nat, late: bool)                   // the fiber's own code between two suspensions
    | Suspend(waiter: nat, timeout: Option<int>)      // suspend() inside Worker::wait
    | Notify(notifier: nat, choice: C.Choice)
    | Falsify
    | Work(worker: nat, action: W.Action)             // anything else a worker does, or that is done to it

  // ---------------------------------------------------------------- one fiber on one worker

  predicate Elsewhere(pc: C.WaiterPc) { pc == C.Outside || pc == C.Suspending || pc == C.Parked || pc == C.Woken }

  /** What the worker knows of a fiber whose wait stands at `pc`. */
  ghost predicate Coupled(pc: C.WaiterPc, timed: bool, w: W.Worker, f: nat) {
    match pc
    case Outside => true
    case Parked => f < |w.states| && w.states[f] == if timed then W.Waiting else W.Yielded
    case Woken => f < |w.states| && w.states[f] == W.Queued
    case _ => f < |w.states| && w.states[f] == W.Running && w.current == f && w.pc.User?
  }

  /** A parked fiber that its worker has queued has been woken; a woken one that its worker has resumed goes on. */
  function Synced(pc: C.WaiterPc, w: W.Worker, f: nat): C.WaiterPc {
    if pc == C.Parked && f < |w.states| && w.states[f] == W.Queued then C.Woken
    else if pc == C.Woken && f < |w.states| && w.states[f] == W.Running then C.Relocking
    else pc
  }

  /** What the current fiber does of its own accord. */
  predicate ByCurrent(a: W.Action) { a.DoSuspend? || a.DoTaskReturns? || a.DoStop? }

  /** One step of a worker moves a waiting fiber at most one stage on, and never to Idle. */
  ghost predicate OneStage(w: W.Worker, w': W.Worker, f: nat)
    requires f < |w.states|
  {
    && f < |w'.states|
    && (w.states[f] == W.Yielded ==> w'.states[f] == W.Yielded || w'.states[f] == W.Queued)
    && (w.states[f] == W.Waiting ==> w'.states[f] == W.Waiting || w'.states[f] == W.Queued)
    && (w.states[f] == W.Queued ==>
          w'.states[f] == W.Queued || (w'.states[f] == W.Running && w'.current == f && w'.pc.User?))
  }

  lemma QueuedStage(w: W.Worker, f: nat)
    requires I.Inv(w) && w.pc == W.GotWork(W.FromSuspend) && w.queue != []
    requires f < |w.states| && I.InWait(w.states[f])
    ensures OneStage(w, W.SwitchAway(w, 0), f)
  {
    I.QueuedResult(w);
    assert I.FiberOk(w, w.queue[0]);
  }

  lemma IdleStage(w: W.Worker, pick: nat, f: nat)
    requires I.Inv(w) && w.pc == W.GotWork(W.FromSuspend) && w.queue == [] && pick in w.idle
    requires f < |w.states| && I.InWait(w.states[f])
    ensures OneStage(w, W.SwitchAway(w, pick), f)
  {
    assert I.FiberOk(w, pick) && I.FiberOk(w, f) && I.FiberOk(w, w.current);
  }

  lemma SwitchStage(w: W.Worker, pick: nat, f: nat)
    requires I.Inv(w) && W.Enabled(w, W.DoSwitchAway(pick)) && f < |w.states| && I.InWait(w.states[f])
    ensures OneStage(w, W.SwitchAway(w, pick), f)
  {
    if w.queue != [] {
      QueuedStage(w, f);
    } else if w.idle != {} {
      IdleStage(w, pick, f);
    } else {
      I.FreshResult(w, pick);
    }
  }

  lemma LoopStage(w: W.Worker, f: nat)
    requires I.Inv(w) && w.pc.Loop? && f < |w.states| && I.InWait(w.states[f])
    ensures OneStage(w, W.LoopTurn(w), f)
  {
    if w.queue != [] {
      I.LoopResult(w);
      assert I.FiberOk(w, w.current) && I.FiberOk(w, w.queue[0]);
    }
  }

  lemma ShutdownStage(w: W.Worker, f: nat)
    requires I.Inv(w) && w.pc.ShutdownTest? && f < |w.states| && I.InWait(w.states[f])
    ensures OneStage(w, W.TestShutdown(w), f)
  {
    if w.shutdown && w.num == 0 && w.blocked == 0 {
      I.LeavingMeansNothingLeft(w);
      assert false;
    }
  }

  lemma WakeUpStage(w: W.Worker, now: int, order: seq<nat>, f: nat)
    requires W.Enabled(w, W.DoWakeUp(now, order)) && f < |w.states| && I.InWait(w.states[f])
    ensures OneStage(w, W.WakeUp(w, order), f)
  {
  }

  lemma EnqueueStage(w: W.Worker, g: nat, f: nat)
    requires g < |w.states| && f < |w.states| && I.InWait(w.states[f])
    ensures OneStage(w, W.EnqueueFiber(w, g), f)
  {
  }

  lemma StepStage(w: W.Worker, a: W.Action, f: nat)
    requires I.Inv(w) && W.Enabled(w, a) && f < |w.states| && I.InWait(w.states[f])
    ensures OneStage(w, W.Apply(w, a), f)
  {
    match a
    case DoSwitchAway(pick) => SwitchStage(w, pick, f);
    case DoLoopTurn => LoopStage(w, f);
    case DoTestShutdown => ShutdownStage(w, f);
    case DoWakeUp(now, order) => WakeUpStage(w, now, order, f);
    case DoEnqueueFiber(g) => EnqueueStage(w, g, f);
    case DoSuspend(_) => assert I.FiberOk(w, w.current);
    case _ =>
  }

  /** Other threads do not disturb the fiber that runs. */
  lemma StepRunning(w: W.Worker, a: W.Action)
    requires W.Enabled(w, a) && w.pc.User? && !ByCurrent(a) && w.states[w.current] == W.Running
    ensures var w' := W.Apply(w, a);
            w'.current == w.current < |w'.states| && w'.pc == w.pc && w'.states[w.current] == W.Running
  {
  }

  /** A worker that has handed off or stopped has no fiber inside a wait. */
  lemma NobodyWaits(pc: C.WaiterPc, timed: bool, w: W.Worker, f: nat)
    requires I.Safe(w) && !I.Inv(w) && Coupled(pc, timed, w, f)
    ensures pc == C.Outside
  {
  }

  lemma StepCoupled(pc: C.WaiterPc, timed: bool, w: W.Worker, a: W.Action, f: nat)
    requires I.Safe(w) && W.Enabled(w, a) && Coupled(pc, timed, w, f)
    requires ByCurrent(a) && w.current == f ==> pc == C.Outside
    ensures Coupled(Synced(pc, W.Apply(w, a), f), timed, W.Apply(w, a), f)
  {
    if pc == C.Outside {
    } else if !I.Inv(w) {
      NobodyWaits(pc, timed, w, f);
      assert false;
    } else if pc == C.Parked || pc == C.Woken {
      StepStage(w, a, f);
    } else {
      StepRunning(w, a);
    }
  }

  lemma SuspendCoupled(pc: C.WaiterPc, timed: bool, w: W.Worker, timeout: Option<int>, f: nat)
    requires W.Enabled(w, W.DoSuspend(timeout)) && w.current != f && Coupled(pc, timed, w, f)
    ensures Coupled(pc, timed, W.Suspend(w, timeout), f)
  {
  }

  lemma EnqueueCoupled(pc: C.WaiterPc, timed: bool, w: W.Worker, g: nat, f: nat)
    requires g < |w.states| && Coupled(pc, timed, w, f) && g != f
    ensures Coupled(pc, timed, W.EnqueueFiber(w, g), f)
  {
  }

  /** `Fiber::notify` as the condition variable sees it and as the worker does it. */
  lemma NotifyCoupled(pc: C.WaiterPc, timed: bool, w: W.Worker, f: nat)
    requires f < |w.states| && Coupled(pc, timed, w, f) && pc != C.Outside
    ensures w.states[f] != W.Idle
    ensures Coupled(if pc == C.Parked then C.Woken else pc, timed, W.EnqueueFiber(w, f), f)
  {
  }

  // ---------------------------------------------------------------- the condition variable meanwhile

  /** While a notifier holds the list mutex, the fibers it has yet to visit stay in the list. */
  ghost predicate VisitsListed(s: C.State, j: nat)
    requires j < |s.notifiers|
  {
    s.notifiers[j].Visiting? ==> forall x :: x in s.notifiers[j].rest ==> x in s.list
  }

  ghost predicate AllVisitsListed(s: C.State) {
    forall j: nat :: j < |s.notifiers| ==> VisitsListed(s, j)
  }

  lemma WaiterVisits(s: C.State, i: nat, late: bool, j: nat)
    requires L.Locks(s) && i < |s.waiters| && C.WaiterCan(s, i, late) && j < |s.notifiers| && VisitsListed(s, j)
    ensures VisitsListed(C.WaiterStep(s, i, late), j)
  {
    assert L.NotifierOk(s, j);
    assert s.notifiers[j].Visiting? ==> C.WaiterStep(s, i, late).list == s.list;
  }

  lemma NotifierVisits(s: C.State, j: nat, c: C.Choice, k: nat)
    requires L.Locks(s) && j < |s.notifiers| && C.NotifierCan(s, j, c) && k < |s.notifiers| && VisitsListed(s, k)
    ensures VisitsListed(C.NotifierStep(s, j, c), k)
  {
    assert C.NotifierStep(s, j, c).list == s.list;
  }

  lemma ListedVisitsStep(s: C.State, a: C.Action)
    requires L.Locks(s) && AllVisitsListed(s) && C.Enabled(s, a)
    ensures AllVisitsListed(C.Apply(s, a))
  {
    var s' := C.Apply(s, a);
    forall j: nat | j < |s'.notifiers| ensures VisitsListed(s', j) {
      assert VisitsListed(s, j);
      match a
      case ByWaiter(i, late) => WaiterVisits(s, i, late, j);
      case ByNotifier(k, c) => NotifierVisits(s, k, c, j);
      case Falsify =>
    }
  }

  /** A wait that moved only by being woken or resumed. */
  predicate Nudged(pc: C.WaiterPc, pc': C.WaiterPc) {
    pc' == pc || (pc == C.Parked && pc' == C.Woken) || (pc == C.Woken && pc' == C.Relocking)
  }

  ghost predicate AllNudged(before: seq<C.WaiterPc>, after: seq<C.WaiterPc>) {
    |after| == |before| && forall i :: 0 <= i < |before| ==> Nudged(before[i], after[i])
  }

  lemma {:induction false} NudgedCount(before: seq<C.WaiterPc>, after: seq<C.WaiterPc>)
    requires AllNudged(before, after)
    ensures L.CountCounted(after) == L.CountCounted(before)
  {
    if before == [] {
    } else {
      NudgedCount(before[..|before| - 1], after[..|before| - 1]);
    }
  }

  lemma NudgedLocks(s: C.State, after: seq<C.WaiterPc>)
    requires L.Locks(s) && AllVisitsListed(s) && AllNudged(s.waiters, after)
    ensures L.Locks(s.(waiters := after)) && AllVisitsListed(s.(waiters := after))
  {
    var s' := s.(waiters := after);
    NudgedCount(s.waiters, after);
    forall i: nat | i < |s'.waiters| ensures L.WaiterOk(s', i) {
      assert L.WaiterOk(s, i) && Nudged(s.waiters[i], after[i]);
    }
    forall j: nat | j < |s'.notifiers| ensures L.NotifierOk(s', j) && VisitsListed(s', j) {
      assert L.NotifierOk(s, j) && VisitsListed(s, j);
    }
  }

  lemma NudgedNotStranded(s: C.State, after: seq<C.WaiterPc>)
    requires L.Locks(s) && AllVisitsListed(s) && N.Inv(s) && AllNudged(s.waiters, after)
    ensures N.Inv(s.(waiters := after))
  {
    var s' := s.(waiters := after);
    NudgedLocks(s, after);
    forall i: nat | i < |s'.waiters| ensures N.NotStranded(s', i) {
      assert N.NotStranded(s, i) && Nudged(s.waiters[i], after[i]);
      if N.LockPending(s) {
        var j: nat :| j < |s.notifiers| && s.notifiers[j] == C.Decremented;
        assert s'.notifiers[j] == C.Decremented;
      }
      if N.Owed(s, i) {
        var j: nat :| j < |s.notifiers| && N.Owes(s.notifiers[j], i);
        assert N.Owes(s'.notifiers[j], i);
      }
    }
  }

  // ---------------------------------------------------------------- the two machines together

  /** The waiters are different fibers of existing workers. */
  ghost predicate Shaped(j: Joint) {
    && C.Sane(j.cv) && |j.fiber| == |j.cv.waiters| && |j.cv.work| == |j.workers|
    && (forall x, y :: 0 <= x < y < |j.fiber| ==> j.cv.home[x] != j.cv.home[y] || j.fiber[x] != j.fiber[y])
  }

  ghost function Host(j: Joint, i: nat): W.Worker
    requires Shaped(j) && i < |j.fiber|
  {
    j.workers[j.cv.home[i]]
  }

  ghost predicate CoupledAt(j: Joint, i: nat)
    requires Shaped(j) && i < |j.fiber|
  {
    Coupled(j.cv.waiters[i], j.cv.timed[i], Host(j, i), j.fiber[i])
  }

  /** The notifier stands before its next fiber. */
  ghost predicate Visits(s: C.State, n: nat, c: C.Choice) {
    C.Sane(s) && n < |s.notifiers| && C.NotifierCan(s, n, c) && s.notifiers[n].Visiting? && s.notifiers[n].rest != []
  }

  /** Whether the fiber that is notified or suspended is one its worker can handle is not asked here: that it always is
      follows from `NotifiedIsWaiting` and `SuspenderRuns`. */
  ghost predicate Possible(j: Joint, step: Step) {
    Shaped(j) &&
    match step
    case Wait(i, late) =>
      && C.Enabled(j.cv, C.ByWaiter(i, late)) && (j.cv.waiters[i] == C.Outside || !Elsewhere(j.cv.waiters[i]))
      && (j.cv.waiters[i] == C.Outside ==> Host(j, i).pc.User? && Host(j, i).current == j.fiber[i])
    case Suspend(i, timeout) =>
      && C.Enabled(j.cv, C.ByWaiter(i, false)) && j.cv.waiters[i] == C.Suspending
      && (timeout.Some? <==> j.cv.timed[i]) && Host(j, i).current < |Host(j, i).states|
    case Notify(n, c) =>
      && C.Enabled(j.cv, C.ByNotifier(n, c))
      && (Visits(j.cv, n, c) ==>
            var i := j.cv.notifiers[n].rest[0];
            W.MutexFree(Host(j, i)) && j.fiber[i] < |Host(j, i).states|)
    case Falsify => true
    case Work(k, a) =>
      && k < |j.workers| && W.Enabled(j.workers[k], a)
      && (ByCurrent(a) ==> forall i :: 0 <= i < |j.fiber| && j.cv.home[i] == k && j.fiber[i] == j.workers[k].current ==>
                             j.cv.waiters[i] == C.Outside)
  }

  ghost function SyncedAll(j: Joint, k: nat, w: W.Worker): (r: seq<C.WaiterPc>)
    requires Shaped(j)
    ensures |r| == |j.cv.waiters|
  {
    seq(|j.cv.waiters|, i requires 0 <= i < |j.cv.waiters| =>
      if j.cv.home[i] == k then Synced(j.cv.waiters[i], w, j.fiber[i]) else j.cv.waiters[i])
  }

  ghost function Next(j: Joint, step: Step): Joint
    requires Possible(j, step)
  {
    match step
    case Wait(i, late) => j.(cv := C.Apply(j.cv, C.ByWaiter(i, late)))
    case Suspend(i, timeout) =>
      j.(cv := C.Apply(j.cv, C.ByWaiter(i, false)),
         workers := j.workers[j.cv.home[i] := W.Suspend(Host(j, i), timeout)])
    case Notify(n, c) =>
      var cv := C.Apply(j.cv, C.ByNotifier(n, c));
      if Visits(j.cv, n, c) then
        var i := j.cv.notifiers[n].rest[0];
        j.(cv := cv, workers := j.workers[j.cv.home[i] := W.EnqueueFiber(Host(j, i), j.fiber[i])])
      else j.(cv := cv)
    case Falsify => j.(cv := C.Apply(j.cv, C.Falsify))
    case Work(k, a) =>
      var w := W.Apply(j.workers[k], a);
      j.(workers := j.workers[k := w], cv := j.cv.(waiters := SyncedAll(j, k, w)))
  }

  ghost predicate IsStart(j: Joint) {
    && Shaped(j) && C.IsStart(j.cv)
    && (forall k :: 0 <= k < |j.workers| ==> j.workers[k] == W.Init(j.workers[k].multiThreaded))
  }

  ghost function Exec(start: Joint, steps: seq<Step>): Option<Joint> {
    if steps == [] then Some(start)
    else
      var last := |steps| - 1;
      match Exec(start, steps[..last])
      case None => None
      case Some(j) => if Possible(j, steps[last]) then Some(Next(j, steps[last])) else None
  }

  // ---------------------------------------------------------------- what every joint step keeps

  ghost predicate WorkersSafe(j: Joint) {
    forall k :: 0 <= k < |j.workers| ==> I.Safe(j.workers[k])
  }

  ghost predicate Inv(j: Joint) {
    && Shaped(j)
    && L.Locks(j.cv) && AllVisitsListed(j.cv)
    && WorkersSafe(j)
    && (forall i: nat :: i < |j.fiber| ==> CoupledAt(j, i))
  }

  /** The discharge: a fiber that is about to be notified exists and is not idle. */
  lemma NotifiedIsWaiting(j: Joint, n: nat, c: C.Choice)
    requires Inv(j) && Visits(j.cv, n, c)
    ensures var i := j.cv.notifiers[n].rest[0];
            && j.cv.waiters[i] != C.Outside && I.Inv(Host(j, i))
            && j.fiber[i] < |Host(j, i).states| && Host(j, i).states[j.fiber[i]] != W.Idle
  {
    var i := j.cv.notifiers[n].rest[0];
    assert VisitsListed(j.cv, n) && L.WaiterOk(j.cv, i) && CoupledAt(j, i) && I.Safe(Host(j, i));
    if !I.Inv(Host(j, i)) {
      NobodyWaits(j.cv.waiters[i], j.cv.timed[i], Host(j, i), j.fiber[i]);
      assert false;
    }
  }

  /** A fiber at the door of `suspend()` is the one its worker runs. */
  lemma SuspenderRuns(j: Joint, i: nat)
    requires Inv(j) && i < |j.fiber| && j.cv.waiters[i] == C.Suspending
    ensures I.Inv(Host(j, i)) && Host(j, i).pc.User? && Host(j, i).current == j.fiber[i] < |Host(j, i).states|
  {
    assert CoupledAt(j, i) && I.Safe(Host(j, i));
  }

  /** The condition-variable side of a step that is also one of `CondVar`'s own. */
  ghost predicate CvMoves(j: Joint, j': Joint, a: C.Action) {
    C.Enabled(j.cv, a) && j'.cv == C.Apply(j.cv, a) && j'.fiber == j.fiber && |j'.workers| == |j.workers|
  }

  lemma KeepsShape(j: Joint, j': Joint, a: C.Action)
    requires Shaped(j) && L.Locks(j.cv) && AllVisitsListed(j.cv) && CvMoves(j, j', a)
    ensures Shaped(j') && L.Locks(j'.cv) && AllVisitsListed(j'.cv)
    ensures j'.cv.home == j.cv.home && j'.cv.timed == j.cv.timed
  {
    L.StepLocks(j.cv, a);
    ListedVisitsStep(j.cv, a);
  }

  lemma OwnCoupled(j: Joint, i: nat, late: bool)
    requires Inv(j) && Possible(j, Wait(i, late))
    ensures Coupled(C.WaiterStep(j.cv, i, late).waiters[i], j.cv.timed[i], Host(j, i), j.fiber[i])
  {
    assert CoupledAt(j, i) && I.Safe(Host(j, i));
    OwnCode(j.cv, i, late, Host(j, i), j.fiber[i]);
  }

  lemma WaitInv(j: Joint, i: nat, late: bool)
    requires Inv(j) && Possible(j, Wait(i, late))
    ensures Inv(Next(j, Wait(i, late)))
  {
    var j' := Next(j, Wait(i, late));
    KeepsShape(j, j', C.ByWaiter(i, late));
    OwnCoupled(j, i, late);
    OthersStand(j.cv, i, late);
    StaysInv(j, j', i);
  }

  /** Only the wait of `i` has moved. */
  lemma StaysInv(j: Joint, j': Joint, i: nat)
    requires Inv(j) && Shaped(j') && L.Locks(j'.cv) && AllVisitsListed(j'.cv) && i < |j.fiber|
    requires j'.workers == j.workers && j'.fiber == j.fiber
    requires j'.cv.home == j.cv.home && j'.cv.timed == j.cv.timed && |j'.cv.waiters| == |j.cv.waiters|
    requires forall x :: 0 <= x < |j.fiber| && x != i ==> j'.cv.waiters[x] == j.cv.waiters[x]
    requires CoupledAt(j', i)
    ensures Inv(j')
  {
    forall x: nat | x < |j'.fiber| ensures CoupledAt(j', x) {
      assert CoupledAt(j, x);
    }
  }

  lemma OthersStand(s: C.State, i: nat, late: bool)
    requires C.Sane(s) && i < |s.waiters| && C.WaiterCan(s, i, late)
    ensures var s' := C.WaiterStep(s, i, late);
            |s'.waiters| == |s.waiters| && forall x :: 0 <= x < |s.waiters| && x != i ==> s'.waiters[x] == s.waiters[x]
  {
  }

  lemma OwnCode(s: C.State, i: nat, late: bool, w: W.Worker, f: nat)
    requires C.Sane(s) && i < |s.waiters| && C.WaiterCan(s, i, late) && I.Safe(w)
    requires s.waiters[i] == C.Outside || !Elsewhere(s.waiters[i])
    requires s.waiters[i] == C.Outside ==> w.pc.User? && w.current == f
    requires Coupled(s.waiters[i], s.timed[i], w, f)
    ensures Coupled(C.WaiterStep(s, i, late).waiters[i], s.timed[i], w, f)
  {
    if s.waiters[i] == C.Outside {
      assert I.FiberOk(w, w.current);
    }
  }

  lemma SuspendInv(j: Joint, i: nat, timeout: Option<int>)
    requires Inv(j) && Possible(j, Suspend(i, timeout))
    ensures Inv(Next(j, Suspend(i, timeout)))
  {
    var j' := Next(j, Suspend(i, timeout));
    KeepsShape(j, j', C.ByWaiter(i, false));
    SuspenderRuns(j, i);
    I.SuspendInv(Host(j, i), timeout);
    forall x: nat | x < |j'.fiber| ensures CoupledAt(j', x) {
      assert CoupledAt(j, x);
      if x != i && j.cv.home[x] == j.cv.home[i] {
        SuspendCoupled(j.cv.waiters[x], j.cv.timed[x], Host(j, x), timeout, j.fiber[x]);
      }
    }
  }

  lemma VisitCoupled(j: Joint, j': Joint, i: nat, x: nat)
    requires Shaped(j) && Shaped(j') && i < |j.fiber| && x < |j.fiber| && CoupledAt(j, i) && CoupledAt(j, x)
    requires j.cv.waiters[i] != C.Outside && j.fiber[i] < |Host(j, i).states|
    requires j'.fiber == j.fiber && j'.cv.home == j.cv.home && j'.cv.timed == j.cv.timed
    requires j'.cv.waiters == C.WakeIfParked(j.cv.waiters, i)
    requires j'.workers == j.workers[j.cv.home[i] := W.EnqueueFiber(Host(j, i), j.fiber[i])]
    ensures CoupledAt(j', x)
  {
    if x == i {
      NotifyCoupled(j.cv.waiters[i], j.cv.timed[i], Host(j, i), j.fiber[i]);
    } else if j.cv.home[x] == j.cv.home[i] {
      EnqueueCoupled(j.cv.waiters[x], j.cv.timed[x], Host(j, x), j.fiber[i], j.fiber[x]);
    }
  }

  lemma VisitInv(j: Joint, n: nat, c: C.Choice)
    requires Inv(j) && Possible(j, Notify(n, c)) && Visits(j.cv, n, c)
    ensures Inv(Next(j, Notify(n, c)))
  {
    var j' := Next(j, Notify(n, c));
    var i := j.cv.notifiers[n].rest[0];
    KeepsShape(j, j', C.ByNotifier(n, c));
    NotifiedIsWaiting(j, n, c);
    I.EnqueueFiberInv(Host(j, i), j.fiber[i]);
    assert CoupledAt(j, i);
    forall x: nat | x < |j'.fiber| ensures CoupledAt(j', x) {
      assert CoupledAt(j, x);
      VisitCoupled(j, j', i, x);
    }
  }

  lemma QuietInv(j: Joint, step: Step)
    requires Inv(j) && Possible(j, step)
    requires step.Falsify? || (step.Notify? && !Visits(j.cv, step.notifier, step.choice))
    ensures Inv(Next(j, step))
  {
    var j' := Next(j, step);
    KeepsShape(j, j', if step.Falsify? then C.Falsify else C.ByNotifier(step.notifier, step.choice));
    assert j'.cv.waiters == j.cv.waiters && j'.workers == j.workers;
    forall x: nat | x < |j'.fiber| ensures CoupledAt(j', x) {
      assert CoupledAt(j, x);
    }
  }

  lemma SyncNudges(j: Joint, k: nat, w: W.Worker)
    requires Shaped(j)
    ensures AllNudged(j.cv.waiters, SyncedAll(j, k, w))
  {
  }

  lemma WorkInv(j: Joint, k: nat, a: W.Action)
    requires Inv(j) && Possible(j, Work(k, a))
    ensures Inv(Next(j, Work(k, a)))
  {
    var j' := Next(j, Work(k, a));
    SyncNudges(j, k, W.Apply(j.workers[k], a));
    NudgedLocks(j.cv, j'.cv.waiters);
    assert I.Safe(j.workers[k]);
    I.SafeStep(j.workers[k], a);
    forall x: nat | x < |j'.fiber| ensures CoupledAt(j', x) {
      assert CoupledAt(j, x);
      if j.cv.home[x] == k {
        StepCoupled(j.cv.waiters[x], j.cv.timed[x], j.workers[k], a, j.fiber[x]);
      }
    }
  }

  lemma StepInv(j: Joint, step: Step)
    requires Inv(j) && Possible(j, step)
    ensures Inv(Next(j, step))
  {
    match step
    case Wait(i, late) => WaitInv(j, i, late);
    case Suspend(i, timeout) => SuspendInv(j, i, timeout);
    case Notify(n, c) =>
      if Visits(j.cv, n, c) {
        VisitInv(j, n, c);
      } else {
        QuietInv(j, step);
      }
    case Falsify => QuietInv(j, step);
    case Work(k, a) => WorkInv(j, k, a);
  }

  lemma StartInv(j: Joint)
    requires IsStart(j)
    ensures Inv(j)
  {
    L.StartLocks(j.cv);
    forall k | 0 <= k < |j.workers| ensures I.Safe(j.workers[k]) {
      I.InitInv(j.workers[k].multiThreaded);
    }
  }

  /** In every run of the two machines together, no worker assertion fails, and what the condition variable believes of
      its waiters is what their workers know: a parked fiber is Yielded or Waiting, a woken one Queued, and one that is
      anywhere else inside its wait is the Running fiber of its worker. */
  lemma {:induction false} RunInv(start: Joint, steps: seq<Step>)
    requires IsStart(start) && Exec(start, steps).Some?
    ensures Inv(Exec(start, steps).value)
  {
    if steps == [] {
      StartInv(start);
    } else {
      var last := |steps| - 1;
      RunInv(start, steps[..last]);
      StepInv(Exec(start, steps[..last]).value, steps[last]);
    }
  }

  // ---------------------------------------------------------------- nobody is stranded on a worker

  ghost predicate NotifiesAll(steps: seq<Step>) {
    forall k :: 0 <= k < |steps| ==> !(steps[k].Notify? && steps[k].choice == C.GoOne)
  }

  lemma StepNotStranded(j: Joint, step: Step)
    requires Inv(j) && N.Inv(j.cv) && Possible(j, step) && !(step.Notify? && step.choice == C.GoOne)
    ensures N.Inv(Next(j, step).cv)
  {
    match step
    case Wait(i, late) => N.StepKeeps(j.cv, C.ByWaiter(i, late));
    case Suspend(i, _) => N.StepKeeps(j.cv, C.ByWaiter(i, false));
    case Notify(n, c) => N.StepKeeps(j.cv, C.ByNotifier(n, c));
    case Falsify => N.StepKeeps(j.cv, C.Falsify);
    case Work(k, a) =>
      SyncNudges(j, k, W.Apply(j.workers[k], a));
      NudgedNotStranded(j.cv, Next(j, step).cv.waiters);
  }

  lemma {:induction false} RunNotStranded(start: Joint, steps: seq<Step>)
    requires IsStart(start) && NotifiesAll(steps) && Exec(start, steps).Some?
    ensures Inv(Exec(start, steps).value) && N.Inv(Exec(start, steps).value.cv)
  {
    RunInv(start, steps);
    if steps == [] {
      L.StartLocks(start.cv);
    } else {
      var last := |steps| - 1;
      RunNotStranded(start, steps[..last]);
      StepNotStranded(Exec(start, steps[..last]).value, steps[last]);
    }
  }

  /** In the worker's own terms: a fiber inside an untimed wait that its worker holds as Yielded, or inside a timed one
      that it holds as Waiting, while the predicate is true, is owed a notification. */
  lemma SuspendedIsOwed(start: Joint, steps: seq<Step>, i: nat)
    requires IsStart(start) && NotifiesAll(steps) && Exec(start, steps).Some?
    requires i < |start.fiber| && i < |Exec(start, steps).value.fiber|
    requires var j := Exec(start, steps).value;
             && Shaped(j) && j.cv.pred && j.cv.waiters[i] != C.Outside && j.fiber[i] < |Host(j, i).states|
             && (Host(j, i).states[j.fiber[i]] == W.Yielded || Host(j, i).states[j.fiber[i]] == W.Waiting)
    ensures N.Owed(Exec(start, steps).value.cv, i)
  {
    RunNotStranded(start, steps);
    var j := Exec(start, steps).value;
    assert CoupledAt(j, i) && N.NotStranded(j.cv, i);
  }
}
