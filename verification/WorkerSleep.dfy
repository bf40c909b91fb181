/** How a worker's thread sleeps and is woken: `Work::wait`, the flag `notify_added` and the two `enqueue`s that read it
    (src/scheduler.cpp). The owner sleeps on `added`; enqueuers push under the mutex, read the flag there, and call
    `notify_one` only after they have let go of the mutex. Thieves take tasks and execute them elsewhere. */
module WorkerSleep {
  import opened Wrappers

  /** A queued item: the task with which `stop()` sets `shutdown`, or anything else. */
  datatype Item = Stop | Other

  datatype OwnerPc =
    | Away          // not inside Work::wait
    | Testing       // holds the mutex; the condition is evaluated next
    | Asleep        // waits on `added`
    | Woken         // notified, timed out or woken spuriously; has yet to retake the mutex

  datatype EnqueuerPc =
    | Resting
    | Holding                 // holds the mutex
    | Added(notify: bool)     // has pushed, read the flag and released the mutex

  datatype Holder = Nobody | Owner | Enqueuer(id: nat)

  datatype Worker = Worker(
    owner: OwnerPc,
    enqueuers: seq<EnqueuerPc>,
    hands: seq<Option<Item>>,     // what each other worker thread has stolen and not yet executed
    mutex: Holder,
    queue: multiset<Item>,        // fibers and tasks, in whatever order; work_.num is its size
    notifyAdded: bool,
    shutdown: bool,
    blocked: nat)                 // num_blocked_fibers

  /** A worker as `start()` leaves it, with any number of enqueuers and of other worker threads. */
  predicate IsStart(w: Worker) {
    && w.owner == Away && w.mutex == Nobody && w.queue == multiset{} && w.notifyAdded && !w.shutdown && w.blocked == 0
    && (forall j :: 0 <= j < |w.enqueuers| ==> w.enqueuers[j] == Resting)
    && (forall t :: 0 <= t < |w.hands| ==> w.hands[t] == None)
  }

  /** The condition `waitForWork` waits for. */
  predicate Ready(w: Worker) {
    w.queue != multiset{} || (w.shutdown && w.blocked == 0)
  }

  datatype Action =
    | Lock | Unlock | Take(item: Item) | Block(fibers: nat)     // the owner outside Work::wait
    | Enter | Test | Stir | Relock(late: bool)                  // the owner inside Work::wait
    | Grab(enqueuer: nat) | LetGo(enqueuer: nat) | Push(enqueuer: nat, item: Item) | Notify(enqueuer: nat)
    | Steal(thief: nat, item: Item) | Execute(thief: nat)

  predicate Enabled(w: Worker, a: Action) {
    match a
    case Lock => w.owner == Away && w.mutex == Nobody
    case Unlock => w.owner == Away && w.mutex == Owner
    case Take(x) => w.owner == Away && w.mutex == Owner && x in w.queue
    case Block(_) => w.owner == Away && w.mutex == Owner
    case Enter => w.owner == Away && w.mutex == Owner
    case Test => w.owner == Testing
    case Stir => w.owner == Asleep                   // a deadline, or a spurious wake-up
    case Relock(_) => w.owner == Woken && w.mutex == Nobody
    case Grab(j) => j < |w.enqueuers| && w.enqueuers[j] == Resting && w.mutex == Nobody
    case LetGo(j) => j < |w.enqueuers| && w.enqueuers[j] == Holding
    case Push(j, _) => j < |w.enqueuers| && w.enqueuers[j] == Holding
    case Notify(j) => j < |w.enqueuers| && w.enqueuers[j].Added?
    case Steal(t, x) => t < |w.hands| && w.hands[t].None? && w.mutex == Nobody && x in w.queue
    case Execute(t) => t < |w.hands| && w.hands[t].Some?
  }

  function Apply(w: Worker, a: Action): Worker
    requires Enabled(w, a)
  {
    match a
    case Lock => w.(mutex := Owner)
    case Unlock => w.(mutex := Nobody)
    case Take(x) => w.(queue := w.queue - multiset{x}, shutdown := w.shutdown || x == Stop)
    case Block(n) => w.(blocked := n)
    case Enter => w.(owner := Testing, notifyAdded := true)
    case Test => if Ready(w) then w.(owner := Away, notifyAdded := false) else w.(owner := Asleep, mutex := Nobody)
    case Stir => w.(owner := Woken)
    case Relock(late) =>
      if late then w.(owner := Away, mutex := Owner, notifyAdded := false)      // wait_until has run out
      else w.(owner := Testing, mutex := Owner)
    case Grab(j) => w.(enqueuers := w.enqueuers[j := Holding], mutex := Enqueuer(j))
    case LetGo(j) => w.(enqueuers := w.enqueuers[j := Resting], mutex := Nobody)
    case Push(j, x) =>
      w.(queue := w.queue + multiset{x}, enqueuers := w.enqueuers[j := Added(w.notifyAdded)], mutex := Nobody)
    case Notify(j) =>
      w.(enqueuers := w.enqueuers[j := Resting],
         owner := if w.enqueuers[j].notify && w.owner == Asleep then Woken else w.owner)
    case Steal(t, x) => w.(queue := w.queue - multiset{x}, hands := w.hands[t := Some(x)])
    case Execute(t) => w.(hands := w.hands[t := None], shutdown := w.shutdown || w.hands[t] == Some(Stop))
  }

  function Exec(start: Worker, actions: seq<Action>): Option<Worker> {
    if actions == [] then Some(start)
    else
      var last := |actions| - 1;
      match Exec(start, actions[..last])
      case None => None
      case Some(w) => if Enabled(w, actions[last]) then Some(Apply(w, actions[last])) else None
  }

  // ---------------------------------------------------------------- no push goes unnoticed

  /** Some enqueuer saw the flag set and has yet to call `notify_one`. */
  ghost predicate Owed(w: Worker) {
    exists j: nat :: j < |w.enqueuers| && w.enqueuers[j] == Added(true)
  }

  ghost predicate Inv(w: Worker) {
    && (w.owner == Testing ==> w.mutex == Owner)
    && (w.owner == Asleep || w.owner == Woken ==> w.mutex != Owner)
    && (w.owner != Away ==> w.notifyAdded)
    && (forall j: nat :: j < |w.enqueuers| ==> (w.enqueuers[j] == Holding <==> w.mutex == Enqueuer(j)))
    && (w.owner == Asleep && w.queue != multiset{} ==> Owed(w))
  }

  lemma StillOwed(w: Worker, a: Action)
    requires Inv(w) && Enabled(w, a) && Owed(w)
    ensures Owed(Apply(w, a)) || Apply(w, a).owner != Asleep
  {
    var j: nat :| j < |w.enqueuers| && w.enqueuers[j] == Added(true);
    assert a != Notify(j) ==> Apply(w, a).enqueuers[j] == Added(true);
  }

  lemma StepInv(w: Worker, a: Action)
    requires Inv(w) && Enabled(w, a)
    ensures Inv(Apply(w, a))
  {
    var w' := Apply(w, a);
    if w'.owner == Asleep && w'.queue != multiset{} {
      if a.Push? {
        assert w'.enqueuers[a.enqueuer] == Added(true);
      } else {
        StillOwed(w, a);
      }
    }
  }

  lemma {:induction false} RunInv(start: Worker, actions: seq<Action>)
    requires IsStart(start) && Exec(start, actions).Some?
    ensures Inv(Exec(start, actions).value)
  {
    if actions == [] {
    } else {
      var last := |actions| - 1;
      RunInv(start, actions[..last]);
      StepInv(Exec(start, actions[..last]).value, actions[last]);
    }
  }

  /** In every run: a worker that is asleep with something queued is owed a `notify_one` by an enqueuer that read
      `notify_added` under the mutex. */
  lemma PushIsNoticed(start: Worker, actions: seq<Action>)
    requires IsStart(start) && Exec(start, actions).Some?
    requires Exec(start, actions).value.owner == Asleep && Exec(start, actions).value.queue != multiset{}
    ensures Owed(Exec(start, actions).value)
  {
    RunInv(start, actions);
  }

  // ---------------------------------------------------------------- but a stolen stop task does

  /** Asleep although what it waits for, shutdown included, has come about, and nobody is about to wake it. */
  ghost predicate Oversleeps(w: Worker) {
    w.owner == Asleep && Ready(w) && !Owed(w)
  }

  ghost predicate NeverOversleeps(start: Worker) {
    forall actions :: Exec(start, actions).Some? ==> !Oversleeps(Exec(start, actions).value)
  }

  /** With nobody to steal from it, or nobody to push, only the owner sets `shutdown`, and not in its sleep. */
  ghost predicate StopsItself(w: Worker) {
    && (|w.enqueuers| == 0 ==> w.queue == multiset{} && forall t :: 0 <= t < |w.hands| ==> w.hands[t].None?)
    && (|w.enqueuers| > 0 ==> |w.hands| == 0)
    && (w.owner == Asleep ==> !(w.shutdown && w.blocked == 0))
  }

  lemma StepStopsItself(w: Worker, a: Action)
    requires Inv(w) && StopsItself(w) && Enabled(w, a)
    ensures StopsItself(Apply(w, a))
  {
  }

  lemma {:induction false} RunStopsItself(start: Worker, actions: seq<Action>)
    requires IsStart(start) && (start.hands == [] || start.enqueuers == []) && Exec(start, actions).Some?
    ensures Inv(Exec(start, actions).value) && StopsItself(Exec(start, actions).value)
  {
    RunInv(start, actions);
    if actions == [] {
    } else {
      var last := |actions| - 1;
      RunStopsItself(start, actions[..last]);
      StepStopsItself(Exec(start, actions[..last]).value, actions[last]);
    }
  }

  lemma Follow(start: Worker, actions: seq<Action>, a: Action, w: Worker)
    requires Exec(start, actions).Some? && Enabled(Exec(start, actions).value, a)
    requires w == Apply(Exec(start, actions).value, a)
    ensures Exec(start, actions + [a]) == Some(w)
  {
    assert (actions + [a])[..|actions|] == actions;
  }

  /** The owner falls asleep, and the stop task is pushed ... */
  lemma StopIsPushed(start: Worker) returns (actions: seq<Action>)
    requires IsStart(start) && start.enqueuers != []
    ensures Exec(start, actions) == Some(start.(owner := Woken, queue := multiset{Stop}))
  {
    actions := [];
    Follow(start, actions, Lock, start.(mutex := Owner));
    actions := actions + [Lock];
    Follow(start, actions, Enter, start.(mutex := Owner, owner := Testing));
    actions := actions + [Enter];
    Follow(start, actions, Test, start.(owner := Asleep));
    actions := actions + [Test];
    var e := start.enqueuers;
    Follow(start, actions, Grab(0), start.(owner := Asleep, enqueuers := e[0 := Holding], mutex := Enqueuer(0)));
    actions := actions + [Grab(0)];
    Follow(start, actions, Push(0, Stop),
           start.(owner := Asleep, enqueuers := e[0 := Added(true)], queue := multiset{Stop}));
    actions := actions + [Push(0, Stop)];
    assert e[0 := Resting] == e;
    Follow(start, actions, Notify(0), start.(owner := Woken, queue := multiset{Stop}));
    actions := actions + [Notify(0)];
  }

  /** ... but stolen before the owner is back; it goes to sleep again, and then the thief executes the task. */
  lemma StopIsStolen(start: Worker) returns (actions: seq<Action>)
    requires IsStart(start) && start.enqueuers != [] && start.hands != []
    ensures Exec(start, actions) == Some(start.(owner := Asleep, shutdown := true))
  {
    actions := StopIsPushed(start);
    var h := start.hands;
    var robbed := start.(hands := h[0 := Some(Stop)]);
    Follow(start, actions, Steal(0, Stop), robbed.(owner := Woken));
    actions := actions + [Steal(0, Stop)];
    Follow(start, actions, Relock(false), robbed.(owner := Testing, mutex := Owner));
    actions := actions + [Relock(false)];
    Follow(start, actions, Test, robbed.(owner := Asleep));
    actions := actions + [Test];
    assert h[0 := None] == h;
    Follow(start, actions, Execute(0), start.(owner := Asleep, shutdown := true));
    actions := actions + [Execute(0)];
  }

  /** The exact condition: the worker is always woken for what it waits for, shutdown included, if and only if there
      is no other worker thread that could steal its stop task (or nobody who pushes one). */
  lemma OversleepsIffStolen(start: Worker)
    requires IsStart(start)
    ensures NeverOversleeps(start) <==> start.hands == [] || start.enqueuers == []
  {
    if start.hands == [] || start.enqueuers == [] {
      forall actions | Exec(start, actions).Some? ensures !Oversleeps(Exec(start, actions).value) {
        RunStopsItself(start, actions);
      }
    } else {
      var actions := StopIsStolen(start);
      assert Oversleeps(Exec(start, actions).value);
    }
  }

  // ---------------------------------------------------------------- the flag and the shutdown, told from the run

  ghost function After(start: Worker, actions: seq<Action>): Worker {
    if Exec(start, actions).Some? then Exec(start, actions).value else start
  }

  lemma LastStep(start: Worker, actions: seq<Action>)
    requires actions != [] && Exec(start, actions).Some?
    ensures Exec(start, actions[..|actions| - 1]).Some?
    ensures Enabled(After(start, actions[..|actions| - 1]), actions[|actions| - 1])
    ensures After(start, actions) == Apply(After(start, actions[..|actions| - 1]), actions[|actions| - 1])
  {
  }

  /** The owner has waited before. */
  ghost predicate HasWaited(actions: seq<Action>) {
    actions != [] && (HasWaited(actions[..|actions| - 1]) || actions[|actions| - 1] == Enter)
  }

  ghost predicate FlagFits(w: Worker, waited: bool) {
    (w.notifyAdded <==> !waited || w.owner != Away) && (!waited ==> w.owner == Away)
  }

  lemma FlagStep(w: Worker, a: Action, waited: bool)
    requires Enabled(w, a) && FlagFits(w, waited)
    ensures FlagFits(Apply(w, a), waited || a == Enter)
  {
  }

  /** In every run: `notify_added` is set from the start until the first wait is over, and from then on exactly while
      the owner is inside `Work::wait`; so an enqueuer notifies only an owner that may be waiting. */
  lemma {:induction false} FlagIsWaiting(start: Worker, actions: seq<Action>)
    requires IsStart(start) && Exec(start, actions).Some?
    ensures FlagFits(After(start, actions), HasWaited(actions))
  {
    if actions == [] {
    } else {
      var before := actions[..|actions| - 1];
      LastStep(start, actions);
      FlagIsWaiting(start, before);
      FlagStep(After(start, before), actions[|actions| - 1], HasWaited(before));
    }
  }

  /** The step executes a stop task, on the owner or on the thief that stole it. */
  ghost predicate Stops(w: Worker, a: Action) {
    a == Take(Stop) || (a.Execute? && a.thief < |w.hands| && w.hands[a.thief] == Some(Stop))
  }

  ghost predicate Stopped(start: Worker, actions: seq<Action>) {
    actions != [] &&
    var before := actions[..|actions| - 1];
    Stopped(start, before) || Stops(After(start, before), actions[|actions| - 1])
  }

  lemma ShutdownStep(w: Worker, a: Action)
    requires Enabled(w, a)
    ensures Apply(w, a).shutdown <==> w.shutdown || Stops(w, a)
  {
  }

  /** In every run `shutdown` is set exactly when a stop task has been executed. */
  lemma {:induction false} ShutdownIsStopped(start: Worker, actions: seq<Action>)
    requires IsStart(start) && Exec(start, actions).Some?
    ensures After(start, actions).shutdown <==> Stopped(start, actions)
  {
    if actions == [] {
    } else {
      var before := actions[..|actions| - 1];
      LastStep(start, actions);
      ShutdownIsStopped(start, before);
      ShutdownStep(After(start, before), actions[|actions| - 1]);
    }
  }

  /** The owner wakes from its sleep by a deadline, spuriously, or by an enqueuer that saw the flag - and by each of
      them; and it leaves `Work::wait` when it finds its condition true or its time has run out. */
  lemma WakesAndLeaves(w: Worker, a: Action)
    requires Inv(w) && Enabled(w, a)
    ensures w.owner == Asleep ==>
              (Apply(w, a).owner == Woken <==> a == Stir || (a.Notify? && w.enqueuers[a.enqueuer] == Added(true)))
    ensures w.owner == Asleep ==> Apply(w, a).owner == Asleep || Apply(w, a).owner == Woken
    ensures w.owner == Testing || w.owner == Woken ==>
              (Apply(w, a).owner == Away <==> (a == Test && Ready(w)) || a == Relock(true))
  {
  }
}
