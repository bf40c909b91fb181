/** `ConditionVariable` (include/marl/condition_variable.hpp) on top of `Worker::wait` and
    `Worker::enqueue(Fiber*)` (src/scheduler.cpp): fibers that wait and threads that notify, interleaved
    at every lock operation, every read of the predicate and every access to `num_waiting_`. */
module CondVar {
  import opened Wrappers

  /** Where a waiting fiber stands. `ok` is the value the wait is going to return. */
  datatype WaiterPc =
    | Outside                     // before the user lock is taken
    | Entered                     // holds the user lock; pred() is tested first
    | Counting                    // pred() was false; ++num_waiting_ comes next
    | Registering                 // emplace_front under the list mutex comes next
    | Testing                     // head of the loop in Worker::wait
    | LockingWork                 // pred() was false; work_.mutex.lock() comes next
    | Unlocking                   // holds work_.mutex; the user lock is released next
    | Suspending                  // holds work_.mutex only; suspend() comes next
    | Parked                      // Yielded or Waiting; every lock is free
    | Woken                       // Queued on its worker
    | Relocking                   // Running again; takes the user lock next
    | Unregistering(ok: bool)     // erase under the list mutex comes next
    | Leaving(ok: bool)           // --num_waiting_ comes next
    | Returned(ok: bool)          // wait has returned; the user lock is held

  /** Where a notifying thread stands. `held` says whether it holds the user lock meanwhile. */
  datatype NotifierPc =
    | Resting
    | Holding                           // holds the user lock, predicate untouched
    | Changed                           // made the predicate true under the user lock
    | Released                          // the same, user lock released, notification still to come
    | Decremented                       // made the predicate true without the lock; takes the lock next
    | Reading(held: bool)               // `if (num_waiting_ == 0) return`
    | LockingList(held: bool)           // takes the list mutex next
    | Visiting(held: bool, rest: seq<nat>)   // holds the list mutex; `rest` is still to be notified
    | Done(held: bool)                  // notification complete

  datatype Party = Waiter(id: nat) | Notifier(id: nat)

  datatype State = State(
    home: seq<nat>,                     // worker of each waiting fiber
    timed: seq<bool>,                   // which waits have a deadline
    waiters: seq<WaiterPc>,
    notifiers: seq<NotifierPc>,
    userLock: Option<Party>,
    listLock: Option<nat>,              // the notifier that holds mutex_
    work: seq<Option<nat>>,             // per worker, the fiber that holds work_.mutex
    list: seq<nat>,                     // waiting_
    num: int,                           // num_waiting_
    pred: bool)

  predicate Sane(s: State) {
    && |s.home| == |s.timed| == |s.waiters|
    && (forall i :: 0 <= i < |s.home| ==> s.home[i] < |s.work|)
    && (forall k :: 0 <= k < |s.list| ==> s.list[k] < |s.waiters|)
    && (forall j :: 0 <= j < |s.notifiers| ==> s.notifiers[j].Visiting? ==>
          forall k :: 0 <= k < |s.notifiers[j].rest| ==> s.notifiers[j].rest[k] < |s.waiters|)
  }

  function Erase(list: seq<nat>, i: nat): seq<nat> {
    if list == [] then [] else (if list[0] == i then [] else [list[0]]) + Erase(list[1..], i)
  }

  // ---------------------------------------------------------------- waiters

  /** `late`: a timed wait finds its deadline passed. */
  predicate WaiterCan(s: State, i: nat, late: bool)
    requires Sane(s) && i < |s.waiters|
  {
    match s.waiters[i]
    case Outside => s.userLock.None? && !late
    case Registering => s.listLock.None? && !late
    case LockingWork => s.work[s.home[i]].None? && !late
    case Parked => late && s.timed[i] && s.work[s.home[i]].None?      // enqueueFiberTimeouts
    case Woken => s.work[s.home[i]].None? && !late
    case Relocking => s.userLock.None? && (late ==> s.timed[i])
    case Unregistering(_) => s.listLock.None? && !late
    case _ => !late
  }

  function Move(s: State, i: nat, pc: WaiterPc): State
    requires i < |s.waiters|
  {
    s.(waiters := s.waiters[i := pc])
  }

  function WaiterStep(s: State, i: nat, late: bool): (r: State)
    requires Sane(s) && i < |s.waiters| && WaiterCan(s, i, late)
    ensures r.timed == s.timed && |r.waiters| == |s.waiters| && r.notifiers == s.notifiers
  {
    match s.waiters[i]
    case Outside => Move(s, i, Entered).(userLock := Some(Waiter(i)))
    case Entered => Move(s, i, if s.pred then Returned(true) else Counting)
    case Counting => Move(s, i, Registering).(num := s.num + 1)
    case Registering => Move(s, i, Testing).(list := [i] + s.list)
    case Testing => Move(s, i, if s.pred then Unregistering(true) else LockingWork)
    case LockingWork => Move(s, i, Unlocking).(work := s.work[s.home[i] := Some(i)])
    case Unlocking => Move(s, i, Suspending).(userLock := None)
    case Suspending => Move(s, i, Parked).(work := s.work[s.home[i] := None])
    case Parked => Move(s, i, Woken)
    case Woken => Move(s, i, Relocking)
    case Relocking => Move(s, i, if late then Unregistering(false) else Testing).(userLock := Some(Waiter(i)))
    case Unregistering(ok) => Move(s, i, Leaving(ok)).(list := Erase(s.list, i))
    case Leaving(ok) => Move(s, i, Returned(ok)).(num := s.num - 1)
    case Returned(_) => Move(s, i, Outside).(userLock := None)
  }

  // ---------------------------------------------------------------- notifiers

  datatype Choice =
    | TakeLock        // Resting -> Holding
    | MakeTrue        // Holding -> Changed
    | GiveUp          // Holding -> Resting, or Changed -> Released
    | Decrement       // Resting -> Decremented
    | Go              // the only next step
    | GoOne           // LockingList, for notify_one

  predicate NotifierCan(s: State, j: nat, c: Choice)
    requires Sane(s) && j < |s.notifiers|
  {
    match s.notifiers[j]
    case Resting => (c == TakeLock && s.userLock.None?) || c == Decrement
    case Holding => c == MakeTrue || c == GiveUp
    case Changed => c == GiveUp || c == Go
    case Released => c == Go
    case Decremented => c == Go && s.userLock.None?
    case Reading(_) => c == Go
    case LockingList(_) => (c == Go || c == GoOne) && s.listLock.None?
    case Visiting(_, rest) => c == Go && (rest != [] ==> s.work[s.home[rest[0]]].None?)
    case Done(_) => c == Go
  }

  function Place(s: State, j: nat, pc: NotifierPc): State
    requires j < |s.notifiers|
  {
    s.(notifiers := s.notifiers[j := pc])
  }

  /** `Fiber::notify` through `Worker::enqueue`: only a suspended fiber is queued. */
  function WakeIfParked(waiters: seq<WaiterPc>, f: nat): seq<WaiterPc>
    requires f < |waiters|
  {
    if waiters[f] == Parked then waiters[f := Woken] else waiters
  }

  function NotifierStep(s: State, j: nat, c: Choice): (r: State)
    requires Sane(s) && j < |s.notifiers| && NotifierCan(s, j, c)
    ensures r.timed == s.timed && |r.waiters| == |s.waiters| && |r.notifiers| == |s.notifiers|
  {
    match s.notifiers[j]
    case Resting =>
      if c == TakeLock then Place(s, j, Holding).(userLock := Some(Notifier(j)))
      else Place(s, j, Decremented).(pred := true)
    case Holding =>
      if c == MakeTrue then Place(s, j, Changed).(pred := true) else Place(s, j, Resting).(userLock := None)
    case Changed =>
      if c == Go then Place(s, j, Reading(true)) else Place(s, j, Released).(userLock := None)
    case Released => Place(s, j, Reading(false))
    case Decremented => Place(s, j, Reading(true)).(userLock := Some(Notifier(j)))
    case Reading(h) => Place(s, j, if s.num == 0 then Done(h) else LockingList(h))
    case LockingList(h) =>
      Place(s, j, Visiting(h, if c == GoOne && s.list != [] then [s.list[0]] else s.list)).(listLock := Some(j))
    case Visiting(h, rest) =>
      if rest == [] then Place(s, j, Done(h)).(listLock := None)
      else Place(s, j, Visiting(h, rest[1..])).(waiters := WakeIfParked(s.waiters, rest[0]))
    case Done(h) => Place(s, j, Resting).(userLock := if h then None else s.userLock)
  }

  // ---------------------------------------------------------------- runs

  datatype Action =
    | ByWaiter(waiter: nat, late: bool)
    | ByNotifier(notifier: nat, choice: Choice)
    | Falsify                             // anyone may make the predicate false

  predicate Enabled(s: State, a: Action) {
    Sane(s) &&
    match a
    case ByWaiter(i, late) => i < |s.waiters| && WaiterCan(s, i, late)
    case ByNotifier(j, c) => j < |s.notifiers| && NotifierCan(s, j, c)
    case Falsify => true
  }

  function Apply(s: State, a: Action): State
    requires Enabled(s, a)
  {
    match a
    case ByWaiter(i, late) => WaiterStep(s, i, late)
    case ByNotifier(j, c) => NotifierStep(s, j, c)
    case Falsify => s.(pred := false)
  }

  /** Nobody waits, nobody notifies. */
  predicate IsStart(s: State) {
    && Sane(s)
    && (forall i :: 0 <= i < |s.waiters| ==> s.waiters[i] == Outside)
    && (forall j :: 0 <= j < |s.notifiers| ==> s.notifiers[j] == Resting)
    && s.userLock == None && s.listLock == None && s.list == [] && s.num == 0
    && (forall k :: 0 <= k < |s.work| ==> s.work[k] == None)
  }

  function Exec(start: State, actions: seq<Action>): Option<State> {
    if actions == [] then Some(start)
    else
      var last := |actions| - 1;
      match Exec(start, actions[..last])
      case None => None
      case Some(s) => if Enabled(s, actions[last]) then Some(Apply(s, actions[last])) else None
  }
}
