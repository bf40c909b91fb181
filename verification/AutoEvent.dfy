/** An `Event` in `Mode::Auto` (include/marl/event.hpp): one signal releases one wait. */
module AutoEvent {
  import opened Wrappers
  import opened CondVar
  import opened CondVarLocks

  /** `cv.pred` is `signalled`. The counters are history. */
  datatype Event = Event(cv: State, initial: bool, signals: nat, waits: nat, tests: nat, clears: nat)

  datatype Call =
    | Wait(waiter: nat, late: bool)    // the next step of a fiber inside wait(), or of a timed wait
    | Signal(caller: nat)              // the next step of a signal()
    | Test
    | Clear

  /** What a `signal()` call does next. */
  function SignalChoice(s: State, j: nat): Choice
    requires j < |s.notifiers|
  {
    match s.notifiers[j]
    case Resting => TakeLock
    case Holding => if s.pred then GiveUp else MakeTrue
    case LockingList(_) => GoOne
    case _ => Go
  }

  predicate CanCall(e: Event, c: Call) {
    Sane(e.cv) &&
    match c
    case Wait(i, late) => i < |e.cv.waiters| && WaiterCan(e.cv, i, late)
    case Signal(j) => j < |e.cv.notifiers| && NotifierCan(e.cv, j, SignalChoice(e.cv, j))
    case Test => e.cv.userLock.None?
    case Clear => e.cv.userLock.None?
  }

  /** The flag is reset by the wait that succeeds, while it still holds the mutex. */
  function PerformWait(e: Event, i: nat, late: bool): Event
    requires Sane(e.cv) && i < |e.cv.waiters| && WaiterCan(e.cv, i, late)
  {
    if e.cv.waiters[i] == Returned(true) then
      e.(cv := WaiterStep(e.cv, i, late).(pred := false), waits := e.waits + 1)
    else e.(cv := WaiterStep(e.cv, i, late))
  }

  function PerformSignal(e: Event, j: nat): Event
    requires Sane(e.cv) && j < |e.cv.notifiers| && NotifierCan(e.cv, j, SignalChoice(e.cv, j))
  {
    e.(cv := NotifierStep(e.cv, j, SignalChoice(e.cv, j)),
       signals := e.signals + if e.cv.notifiers[j] == Holding && !e.cv.pred then 1 else 0)
  }

  function Perform(e: Event, c: Call): Event
    requires CanCall(e, c)
  {
    match c
    case Wait(i, late) => PerformWait(e, i, late)
    case Signal(j) => PerformSignal(e, j)
    case Test => e.(cv := e.cv.(pred := false), tests := e.tests + if e.cv.pred then 1 else 0)
    case Clear => e.(cv := e.cv.(pred := false), clears := e.clears + if e.cv.pred then 1 else 0)
  }

  function Exec(start: Event, calls: seq<Call>): Option<Event> {
    if calls == [] then Some(start)
    else
      var last := |calls| - 1;
      match Exec(start, calls[..last])
      case None => None
      case Some(e) => if CanCall(e, calls[last]) then Some(Perform(e, calls[last])) else None
  }

  ghost predicate IsFresh(e: Event) {
    IsStart(e.cv) && e.initial == e.cv.pred && e.signals == e.waits == e.tests == e.clears == 0
  }

  // ---------------------------------------------------------------- conservation

  function Bit(b: bool): nat { if b then 1 else 0 }

  ghost predicate Balanced(e: Event) {
    Bit(e.initial) + e.signals == e.waits + e.tests + e.clears + Bit(e.cv.pred)
  }

  predicate WillConsume(pc: WaiterPc) {
    pc == Unregistering(true) || pc == Leaving(true) || pc == Returned(true)
  }

  /** While a fiber holds the mutex, what it read of the flag still holds. */
  ghost predicate ReadStands(s: State, i: nat)
    requires i < |s.waiters|
  {
    && (WillConsume(s.waiters[i]) ==> s.pred)
    && (s.waiters[i] == LockingWork || s.waiters[i] == Unlocking ==> !s.pred)
  }

  /** signal() keeps the mutex from its first step to its last and notifies at most one fiber. */
  ghost predicate SignalOk(s: State, j: nat)
    requires j < |s.notifiers|
  {
    match s.notifiers[j]
    case Released => false
    case Decremented => false
    case Reading(h) => h
    case LockingList(h) => h
    case Visiting(h, rest) => h && |rest| <= 1 && forall x :: x in rest ==> x in s.list
    case Done(h) => h
    case _ => true
  }

  ghost predicate EventInv(e: Event) {
    && Locks(e.cv)
    && Balanced(e)
    && (forall i: nat :: i < |e.cv.waiters| ==> ReadStands(e.cv, i))
    && (forall j: nat :: j < |e.cv.notifiers| ==> SignalOk(e.cv, j))
  }

  lemma WaitReads(s: State, i: nat, late: bool, x: nat, after: State)
    requires Locks(s) && i < |s.waiters| && WaiterCan(s, i, late) && x < |s.waiters|
    requires ReadStands(s, x) && ReadStands(s, i)
    requires after == WaiterStep(s, i, late)
          || (s.waiters[i] == Returned(true) && after == WaiterStep(s, i, late).(pred := false))
    ensures ReadStands(after, x)
  {
    assert WaiterOk(s, i) && WaiterOk(s, x);
  }

  lemma WaitSignals(s: State, i: nat, late: bool, j: nat)
    requires Locks(s) && i < |s.waiters| && WaiterCan(s, i, late) && j < |s.notifiers|
    requires SignalOk(s, j)
    ensures SignalOk(WaiterStep(s, i, late), j)
  {
    assert NotifierOk(s, j);
    assert s.notifiers[j].Visiting? ==> s.listLock == Some(j);
    assert s.notifiers[j].Visiting? ==> WaiterStep(s, i, late).list == s.list;
  }

  lemma DropPred(s: State)
    requires Locks(s)
    ensures Locks(s.(pred := false))
  {
    FalsifyLocks(s);
  }

  lemma WaitInv(e: Event, i: nat, late: bool)
    requires EventInv(e) && i < |e.cv.waiters| && WaiterCan(e.cv, i, late)
    ensures EventInv(PerformWait(e, i, late))
  {
    var e' := PerformWait(e, i, late);
    WaiterLocks(e.cv, i, late);
    DropPred(WaiterStep(e.cv, i, late));
    assert ReadStands(e.cv, i);
    forall x: nat | x < |e'.cv.waiters| ensures ReadStands(e'.cv, x) {
      assert ReadStands(e.cv, x);
      WaitReads(e.cv, i, late, x, e'.cv);
    }
    forall j: nat | j < |e'.cv.notifiers| ensures SignalOk(e'.cv, j) {
      assert SignalOk(e.cv, j);
      WaitSignals(e.cv, i, late, j);
    }
  }

  lemma SignalReads(e: Event, j: nat, x: nat)
    requires EventInv(e) && j < |e.cv.notifiers| && NotifierCan(e.cv, j, SignalChoice(e.cv, j)) && x < |e.cv.waiters|
    ensures ReadStands(PerformSignal(e, j).cv, x)
  {
    assert ReadStands(e.cv, x) && WaiterOk(e.cv, x) && NotifierOk(e.cv, j);
  }

  /** The signal that takes the step stays well-behaved, and so does one that does not. */
  lemma SignalSelf(e: Event, j: nat)
    requires EventInv(e) && j < |e.cv.notifiers| && NotifierCan(e.cv, j, SignalChoice(e.cv, j))
    ensures SignalOk(PerformSignal(e, j).cv, j)
  {
    assert SignalOk(e.cv, j);
  }

  lemma SignalOther(e: Event, j: nat, k: nat)
    requires Sane(e.cv) && j < |e.cv.notifiers| && NotifierCan(e.cv, j, SignalChoice(e.cv, j))
    requires k < |e.cv.notifiers| && k != j && SignalOk(e.cv, k)
    ensures SignalOk(PerformSignal(e, j).cv, k)
  {
    assert PerformSignal(e, j).cv.notifiers[k] == e.cv.notifiers[k] && PerformSignal(e, j).cv.list == e.cv.list;
  }

  lemma SignalInv(e: Event, j: nat)
    requires EventInv(e) && j < |e.cv.notifiers| && NotifierCan(e.cv, j, SignalChoice(e.cv, j))
    ensures EventInv(PerformSignal(e, j))
  {
    var e' := PerformSignal(e, j);
    NotifierLocks(e.cv, j, SignalChoice(e.cv, j));
    assert SignalOk(e.cv, j);
    forall x: nat | x < |e'.cv.waiters| ensures ReadStands(e'.cv, x) {
      SignalReads(e, j, x);
    }
    forall k: nat | k < |e'.cv.notifiers| ensures SignalOk(e'.cv, k) {
      assert SignalOk(e.cv, k);
      if k == j {
        SignalSelf(e, j);
      } else {
        SignalOther(e, j, k);
      }
    }
  }

  /** test() and clear() run with the mutex free, so no fiber is between its read and its reset. */
  lemma ResetInv(e: Event, e': Event)
    requires EventInv(e) && e.cv.userLock.None?
    requires e'.cv == e.cv.(pred := false) && Balanced(e')
    ensures EventInv(e')
  {
    FalsifyLocks(e.cv);
    forall x: nat | x < |e'.cv.waiters| ensures ReadStands(e'.cv, x) {
      assert WaiterOk(e.cv, x) && ReadStands(e.cv, x);
    }
    forall j: nat | j < |e'.cv.notifiers| ensures SignalOk(e'.cv, j) {
      assert SignalOk(e.cv, j);
    }
  }

  lemma PerformInv(e: Event, c: Call)
    requires EventInv(e) && CanCall(e, c)
    ensures EventInv(Perform(e, c))
  {
    match c
    case Wait(i, late) => WaitInv(e, i, late);
    case Signal(j) => SignalInv(e, j);
    case Test => ResetInv(e, Perform(e, c));
    case Clear => ResetInv(e, Perform(e, c));
  }

  /** In every run, timed waits included: effective signals plus the initial flag equal successful waits,
      successful tests and effective clears plus the current flag. */
  lemma {:induction false} SignalsConserved(start: Event, calls: seq<Call>)
    requires IsFresh(start) && Exec(start, calls).Some?
    ensures EventInv(Exec(start, calls).value)
    ensures Balanced(Exec(start, calls).value)
  {
    if calls == [] {
      StartLocks(start.cv);
    } else {
      SignalsConserved(start, calls[..|calls| - 1]);
      PerformInv(Exec(start, calls[..|calls| - 1]).value, calls[|calls| - 1]);
    }
  }

  // ---------------------------------------------------------------- a set flag is noticed

  predicate Sleeps(pc: WaiterPc) { pc == Suspending || pc == Parked }

  /** A fiber that has been woken and has yet to test the flag again. */
  predicate YetToRecheck(pc: WaiterPc) { pc == Woken || pc == Relocking }

  predicate RescuesAsWaiter(pc: WaiterPc) { YetToRecheck(pc) || pc == Testing || WillConsume(pc) }

  predicate RescuesAsSignal(pc: NotifierPc) {
    pc == Changed || pc.Reading? || pc.LockingList? || (pc.Visiting? && pc.rest != [])
  }

  ghost predicate Rescue(s: State) {
    || (exists i: nat :: i < |s.waiters| && RescuesAsWaiter(s.waiters[i]))
    || (exists j: nat :: j < |s.notifiers| && RescuesAsSignal(s.notifiers[j]))
  }

  ghost predicate SomeoneSleeps(s: State) {
    exists i: nat :: i < |s.waiters| && Sleeps(s.waiters[i])
  }

  ghost predicate Noticed(s: State) {
    s.pred && SomeoneSleeps(s) ==> Rescue(s) && |s.notifiers| > 0
  }

  /** No wait has a deadline, or nobody else waits, or nobody signals. */
  ghost predicate Calm(s: State) {
    && |s.timed| == |s.waiters|
    && (|s.waiters| <= 1 || |s.notifiers| == 0 || forall i :: 0 <= i < |s.timed| ==> !s.timed[i])
  }

  /** Only a deadline makes a rescuer walk away from a set flag; a fiber falls asleep only on a clear one. */
  lemma WaitRescues(e: Event, i: nat, late: bool, x: nat)
    requires EventInv(e) && i < |e.cv.waiters| && WaiterCan(e.cv, i, late) && x < |e.cv.waiters|
    requires PerformWait(e, i, late).cv.pred
    ensures (late && x == i)
         || (RescuesAsWaiter(e.cv.waiters[x]) ==> RescuesAsWaiter(PerformWait(e, i, late).cv.waiters[x]))
    ensures Sleeps(PerformWait(e, i, late).cv.waiters[x]) ==> Sleeps(e.cv.waiters[x])
  {
    assert ReadStands(e.cv, i);
  }

  lemma WaitNoticed(e: Event, i: nat, late: bool)
    requires EventInv(e) && Calm(e.cv) && i < |e.cv.waiters| && WaiterCan(e.cv, i, late) && Noticed(e.cv)
    ensures Noticed(PerformWait(e, i, late).cv)
  {
    var s, s' := e.cv, PerformWait(e, i, late).cv;
    if s'.pred && SomeoneSleeps(s') {
      var k: nat :| k < |s'.waiters| && Sleeps(s'.waiters[k]);
      WaitRescues(e, i, late, k);
      assert s.pred && s'.notifiers == s.notifiers;
      if x: nat :| x < |s.waiters| && RescuesAsWaiter(s.waiters[x]) {
        WaitRescues(e, i, late, x);
        assert RescuesAsWaiter(s'.waiters[x]);
      } else {
        var j: nat :| j < |s.notifiers| && RescuesAsSignal(s.notifiers[j]);
        assert RescuesAsSignal(s'.notifiers[j]);
      }
    }
  }

  /** The fiber at the front of the list sleeps or has yet to recheck, because the signaller holds the mutex. */
  lemma FrontIsUsable(s: State, j: nat, f: nat)
    requires Locks(s) && j < |s.notifiers| && NotifierHoldsUser(s.notifiers[j])
    requires f < |s.waiters| && f in s.list
    ensures Sleeps(s.waiters[f]) || YetToRecheck(s.waiters[f])
  {
    assert WaiterOk(s, f) && NotifierOk(s, j);
  }

  lemma SleeperIsListed(s: State, i: nat)
    requires Locks(s) && i < |s.waiters| && Sleeps(s.waiters[i])
    ensures i in s.list && s.num > 0
  {
    assert WaiterOk(s, i);
    CountPositive(s.waiters, i);
  }

  lemma VisitNoticed(e: Event, j: nat)
    requires EventInv(e) && j < |e.cv.notifiers| && NotifierCan(e.cv, j, SignalChoice(e.cv, j))
    requires e.cv.notifiers[j].Visiting? && e.cv.notifiers[j].rest != []
    ensures Rescue(PerformSignal(e, j).cv)
  {
    var s, s' := e.cv, PerformSignal(e, j).cv;
    var f := s.notifiers[j].rest[0];
    assert SignalOk(s, j) && WaiterOk(s, f);
    FrontIsUsable(s, j, f);
    assert RescuesAsWaiter(s'.waiters[f]);
  }

  lemma SignalNoticed(e: Event, j: nat)
    requires EventInv(e) && j < |e.cv.notifiers| && NotifierCan(e.cv, j, SignalChoice(e.cv, j)) && Noticed(e.cv)
    ensures Noticed(PerformSignal(e, j).cv)
  {
    var s, s' := e.cv, PerformSignal(e, j).cv;
    assert SignalOk(s, j);
    if s'.pred && SomeoneSleeps(s') {
      if s.notifiers[j].Visiting? && s.notifiers[j].rest != [] {
        VisitNoticed(e, j);
      } else {
        assert s'.waiters == s.waiters;
        var k: nat :| k < |s.waiters| && Sleeps(s.waiters[k]);
        SleeperIsListed(s, k);
        if RescuesAsSignal(s.notifiers[j]) || (s.notifiers[j] == Holding && !s.pred) {
          assert RescuesAsSignal(s'.notifiers[j]);
        } else if x: nat :| x < |s.waiters| && RescuesAsWaiter(s.waiters[x]) {
          assert RescuesAsWaiter(s'.waiters[x]);
        } else {
          var y: nat :| y < |s.notifiers| && RescuesAsSignal(s.notifiers[y]);
          assert RescuesAsSignal(s'.notifiers[y]);
        }
      }
    }
  }

  lemma PerformNoticed(e: Event, c: Call)
    requires EventInv(e) && Calm(e.cv) && CanCall(e, c) && Noticed(e.cv)
    ensures Noticed(Perform(e, c).cv) && Calm(Perform(e, c).cv)
  {
    match c
    case Wait(i, late) => WaitNoticed(e, i, late);
    case Signal(j) => SignalNoticed(e, j);
    case Test =>
    case Clear =>
  }

  lemma {:induction false} RunNoticed(start: Event, calls: seq<Call>)
    requires IsFresh(start) && Calm(start.cv) && Exec(start, calls).Some?
    ensures EventInv(Exec(start, calls).value)
    ensures Calm(Exec(start, calls).value.cv) && Noticed(Exec(start, calls).value.cv)
  {
    SignalsConserved(start, calls);
    if calls == [] {
    } else {
      RunNoticed(start, calls[..|calls| - 1]);
      PerformNoticed(Exec(start, calls[..|calls| - 1]).value, calls[|calls| - 1]);
    }
  }

  /** Whenever the flag is set and the mutex free, either no fiber is parked or some woken fiber has yet to
      recheck the flag. */
  ghost predicate FlagNoticed(s: State) {
    s.pred && s.userLock.None? && (exists i: nat :: i < |s.waiters| && s.waiters[i] == Parked) ==>
      exists x: nat :: x < |s.waiters| && YetToRecheck(s.waiters[x])
  }

  lemma CalmIsNoticed(start: Event, calls: seq<Call>)
    requires IsFresh(start) && Calm(start.cv) && Exec(start, calls).Some?
    ensures FlagNoticed(Exec(start, calls).value.cv)
  {
    RunNoticed(start, calls);
    var s := Exec(start, calls).value.cv;
    if i: nat :| s.pred && s.userLock.None? && i < |s.waiters| && s.waiters[i] == Parked {
      assert Sleeps(s.waiters[i]);
      NoSignalInProgress(s);
      var x: nat :| x < |s.waiters| && RescuesAsWaiter(s.waiters[x]);
      assert WaiterOk(s, x);
    }
  }

  lemma NoSignalInProgress(s: State)
    requires Locks(s) && s.userLock.None? && forall j: nat :: j < |s.notifiers| ==> SignalOk(s, j)
    ensures forall j: nat :: j < |s.notifiers| ==> !RescuesAsSignal(s.notifiers[j])
  {
    forall j: nat | j < |s.notifiers| ensures !RescuesAsSignal(s.notifiers[j]) {
      assert NotifierOk(s, j) && SignalOk(s, j);
    }
  }

  // ---------------------------------------------------------------- and otherwise it is not

  /** Some run leads from `start` to a state with condition variable `s`. */
  ghost predicate Reaches(start: Event, s: State) {
    exists calls: seq<Call> :: Exec(start, calls).Some? && Exec(start, calls).value.cv == s
  }

  lemma Follow(start: Event, s: State, c: Call, s': State)
    requires Reaches(start, s)
    requires forall e: Event :: e.cv == s ==> CanCall(e, c) && Perform(e, c).cv == s'
    ensures Reaches(start, s')
  {
    var calls: seq<Call> :| Exec(start, calls).Some? && Exec(start, calls).value.cv == s;
    assert (calls + [c])[..|calls|] == calls;
    assert Exec(start, calls + [c]).Some?;
  }

  lemma Walk(start: Event, s: State, i: nat, late: bool, s': State)
    requires Reaches(start, s) && Sane(s) && i < |s.waiters| && WaiterCan(s, i, late)
    requires s.waiters[i] != Returned(true) && s' == WaiterStep(s, i, late)
    ensures Reaches(start, s') && Sane(s')
  {
    WaiterSane(s, i, late);
    Follow(start, s, Wait(i, late), s');
  }

  predicate Undisturbed(s: State, i: nat) {
    Sane(s) && i < |s.waiters| && s.userLock.None? && s.listLock.None? && s.work[s.home[i]].None?
  }

  ghost function Registered(s: State, i: nat, pc: WaiterPc): State
    requires i < |s.waiters|
  {
    Move(s, i, pc).(list := [i] + s.list, num := s.num + 1)
  }

  /** A fiber that finds the flag clear registers at the front of the list ... */
  lemma Register(start: Event, s: State, i: nat)
    requires Reaches(start, s) && Undisturbed(s, i) && !s.pred && s.waiters[i] == Outside
    ensures Reaches(start, Registered(s, i, Testing).(userLock := Some(Waiter(i))))
    ensures Sane(Registered(s, i, Testing).(userLock := Some(Waiter(i))))
  {
    var mine := s.(userLock := Some(Waiter(i)));
    Walk(start, s, i, false, Move(mine, i, Entered));
    Walk(start, Move(mine, i, Entered), i, false, Move(mine, i, Counting));
    Walk(start, Move(mine, i, Counting), i, false, Move(mine, i, Registering).(num := s.num + 1));
    Walk(start, Move(mine, i, Registering).(num := s.num + 1), i, false, Registered(mine, i, Testing));
  }

  /** ... and goes to sleep. */
  lemma Park(start: Event, s: State, i: nat)
    requires Reaches(start, s) && Undisturbed(s, i) && !s.pred && s.waiters[i] == Outside
    ensures Reaches(start, Registered(s, i, Parked)) && Sane(Registered(s, i, Parked))
  {
    Register(start, s, i);
    var mine := s.(userLock := Some(Waiter(i)));
    var locked := s.work[s.home[i] := Some(i)];
    Walk(start, Registered(mine, i, Testing), i, false, Registered(mine, i, LockingWork));
    Walk(start, Registered(mine, i, LockingWork), i, false, Registered(mine, i, Unlocking).(work := locked));
    Walk(start, Registered(mine, i, Unlocking).(work := locked), i, false,
         Registered(s, i, Suspending).(work := locked));
    assert locked[s.home[i] := None] == s.work;
    Walk(start, Registered(s, i, Suspending).(work := locked), i, false, Registered(s, i, Parked));
  }

  lemma Signalling(start: Event, s: State, j: nat, s': State)
    requires Reaches(start, s) && Sane(s) && j < |s.notifiers| && NotifierCan(s, j, SignalChoice(s, j))
    requires s' == NotifierStep(s, j, SignalChoice(s, j))
    ensures Reaches(start, s') && Sane(s')
  {
    NotifierSane(s, j, SignalChoice(s, j));
    Follow(start, s, Signal(j), s');
  }

  /** A signal sets the flag ... */
  lemma SignalSets(start: Event, s: State, j: nat)
    requires Reaches(start, s) && Sane(s) && s.userLock.None? && !s.pred
    requires j < |s.notifiers| && s.notifiers[j] == Resting
    ensures var up := s.(userLock := Some(Notifier(j)), pred := true);
            Reaches(start, Place(up, j, Changed)) && Sane(Place(up, j, Changed))
  {
    var mine := s.(userLock := Some(Notifier(j)));
    Signalling(start, s, j, Place(mine, j, Holding));
    Signalling(start, Place(mine, j, Holding), j, Place(mine.(pred := true), j, Changed));
  }

  /** ... takes the list mutex ... */
  lemma SignalPicks(start: Event, s: State, j: nat)
    requires Reaches(start, s) && Sane(s) && s.listLock.None? && s.num != 0 && s.list != []
    requires j < |s.notifiers| && s.notifiers[j] == Changed
    ensures var up := s.(listLock := Some(j));
            Reaches(start, Place(up, j, Visiting(true, [s.list[0]]))) && Sane(Place(up, j, Visiting(true, [s.list[0]])))
  {
    Signalling(start, s, j, Place(s, j, Reading(true)));
    Signalling(start, Place(s, j, Reading(true)), j, Place(s, j, LockingList(true)));
    Signalling(start, Place(s, j, LockingList(true)), j,
               Place(s.(listLock := Some(j)), j, Visiting(true, [s.list[0]])));
  }

  /** ... wakes the one fiber it picked and leaves. */
  lemma SignalWakes(start: Event, s: State, j: nat, t: nat)
    requires Reaches(start, s) && Sane(s) && t < |s.waiters| && s.waiters[t] == Parked && s.work[s.home[t]].None?
    requires j < |s.notifiers| && s.notifiers[j] == Visiting(true, [t])
    ensures Reaches(start, Place(Move(s, t, Woken), j, Resting).(listLock := None, userLock := None))
  {
    var awake := Move(s, t, Woken);
    assert [t][1..] == [];
    Signalling(start, s, j, Place(awake, j, Visiting(true, [])));
    Signalling(start, Place(awake, j, Visiting(true, [])), j, Place(awake.(listLock := None), j, Done(true)));
    Signalling(start, Place(awake.(listLock := None), j, Done(true)), j,
               Place(awake, j, Resting).(listLock := None, userLock := None));
  }

  lemma SignalFront(start: Event, s: State, j: nat, t: nat)
    requires Reaches(start, s) && Undisturbed(s, t) && !s.pred && s.waiters[t] == Parked && s.num != 0
    requires s.list != [] && s.list[0] == t && j < |s.notifiers| && s.notifiers[j] == Resting
    ensures Reaches(start, Move(s, t, Woken).(pred := true))
  {
    var up := s.(userLock := Some(Notifier(j)), pred := true);
    SignalSets(start, s, j);
    SignalPicks(start, Place(up, j, Changed), j);
    var picked := Place(up.(listLock := Some(j)), j, Visiting(true, [t]));
    assert Place(Place(up, j, Changed).(listLock := Some(j)), j, Visiting(true, [t])) == picked;
    SignalWakes(start, picked, j, t);
    assert s.notifiers[j := Visiting(true, [t])][j := Resting] == s.notifiers;
    assert Place(Move(picked, t, Woken), j, Resting).(listLock := None, userLock := None)
        == Move(s, t, Woken).(pred := true);
  }

  /** A woken fiber whose deadline has passed leaves without looking at the flag. */
  lemma LeaveLate(start: Event, s: State, t: nat)
    requires Reaches(start, s) && Undisturbed(s, t) && s.timed[t] && s.waiters[t] == Woken
    ensures Reaches(start, Move(s, t, Outside).(list := Erase(s.list, t), num := s.num - 1))
  {
    var mine := s.(userLock := Some(Waiter(t)));
    var gone := mine.(list := Erase(s.list, t));
    Walk(start, s, t, false, Move(s, t, Relocking));
    Walk(start, Move(s, t, Relocking), t, true, Move(mine, t, Unregistering(false)));
    Walk(start, Move(mine, t, Unregistering(false)), t, false, Move(gone, t, Leaving(false)));
    LeaveEmptyHanded(start, Move(gone, t, Leaving(false)), t);
  }

  lemma LeaveEmptyHanded(start: Event, s: State, t: nat)
    requires Reaches(start, s) && Sane(s) && t < |s.waiters| && s.waiters[t] == Leaving(false)
    ensures Reaches(start, Move(s, t, Outside).(num := s.num - 1, userLock := None))
  {
    Walk(start, s, t, false, Move(s, t, Returned(false)).(num := s.num - 1));
    Walk(start, Move(s, t, Returned(false)).(num := s.num - 1), t, false,
         Move(s, t, Outside).(num := s.num - 1, userLock := None));
  }

  /** A timed wait can swallow the wake-up of another fiber: it is woken, finds its deadline passed, and returns
      false without consuming the flag, while the other fiber stays parked under a set flag. */
  lemma TimedWaitSwallows(start: Event, t: nat, u: nat)
    requires IsFresh(start) && t < |start.cv.waiters| && u < |start.cv.waiters| && t != u
    requires start.cv.timed[t] && |start.cv.notifiers| > 0
    ensures !AlwaysNoticed(start)
  {
    BothPark(start, t, u);
    SwallowAfterParking(start, BothParked(start, t, u), t, u);
  }

  /** In every run a set flag is noticed. */
  ghost predicate AlwaysNoticed(start: Event) {
    forall calls: seq<Call> :: Exec(start, calls).Some? ==> FlagNoticed(Exec(start, calls).value.cv)
  }

  /** `u` went to sleep first, then `t`. */
  ghost function BothParked(start: Event, t: nat, u: nat): State
    requires t < |start.cv.waiters| && u < |start.cv.waiters|
  {
    Registered(Registered(start.cv.(pred := false), u, Parked), t, Parked)
  }

  lemma BothPark(start: Event, t: nat, u: nat)
    requires IsFresh(start) && t < |start.cv.waiters| && u < |start.cv.waiters| && t != u
    ensures Reaches(start, BothParked(start, t, u)) && Sane(BothParked(start, t, u))
  {
    assert Exec(start, []).Some?;
    var s := start.cv.(pred := false);
    Follow(start, start.cv, Test, s);
    Park(start, s, u);
    Park(start, Registered(s, u, Parked), t);
  }

  lemma SwallowAfterParking(start: Event, s: State, t: nat, u: nat)
    requires Reaches(start, s) && Undisturbed(s, t) && s.timed[t] && !s.pred && s.num != 0
    requires s.list != [] && s.list[0] == t && |s.notifiers| > 0 && s.notifiers[0] == Resting
    requires u < |s.waiters| && u != t && s.waiters[t] == Parked && s.waiters[u] == Parked
    requires forall x :: 0 <= x < |s.waiters| && x != t && x != u ==> s.waiters[x] == Outside
    ensures !AlwaysNoticed(start)
  {
    SignalFront(start, s, 0, t);
    var s1 := Move(s, t, Woken).(pred := true);
    LeaveLate(start, s1, t);
    var s2 := Move(s1, t, Outside).(list := Erase(s1.list, t), num := s1.num - 1);
    LoneSleeper(start, s2, u);
  }

  lemma LoneSleeper(start: Event, s: State, u: nat)
    requires Reaches(start, s) && s.pred && s.userLock.None? && u < |s.waiters| && s.waiters[u] == Parked
    requires forall x :: 0 <= x < |s.waiters| && x != u ==> s.waiters[x] == Outside
    ensures !AlwaysNoticed(start)
  {
    assert !FlagNoticed(s);
  }

  /** The exact condition under which a set flag never goes unnoticed. */
  lemma NoticedIffCalm(start: Event)
    requires IsFresh(start)
    ensures AlwaysNoticed(start) <==> Calm(start.cv)
  {
    if Calm(start.cv) {
      forall calls: seq<Call> | Exec(start, calls).Some? ensures FlagNoticed(Exec(start, calls).value.cv) {
        CalmIsNoticed(start, calls);
      }
    } else {
      var t: nat :| t < |start.cv.timed| && start.cv.timed[t];
      TimedWaitSwallows(start, t, if t == 0 then 1 else 0);
    }
  }
}
