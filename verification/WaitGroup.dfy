/** `WaitGroup` (include/marl/wait_group.hpp): the count is changed outside the mutex its waiters use. */
module WaitGroup {
  import opened Wrappers
  import opened CondVar
  import opened CondVarLocks
  import opened NoLostWakeup

  /** The predicate of the condition variable is `count == 0`. */
  datatype Group = Group(cv: State, count: int)

  datatype Call =
    | Wait(waiter: nat)               // the next step of a fiber inside wait()
    | Add(amount: nat)
    | DoneCount(caller: nat)          // the decrement in done()
    | DoneNotify(caller: nat)         // the next step of a done() that reached zero

  predicate CanCall(g: Group, c: Call) {
    match c
    case Wait(i) => Enabled(g.cv, ByWaiter(i, false))
    case Add(_) => Sane(g.cv)
    case DoneCount(j) => Sane(g.cv) && j < |g.cv.notifiers| && g.cv.notifiers[j] == Resting && g.count > 0
    case DoneNotify(j) =>
      && j < |g.cv.notifiers| && g.cv.notifiers[j] != Resting && g.cv.notifiers[j] != Holding
      && Enabled(g.cv, ByNotifier(j, Go))
  }

  function Perform(g: Group, c: Call): Group
    requires CanCall(g, c)
  {
    match c
    case Wait(i) => g.(cv := Apply(g.cv, ByWaiter(i, false)))
    case Add(n) => Group(g.cv.(pred := g.count + n == 0), g.count + n)
    case DoneCount(j) =>
      if g.count == 1 then Group(Apply(g.cv, ByNotifier(j, Decrement)), 0) else g.(count := g.count - 1)
    case DoneNotify(j) => g.(cv := Apply(g.cv, ByNotifier(j, Go)))
  }

  function Exec(start: Group, calls: seq<Call>): Option<Group> {
    if calls == [] then Some(start)
    else
      var last := |calls| - 1;
      match Exec(start, calls[..last])
      case None => None
      case Some(g) => if CanCall(g, calls[last]) then Some(Perform(g, calls[last])) else None
  }

  ghost predicate IsFresh(g: Group) {
    IsStart(g.cv) && g.count >= 0 && g.cv.pred == (g.count == 0)
  }

  ghost predicate GroupInv(g: Group) {
    NoLostWakeup.Inv(g.cv) && g.count >= 0 && g.cv.pred == (g.count == 0)
  }

  /** Every call of the wait group is a step of the condition-variable machine, or leaves it alone. */
  lemma PerformInv(g: Group, c: Call)
    requires GroupInv(g) && CanCall(g, c)
    ensures GroupInv(Perform(g, c))
  {
    match c
    case Wait(i) =>
      StepKeeps(g.cv, ByWaiter(i, false));
    case Add(n) =>
      StepKeeps(g.cv, Falsify);
    case DoneCount(j) =>
      if g.count == 1 {
        StepKeeps(g.cv, ByNotifier(j, Decrement));
      }
    case DoneNotify(j) =>
      StepKeeps(g.cv, ByNotifier(j, Go));
  }

  lemma {:induction false} RunGroup(start: Group, calls: seq<Call>)
    requires IsFresh(start) && Exec(start, calls).Some?
    ensures GroupInv(Exec(start, calls).value)
  {
    if calls == [] {
      StartLocks(start.cv);
    } else {
      RunGroup(start, calls[..|calls| - 1]);
      PerformInv(Exec(start, calls[..|calls| - 1]).value, calls[|calls| - 1]);
    }
  }

  /** If the count is zero and a fiber is parked in wait(), some done() is between its decrement to zero and
      the moment its notify_all reaches that fiber. */
  lemma ZeroCountWakes(start: Group, calls: seq<Call>, i: nat)
    requires IsFresh(start) && Exec(start, calls).Some?
    requires i < |Exec(start, calls).value.cv.waiters|
    requires Exec(start, calls).value.count == 0 && Exec(start, calls).value.cv.waiters[i] == Parked
    ensures Owed(Exec(start, calls).value.cv, i)
  {
    RunGroup(start, calls);
    assert NotStranded(Exec(start, calls).value.cv, i);
  }

  // ---------------------------------------------------------------- what the count counts

  /** What the calls of a run have added, and how many done() calls have counted down. */
  ghost function AddedBy(calls: seq<Call>): nat {
    if calls == [] then 0
    else
      var c := calls[|calls| - 1];
      AddedBy(calls[..|calls| - 1]) + if c.Add? then c.amount else 0
  }

  ghost function DoneBy(calls: seq<Call>): nat {
    if calls == [] then 0
    else DoneBy(calls[..|calls| - 1]) + if calls[|calls| - 1].DoneCount? then 1 else 0
  }

  /** In every run the count is what was there and was added, less one for every done(). */
  lemma {:induction false} CountIsBalance(start: Group, calls: seq<Call>)
    requires Exec(start, calls).Some?
    ensures Exec(start, calls).value.count == start.count + AddedBy(calls) - DoneBy(calls)
  {
    if calls == [] {
    } else {
      CountIsBalance(start, calls[..|calls| - 1]);
    }
  }

  /** The step with which a wait finds its condition true. */
  predicate Passes(before: WaiterPc, after: WaiterPc) {
    (before == Entered && after == Returned(true)) || (before == Testing && after == Unregistering(true))
  }

  /** A fiber gets past wait() only at a moment at which as many done() calls have been made as were announced, and at
      such a moment a fiber that looks does get past. */
  lemma WaitPassesIffAllDone(start: Group, calls: seq<Call>, i: nat)
    requires IsFresh(start) && Exec(start, calls).Some? && CanCall(Exec(start, calls).value, Wait(i))
    ensures var g := Exec(start, calls).value;
            var pc, pc' := g.cv.waiters[i], Perform(g, Wait(i)).cv.waiters[i];
            && (Passes(pc, pc') ==> DoneBy(calls) == start.count + AddedBy(calls))
            && (pc == Entered || pc == Testing ==> (Passes(pc, pc') <==> DoneBy(calls) == start.count + AddedBy(calls)))
  {
    RunGroup(start, calls);
    CountIsBalance(start, calls);
    PassesIffTrue(Exec(start, calls).value.cv, i);
  }

  lemma PassesIffTrue(s: State, i: nat)
    requires Enabled(s, ByWaiter(i, false))
    ensures var pc, pc' := s.waiters[i], Apply(s, ByWaiter(i, false)).waiters[i];
            (Passes(pc, pc') ==> s.pred) && (pc == Entered || pc == Testing ==> (Passes(pc, pc') <==> s.pred))
  {
  }

  /** done() reports true, and goes on to notify, exactly when it was the last. */
  lemma LastDoneNotifies(start: Group, calls: seq<Call>, j: nat)
    requires IsFresh(start) && Exec(start, calls).Some? && CanCall(Exec(start, calls).value, DoneCount(j))
    ensures Perform(Exec(start, calls).value, DoneCount(j)).cv.notifiers[j] == Decremented
       <==> DoneBy(calls) + 1 == start.count + AddedBy(calls)
  {
    CountIsBalance(start, calls);
  }
}
