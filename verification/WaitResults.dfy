/** What a wait on the condition variable returns, and which fiber `notify_one` picks, told from the steps of the run
    (include/marl/condition_variable.hpp, src/scheduler.cpp). */
module WaitResults {
  import opened Wrappers
  import opened CondVar
  import opened CondVarLocks

  ghost function After(start: State, actions: seq<Action>): State {
    if Exec(start, actions).Some? then Exec(start, actions).value else start
  }

  lemma LastStep(start: State, actions: seq<Action>)
    requires actions != [] && Exec(start, actions).Some?
    ensures Exec(start, actions[..|actions| - 1]).Some?
    ensures Enabled(After(start, actions[..|actions| - 1]), actions[|actions| - 1])
    ensures After(start, actions) == Apply(After(start, actions[..|actions| - 1]), actions[|actions| - 1])
  {
  }

  // ---------------------------------------------------------------- what a wait returns

  /** What the step of a fiber decides about its wait: the predicate is read on entry and at the head of the loop, and
      a deadline that has passed when the user lock is back ends the wait unread. */
  ghost function Decides(s: State, i: nat, late: bool, sofar: Option<bool>): Option<bool>
    requires i < |s.waiters|
  {
    match s.waiters[i]
    case Outside => None
    case Entered => if s.pred then Some(true) else None
    case Testing => if s.pred then Some(true) else None
    case Relocking => if late then Some(false) else None
    case _ => sofar
  }

  /** What the latest wait of fiber `i` has come to, if it has been decided. */
  ghost function Verdict(start: State, actions: seq<Action>, i: nat): Option<bool> {
    if actions == [] then None
    else
      var before, a := actions[..|actions| - 1], actions[|actions| - 1];
      var s := After(start, before);
      if a.ByWaiter? && a.waiter == i && i < |s.waiters| then Decides(s, i, a.late, Verdict(start, before, i))
      else Verdict(start, before, i)
  }

  /** The wait is on its way out with result `ok`. */
  predicate Ends(pc: WaiterPc, ok: bool) {
    pc == Unregistering(ok) || pc == Leaving(ok) || pc == Returned(ok)
  }

  ghost predicate Told(pc: WaiterPc, verdict: Option<bool>) {
    && (Ends(pc, true) ==> verdict == Some(true))
    && (Ends(pc, false) ==> verdict == Some(false))
    && (!Ends(pc, true) && !Ends(pc, false) && pc != Outside ==> verdict == None)
  }

  lemma OtherWaiterStands(s: State, x: nat, late: bool, i: nat)
    requires Sane(s) && x < |s.waiters| && WaiterCan(s, x, late) && i < |s.waiters| && i != x
    ensures WaiterStep(s, x, late).waiters[i] == s.waiters[i]
  {
  }

  lemma NotifierWakesOnly(s: State, j: nat, c: Choice, i: nat)
    requires Sane(s) && j < |s.notifiers| && NotifierCan(s, j, c) && i < |s.waiters|
    ensures var pc := NotifierStep(s, j, c).waiters[i]; pc == s.waiters[i] || (s.waiters[i] == Parked && pc == Woken)
  {
  }

  lemma OthersStand(s: State, a: Action, i: nat)
    requires Enabled(s, a) && i < |s.waiters| && !(a.ByWaiter? && a.waiter == i)
    ensures |Apply(s, a).waiters| == |s.waiters|
    ensures Apply(s, a).waiters[i] == s.waiters[i] || (s.waiters[i] == Parked && Apply(s, a).waiters[i] == Woken)
  {
    match a
    case ByWaiter(x, late) => OtherWaiterStands(s, x, late, i);
    case ByNotifier(j, c) => NotifierWakesOnly(s, j, c, i);
    case Falsify =>
  }

  lemma OwnStep(s: State, i: nat, late: bool, verdict: Option<bool>)
    requires Sane(s) && i < |s.waiters| && WaiterCan(s, i, late) && Told(s.waiters[i], verdict)
    ensures Told(WaiterStep(s, i, late).waiters[i], Decides(s, i, late, verdict))
  {
  }

  /** In every run: a wait returns true exactly when it read a true predicate, on entry or at the head of its loop, and
      false exactly when it got its lock back after its deadline. */
  lemma {:induction false} ReturnsAsDecided(start: State, actions: seq<Action>, i: nat)
    requires IsStart(start) && Exec(start, actions).Some? && i < |start.waiters|
    ensures Sane(After(start, actions)) && |After(start, actions).waiters| == |start.waiters|
    ensures Told(After(start, actions).waiters[i], Verdict(start, actions, i))
  {
    if actions == [] {
    } else {
      var before, a := actions[..|actions| - 1], actions[|actions| - 1];
      LastStep(start, actions);
      ReturnsAsDecided(start, before, i);
      var s := After(start, before);
      StepSane(s, a);
      if a.ByWaiter? && a.waiter == i {
        OwnStep(s, i, a.late, Verdict(start, before, i));
      } else {
        OthersStand(s, a, i);
      }
    }
  }

  lemma StepSane(s: State, a: Action)
    requires Enabled(s, a)
    ensures Sane(Apply(s, a)) && |Apply(s, a).waiters| == |s.waiters| && Apply(s, a).timed == s.timed
  {
    match a
    case ByWaiter(i, late) => WaiterSane(s, i, late);
    case ByNotifier(j, c) => NotifierSane(s, j, c);
    case Falsify =>
  }

  lemma {:induction false} UntimedUndecided(start: State, actions: seq<Action>, i: nat)
    requires IsStart(start) && Exec(start, actions).Some? && i < |start.waiters| && !start.timed[i]
    ensures After(start, actions).timed == start.timed && Verdict(start, actions, i) != Some(false)
  {
    if actions == [] {
    } else {
      LastStep(start, actions);
      UntimedUndecided(start, actions[..|actions| - 1], i);
      StepSane(After(start, actions[..|actions| - 1]), actions[|actions| - 1]);
    }
  }

  /** A wait without a deadline never returns false. */
  lemma UntimedNeverFails(start: State, actions: seq<Action>, i: nat)
    requires IsStart(start) && Exec(start, actions).Some? && i < |start.waiters| && !start.timed[i]
    ensures |After(start, actions).waiters| == |start.waiters| && !Ends(After(start, actions).waiters[i], false)
  {
    ReturnsAsDecided(start, actions, i);
    UntimedUndecided(start, actions, i);
  }

  /** A parked fiber is first queued and then resumed before it goes for the user lock again, and it does so whether it
      was notified or its deadline passed. */
  lemma WakesInStages(s: State, i: nat, late: bool)
    requires Sane(s) && i < |s.waiters| && WaiterCan(s, i, late)
    ensures s.waiters[i] == Parked ==> late && s.timed[i] && WaiterStep(s, i, late).waiters[i] == Woken
    ensures WaiterStep(s, i, late).waiters[i] == Relocking <==> s.waiters[i] == Woken
    ensures WaiterStep(s, i, late).waiters[i] == Woken ==> s.waiters[i] == Parked
  {
  }

  // ---------------------------------------------------------------- whom notify_one picks

  /** When fiber `i` last entered the waiter list, counted in steps. */
  ghost function ListedAt(start: State, actions: seq<Action>, i: nat): nat {
    if actions == [] then 0
    else
      var before, a := actions[..|actions| - 1], actions[|actions| - 1];
      if Registers(After(start, before), a, i) then |actions| else ListedAt(start, before, i)
  }

  ghost predicate Registers(s: State, a: Action, i: nat) {
    a.ByWaiter? && a.waiter == i && i < |s.waiters| && s.waiters[i] == Registering
  }

  /** The list runs from the fiber that entered last to the one that entered first. */
  ghost predicate LatestFirst(start: State, actions: seq<Action>, list: seq<nat>) {
    forall p, q :: 0 <= p < q < |list| ==> ListedAt(start, actions, list[p]) > ListedAt(start, actions, list[q])
  }

  lemma {:induction false} ListedBefore(start: State, actions: seq<Action>, i: nat)
    ensures ListedAt(start, actions, i) <= |actions|
  {
    if actions == [] {
    } else {
      ListedBefore(start, actions[..|actions| - 1], i);
    }
  }

  /** The fibers left in the list keep their order. */
  lemma {:induction false} EraseKeepsOrder(start: State, actions: seq<Action>, list: seq<nat>, i: nat)
    requires LatestFirst(start, actions, list)
    ensures LatestFirst(start, actions, Erase(list, i))
  {
    if list == [] {
    } else {
      var rest := Erase(list[1..], i);
      EraseKeepsOrder(start, actions, list[1..], i);
      EraseMembers(list[1..], i);
      forall q | 0 <= q < |rest| ensures ListedAt(start, actions, list[0]) > ListedAt(start, actions, rest[q]) {
        assert rest[q] in list[1..];
      }
    }
  }

  /** What a step does to the list. */
  lemma ListStep(s: State, a: Action)
    requires Enabled(s, a)
    ensures a.ByWaiter? && s.waiters[a.waiter] == Registering ==> Apply(s, a).list == [a.waiter] + s.list
    ensures a.ByWaiter? && s.waiters[a.waiter].Unregistering? ==> Apply(s, a).list == Erase(s.list, a.waiter)
    ensures !(a.ByWaiter? && (s.waiters[a.waiter] == Registering || s.waiters[a.waiter].Unregistering?)) ==>
              Apply(s, a).list == s.list
  {
  }

  lemma {:induction false} RunLocks(start: State, actions: seq<Action>)
    requires IsStart(start) && Exec(start, actions).Some?
    ensures Locks(After(start, actions))
  {
    if actions == [] {
      StartLocks(start);
    } else {
      LastStep(start, actions);
      RunLocks(start, actions[..|actions| - 1]);
      StepLocks(After(start, actions[..|actions| - 1]), actions[|actions| - 1]);
    }
  }

  /** In every run the list is in that order. */
  lemma {:induction false} ListInOrder(start: State, actions: seq<Action>)
    requires IsStart(start) && Exec(start, actions).Some?
    ensures LatestFirst(start, actions, After(start, actions).list)
  {
    if actions == [] {
    } else {
      var before, a := actions[..|actions| - 1], actions[|actions| - 1];
      LastStep(start, actions);
      RunLocks(start, before);
      ListInOrder(start, before);
      var s, s' := After(start, before), After(start, actions);
      ListStep(s, a);
      if a.ByWaiter? {
        assert WaiterOk(s, a.waiter);
      }
      OrderStep(start, actions, s, s'.list);
    }
  }

  lemma OrderStep(start: State, actions: seq<Action>, s: State, list: seq<nat>)
    requires actions != [] && s == After(start, actions[..|actions| - 1])
    requires LatestFirst(start, actions[..|actions| - 1], s.list)
    requires var a := actions[|actions| - 1];
             if a.ByWaiter? && a.waiter < |s.waiters| && s.waiters[a.waiter] == Registering
             then WaiterListed(s, a.waiter) && list == [a.waiter] + s.list
             else list == s.list || (a.ByWaiter? && list == Erase(s.list, a.waiter))
    ensures LatestFirst(start, actions, list)
  {
    var before, a := actions[..|actions| - 1], actions[|actions| - 1];
    if a.ByWaiter? && a.waiter < |s.waiters| && s.waiters[a.waiter] == Registering {
      NewestFirst(start, actions, s.list);
    } else {
      assert forall i :: ListedAt(start, actions, i) == ListedAt(start, before, i);
      if a.ByWaiter? {
        EraseKeepsOrder(start, before, s.list, a.waiter);
      }
    }
  }

  lemma NewestFirst(start: State, actions: seq<Action>, list: seq<nat>)
    requires actions != [] && actions[|actions| - 1].ByWaiter?
    requires var before, i := actions[..|actions| - 1], actions[|actions| - 1].waiter;
             && Registers(After(start, before), actions[|actions| - 1], i)
             && WaiterListed(After(start, before), i) && list == After(start, before).list
             && LatestFirst(start, before, list)
    ensures LatestFirst(start, actions, [actions[|actions| - 1].waiter] + list)
  {
    var before, i := actions[..|actions| - 1], actions[|actions| - 1].waiter;
    forall q | 0 <= q < |list|
      ensures ListedAt(start, actions, list[q]) == ListedAt(start, before, list[q]) < ListedAt(start, actions, i)
    {
      assert list[q] in list;
      ListedBefore(start, before, list[q]);
    }
  }

  ghost predicate WaiterListed(s: State, i: nat) {
    i < |s.waiters| && (Listed(s.waiters[i]) <==> i in s.list)
  }

  /** `notify_one` goes to the fiber that entered the list last, `notify_all` to every fiber in the list. */
  lemma PicksLatest(start: State, actions: seq<Action>, j: nat, c: Choice)
    requires IsStart(start) && Exec(start, actions).Some? && Enabled(After(start, actions), ByNotifier(j, c))
    requires After(start, actions).notifiers[j].LockingList?
    ensures var s := After(start, actions);
            var rest := Apply(s, ByNotifier(j, c)).notifiers[j].rest;
            && (c != GoOne ==> rest == s.list)
            && (c == GoOne && s.list != [] ==>
                  && |rest| == 1 && rest[0] in s.list
                  && forall y :: y in s.list && y != rest[0] ==>
                       ListedAt(start, actions, rest[0]) > ListedAt(start, actions, y))
  {
    ListInOrder(start, actions);
  }

  lemma {:induction false} NobodyCounted(waiters: seq<WaiterPc>)
    ensures CountCounted(waiters) == 0 <==> forall i :: 0 <= i < |waiters| ==> !Counted(waiters[i])
  {
    if waiters == [] {
    } else {
      NobodyCounted(waiters[..|waiters| - 1]);
    }
  }

  /** A notifier turns back at `num_waiting_` exactly when no fiber is anywhere between announcing its wait and the end
      of it. */
  lemma TurnsBackIffNobody(start: State, actions: seq<Action>, j: nat, c: Choice)
    requires IsStart(start) && Exec(start, actions).Some? && Enabled(After(start, actions), ByNotifier(j, c))
    requires After(start, actions).notifiers[j].Reading?
    ensures var s := After(start, actions);
            Apply(s, ByNotifier(j, c)).notifiers[j].Done?
            <==> forall i :: 0 <= i < |s.waiters| ==> !Counted(s.waiters[i])
  {
    RunLocks(start, actions);
    NobodyCounted(After(start, actions).waiters);
  }
}
