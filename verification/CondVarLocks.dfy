/** Who holds which lock, who is in the waiter list, and what `num_waiting_` counts - kept by every step. */
module CondVarLocks {
  import opened Wrappers
  import opened CondVar

  predicate HoldsUser(pc: WaiterPc) {
    match pc
    case Outside => false
    case Suspending => false
    case Parked => false
    case Woken => false
    case Relocking => false
    case _ => true
  }

  predicate HoldsWork(pc: WaiterPc) { pc == Unlocking || pc == Suspending }

  /** Between emplace_front and erase. */
  predicate Listed(pc: WaiterPc) {
    match pc
    case Outside => false
    case Entered => false
    case Counting => false
    case Registering => false
    case Leaving(_) => false
    case Returned(_) => false
    case _ => true
  }

  /** Between ++num_waiting_ and --num_waiting_. */
  predicate Counted(pc: WaiterPc) { Listed(pc) || pc == Registering || pc.Leaving? }

  predicate NotifierHoldsUser(pc: NotifierPc) {
    match pc
    case Holding => true
    case Changed => true
    case Reading(h) => h
    case LockingList(h) => h
    case Visiting(h, _) => h
    case Done(h) => h
    case _ => false
  }

  ghost function CountCounted(waiters: seq<WaiterPc>): nat {
    if waiters == [] then 0
    else CountCounted(waiters[..|waiters| - 1]) + if Counted(waiters[|waiters| - 1]) then 1 else 0
  }

  lemma {:induction false} CountUpdate(waiters: seq<WaiterPc>, i: nat, pc: WaiterPc)
    requires i < |waiters|
    ensures CountCounted(waiters[i := pc])
         == CountCounted(waiters) + (if Counted(pc) then 1 else 0) - (if Counted(waiters[i]) then 1 else 0)
  {
    var last := |waiters| - 1;
    if i == last {
      assert waiters[i := pc][..last] == waiters[..last];
    } else {
      CountUpdate(waiters[..last], i, pc);
      assert waiters[i := pc][..last] == waiters[..last][i := pc];
    }
  }

  lemma {:induction false} CountPositive(waiters: seq<WaiterPc>, i: nat)
    requires i < |waiters| && Counted(waiters[i])
    ensures CountCounted(waiters) > 0
  {
    if i == |waiters| - 1 {
    } else {
      CountPositive(waiters[..|waiters| - 1], i);
    }
  }

  lemma {:induction false} CountNone(waiters: seq<WaiterPc>)
    requires forall i :: 0 <= i < |waiters| ==> waiters[i] == Outside
    ensures CountCounted(waiters) == 0
  {
    if waiters == [] {
    } else {
      CountNone(waiters[..|waiters| - 1]);
    }
  }

  lemma {:induction false} EraseMembers(list: seq<nat>, i: nat)
    ensures forall x :: x in Erase(list, i) <==> x in list && x != i
  {
    if list == [] {
    } else {
      EraseMembers(list[1..], i);
      assert list == [list[0]] + list[1..];
    }
  }

  // ---------------------------------------------------------------- the invariant

  ghost predicate WaiterOk(s: State, i: nat)
    requires Sane(s) && i < |s.waiters|
  {
    && (HoldsUser(s.waiters[i]) <==> s.userLock == Some(Waiter(i)))
    && (HoldsWork(s.waiters[i]) <==> s.work[s.home[i]] == Some(i))
    && (Listed(s.waiters[i]) <==> i in s.list)
  }

  ghost predicate NotifierOk(s: State, j: nat)
    requires j < |s.notifiers|
  {
    && (NotifierHoldsUser(s.notifiers[j]) <==> s.userLock == Some(Notifier(j)))
    && (s.notifiers[j].Visiting? <==> s.listLock == Some(j))
  }

  ghost predicate Locks(s: State) {
    && Sane(s)
    && (forall i: nat :: i < |s.waiters| ==> WaiterOk(s, i))
    && (forall j: nat :: j < |s.notifiers| ==> NotifierOk(s, j))
    && s.num == CountCounted(s.waiters)
  }

  lemma StartLocks(s: State)
    requires IsStart(s)
    ensures Locks(s)
  {
    CountNone(s.waiters);
  }

  lemma WaiterCount(s: State, i: nat, late: bool)
    requires Sane(s) && i < |s.waiters| && WaiterCan(s, i, late) && s.num == CountCounted(s.waiters)
    ensures WaiterStep(s, i, late).num == CountCounted(WaiterStep(s, i, late).waiters)
  {
    CountUpdate(s.waiters, i, WaiterStep(s, i, late).waiters[i]);
  }

  lemma WaiterSane(s: State, i: nat, late: bool)
    requires Sane(s) && i < |s.waiters| && WaiterCan(s, i, late)
    ensures Sane(WaiterStep(s, i, late))
  {
    EraseMembers(s.list, i);
    var s' := WaiterStep(s, i, late);
    forall k | 0 <= k < |s'.list| ensures s'.list[k] < |s.waiters| {
      assert s'.list[k] in s'.list;
    }
  }

  lemma WaiterLists(s: State, i: nat, late: bool, x: nat)
    requires Sane(s) && i < |s.waiters| && WaiterCan(s, i, late)
    requires Listed(s.waiters[i]) <==> i in s.list
    ensures x != i ==> (x in WaiterStep(s, i, late).list <==> x in s.list)
    ensures i in WaiterStep(s, i, late).list <==> Listed(WaiterStep(s, i, late).waiters[i])
  {
    EraseMembers(s.list, i);
  }

  /** `home` is shared: only the holder of a worker's mutex releases it, only a free one is taken. */
  lemma WaiterKeepsWork(s: State, i: nat, late: bool, x: nat)
    requires Sane(s) && i < |s.waiters| && WaiterCan(s, i, late) && x < |s.waiters|
    requires WaiterOk(s, i) && WaiterOk(s, x)
    ensures var s' := WaiterStep(s, i, late);
            s'.home == s.home && |s'.work| == |s.work| && (HoldsWork(s'.waiters[x]) <==> s'.work[s'.home[x]] == Some(x))
  {
  }

  lemma WaiterKeepsUser(s: State, i: nat, late: bool, x: nat)
    requires Sane(s) && i < |s.waiters| && WaiterCan(s, i, late) && x < |s.waiters|
    requires WaiterOk(s, i) && WaiterOk(s, x)
    ensures HoldsUser(WaiterStep(s, i, late).waiters[x]) <==> WaiterStep(s, i, late).userLock == Some(Waiter(x))
    ensures x != i ==> WaiterStep(s, i, late).waiters[x] == s.waiters[x]
  {
  }

  lemma WaiterKeepsWaiter(s: State, i: nat, late: bool, x: nat)
    requires Sane(s) && i < |s.waiters| && WaiterCan(s, i, late) && x < |s.waiters|
    requires WaiterOk(s, i) && WaiterOk(s, x)
    ensures Sane(WaiterStep(s, i, late))
    ensures WaiterOk(WaiterStep(s, i, late), x)
  {
    WaiterSane(s, i, late);
    WaiterLists(s, i, late, x);
    WaiterKeepsWork(s, i, late, x);
    WaiterKeepsUser(s, i, late, x);
  }

  lemma WaiterLocks(s: State, i: nat, late: bool)
    requires Locks(s) && i < |s.waiters| && WaiterCan(s, i, late)
    ensures Locks(WaiterStep(s, i, late))
  {
    WaiterSane(s, i, late);
    WaiterCount(s, i, late);
    var s' := WaiterStep(s, i, late);
    forall x: nat | x < |s'.waiters| ensures WaiterOk(s', x) {
      assert WaiterOk(s, i) && WaiterOk(s, x);
      WaiterKeepsWaiter(s, i, late, x);
    }
    assert WaiterOk(s, i);
    forall j: nat | j < |s'.notifiers| ensures NotifierOk(s', j) {
      assert NotifierOk(s, j);
    }
  }

  lemma NotifierSane(s: State, j: nat, c: Choice)
    requires Sane(s) && j < |s.notifiers| && NotifierCan(s, j, c)
    ensures Sane(NotifierStep(s, j, c))
  {
  }

  lemma NotifierCount(s: State, j: nat, c: Choice)
    requires Sane(s) && j < |s.notifiers| && NotifierCan(s, j, c) && s.num == CountCounted(s.waiters)
    ensures NotifierStep(s, j, c).num == CountCounted(NotifierStep(s, j, c).waiters)
  {
    if s.notifiers[j].Visiting? && s.notifiers[j].rest != [] {
      CountUpdate(s.waiters, s.notifiers[j].rest[0], Woken);
    }
  }

  lemma NotifierKeepsWaiter(s: State, j: nat, c: Choice, x: nat)
    requires Sane(s) && j < |s.notifiers| && NotifierCan(s, j, c) && x < |s.waiters|
    requires WaiterOk(s, x) && NotifierOk(s, j)
    ensures Sane(NotifierStep(s, j, c)) && WaiterOk(NotifierStep(s, j, c), x)
  {
    NotifierSane(s, j, c);
  }

  lemma NotifierKeepsNotifier(s: State, j: nat, c: Choice, k: nat)
    requires Sane(s) && j < |s.notifiers| && NotifierCan(s, j, c) && k < |s.notifiers|
    requires NotifierOk(s, j) && NotifierOk(s, k)
    ensures NotifierOk(NotifierStep(s, j, c), k)
  {
  }

  lemma NotifierLocks(s: State, j: nat, c: Choice)
    requires Locks(s) && j < |s.notifiers| && NotifierCan(s, j, c)
    ensures Locks(NotifierStep(s, j, c))
  {
    NotifierSane(s, j, c);
    NotifierCount(s, j, c);
    var s' := NotifierStep(s, j, c);
    assert NotifierOk(s, j);
    forall x: nat | x < |s'.waiters| ensures WaiterOk(s', x) {
      assert WaiterOk(s, x);
      NotifierKeepsWaiter(s, j, c, x);
    }
    forall k: nat | k < |s'.notifiers| ensures NotifierOk(s', k) {
      assert NotifierOk(s, k);
      NotifierKeepsNotifier(s, j, c, k);
    }
  }

  lemma FalsifyLocks(s: State)
    requires Locks(s)
    ensures Locks(s.(pred := false))
  {
    var s' := s.(pred := false);
    forall x: nat | x < |s'.waiters| ensures WaiterOk(s', x) {
      assert WaiterOk(s, x);
    }
    forall k: nat | k < |s'.notifiers| ensures NotifierOk(s', k) {
      assert NotifierOk(s, k);
    }
  }

  lemma StepLocks(s: State, a: Action)
    requires Locks(s) && Enabled(s, a)
    ensures Locks(Apply(s, a))
  {
    match a
    case ByWaiter(i, late) => WaiterLocks(s, i, late);
    case ByNotifier(j, c) => NotifierLocks(s, j, c);
    case Falsify => FalsifyLocks(s);
  }
}
