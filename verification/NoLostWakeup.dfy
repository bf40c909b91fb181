/** No waiter is stranded by `notify_all`: a parked fiber whose predicate is true is owed a notification. */
module NoLostWakeup {
  import opened Wrappers
  import opened CondVar
  import opened CondVarLocks

  /** The notifier has made the predicate true and has yet to reach fiber `i`. */
  predicate Owes(pc: NotifierPc, i: nat) {
    match pc
    case Changed => true
    case Released => true
    case Decremented => true
    case Reading(_) => true
    case LockingList(_) => true
    case Visiting(_, rest) => i in rest
    case _ => false
  }

  ghost predicate Owed(s: State, i: nat) {
    exists j: nat :: j < |s.notifiers| && Owes(s.notifiers[j], i)
  }

  ghost predicate LockPending(s: State) {
    exists j: nat :: j < |s.notifiers| && s.notifiers[j] == Decremented
  }

  /** A fiber that read the predicate as false and still holds the user lock can be overtaken only by a
      change made outside the lock; once it has let go of the lock, by a notifier that owes it. */
  ghost predicate NotStranded(s: State, i: nat)
    requires i < |s.waiters|
  {
    && (s.pred && (s.waiters[i] == LockingWork || s.waiters[i] == Unlocking) ==> LockPending(s))
    && (s.pred && (s.waiters[i] == Suspending || s.waiters[i] == Parked) ==> Owed(s, i))
  }

  ghost predicate Inv(s: State) {
    Locks(s) && forall i: nat :: i < |s.waiters| ==> NotStranded(s, i)
  }

  lemma WaiterKeeps(s: State, i: nat, late: bool, x: nat)
    requires Sane(s) && i < |s.waiters| && WaiterCan(s, i, late) && x < |s.waiters|
    requires NotStranded(s, i) && NotStranded(s, x)
    ensures NotStranded(WaiterStep(s, i, late), x)
  {
    var s' := WaiterStep(s, i, late);
    assert s'.notifiers == s.notifiers && s'.pred == s.pred;
    if LockPending(s) {
      var j: nat :| j < |s.notifiers| && s.notifiers[j] == Decremented;
      assert s'.notifiers[j] == Decremented && Owes(s'.notifiers[j], x);
    }
    if Owed(s, x) {
      var j: nat :| j < |s.notifiers| && Owes(s.notifiers[j], x);
      assert Owes(s'.notifiers[j], x);
    }
  }

  lemma StillOwes(s: State, j: nat, c: Choice, x: nat)
    requires Sane(s) && j < |s.notifiers| && NotifierCan(s, j, c) && c != GoOne && x < |s.waiters|
    requires s.waiters[x] == Suspending ==> s.work[s.home[x]].Some?
    requires (s.waiters[x] == Suspending || s.waiters[x] == Parked) && x in s.list && s.num > 0
    requires Owes(s.notifiers[j], x)
    ensures var s' := NotifierStep(s, j, c); s'.waiters[x] == Woken || Owes(s'.notifiers[j], x)
  {
    if s.notifiers[j].Visiting? {
      var rest := s.notifiers[j].rest;
      assert rest == [rest[0]] + rest[1..];
    }
  }

  /** A step of notifier `j` discharges only what it owed to the fiber it visits. */
  lemma StillOwed(s: State, j: nat, c: Choice, x: nat)
    requires Locks(s) && j < |s.notifiers| && NotifierCan(s, j, c) && c != GoOne && x < |s.waiters|
    requires s.waiters[x] == Suspending || s.waiters[x] == Parked
    requires Owed(s, x)
    ensures var s' := NotifierStep(s, j, c); s'.waiters[x] == Woken || Owed(s', x)
  {
    var s' := NotifierStep(s, j, c);
    var k: nat :| k < |s.notifiers| && Owes(s.notifiers[k], x);
    if k != j {
      assert Owes(s'.notifiers[k], x);
    } else {
      assert WaiterOk(s, x);
      CountPositive(s.waiters, x);
      StillOwes(s, j, c, x);
    }
  }

  lemma NotifierKeeps(s: State, j: nat, c: Choice, x: nat)
    requires Locks(s) && j < |s.notifiers| && NotifierCan(s, j, c) && c != GoOne && x < |s.waiters|
    requires NotStranded(s, x)
    ensures NotStranded(NotifierStep(s, j, c), x)
  {
    var s' := NotifierStep(s, j, c);
    assert WaiterOk(s, x) && NotifierOk(s, j);
    if s'.pred && !s.pred {
      assert Owes(s'.notifiers[j], x);
    } else if s.pred && LockPending(s) && HoldsUser(s.waiters[x]) {
      var k: nat :| k < |s.notifiers| && s.notifiers[k] == Decremented;
      assert s'.notifiers[k] == Decremented;
    } else if s.pred && Owed(s, x) && (s.waiters[x] == Suspending || s.waiters[x] == Parked) {
      StillOwed(s, j, c, x);
    }
  }

  lemma StepKeeps(s: State, a: Action)
    requires Inv(s) && Enabled(s, a) && !(a.ByNotifier? && a.choice == GoOne)
    ensures Inv(Apply(s, a))
  {
    var s' := Apply(s, a);
    StepLocks(s, a);
    forall x: nat | x < |s'.waiters| ensures NotStranded(s', x) {
      assert NotStranded(s, x);
      if a.ByWaiter? {
        assert NotStranded(s, a.waiter);
        WaiterKeeps(s, a.waiter, a.late, x);
      } else if a.ByNotifier? {
        NotifierKeeps(s, a.notifier, a.choice, x);
      }
    }
  }

  ghost predicate NotifiesAll(actions: seq<Action>) {
    forall k :: 0 <= k < |actions| ==> !(actions[k].ByNotifier? && actions[k].choice == GoOne)
  }

  lemma {:induction false} RunInv(start: State, actions: seq<Action>)
    requires IsStart(start) && NotifiesAll(actions) && Exec(start, actions).Some?
    ensures Inv(Exec(start, actions).value)
  {
    if actions == [] {
      StartLocks(start);
    } else {
      var last := |actions| - 1;
      RunInv(start, actions[..last]);
      StepKeeps(Exec(start, actions[..last]).value, actions[last]);
    }
  }

  /** In every run of any number of fibers and `notify_all` callers, however they interleave and however
      often the predicate flips: a fiber parked while the predicate holds is owed a notification. */
  lemma NobodyStranded(start: State, actions: seq<Action>, i: nat)
    requires IsStart(start) && NotifiesAll(actions) && Exec(start, actions).Some?
    requires i < |Exec(start, actions).value.waiters|
    requires Exec(start, actions).value.waiters[i] == Parked && Exec(start, actions).value.pred
    ensures Owed(Exec(start, actions).value, i)
  {
    RunInv(start, actions);
    assert NotStranded(Exec(start, actions).value, i);
  }

  /** When all notifiers are done, no fiber sleeps on a true predicate. */
  lemma QuietMeansAwake(start: State, actions: seq<Action>, i: nat)
    requires IsStart(start) && NotifiesAll(actions) && Exec(start, actions).Some?
    requires i < |Exec(start, actions).value.waiters| && Exec(start, actions).value.pred
    requires forall j :: 0 <= j < |Exec(start, actions).value.notifiers| ==>
               Exec(start, actions).value.notifiers[j] in {Resting, Holding, Done(true), Done(false)}
    ensures Exec(start, actions).value.waiters[i] != Parked
  {
    var s := Exec(start, actions).value;
    if s.waiters[i] == Parked {
      NobodyStranded(start, actions, i);
      assert false;
    }
  }
}
