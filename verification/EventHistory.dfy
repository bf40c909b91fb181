/** The flag of an `Event` in `Mode::Auto` and the results of its waits, told from the calls of the run
    (include/marl/event.hpp). */
module EventHistory {
  import opened Wrappers
  import opened CondVar
  import opened CondVarLocks
  import opened AutoEvent
  import V = WaitResults

  ghost function After(start: AutoEvent.Event, calls: seq<Call>): AutoEvent.Event {
    if AutoEvent.Exec(start, calls).Some? then AutoEvent.Exec(start, calls).value else start
  }

  lemma LastCall(start: AutoEvent.Event, calls: seq<Call>)
    requires calls != [] && AutoEvent.Exec(start, calls).Some?
    ensures AutoEvent.Exec(start, calls[..|calls| - 1]).Some?
    ensures CanCall(After(start, calls[..|calls| - 1]), calls[|calls| - 1])
    ensures After(start, calls) == Perform(After(start, calls[..|calls| - 1]), calls[|calls| - 1])
  {
  }

  // ---------------------------------------------------------------- the flag

  /** What a step has to say about the flag: signal() sets it, clear(), test() and a successful wait reset it. */
  ghost function Says(s: State, c: Call, flag: bool): bool {
    match c
    case Clear => false
    case Test => false
    case Signal(j) => flag || (j < |s.notifiers| && s.notifiers[j] == Holding)
    case Wait(i, _) => flag && !(i < |s.waiters| && s.waiters[i] == Returned(true))
  }

  ghost function LastWord(start: AutoEvent.Event, calls: seq<Call>): bool {
    if calls == [] then start.cv.pred
    else
      var before := calls[..|calls| - 1];
      Says(After(start, before).cv, calls[|calls| - 1], LastWord(start, before))
  }

  lemma FlagStep(e: AutoEvent.Event, c: Call)
    requires EventInv(e) && CanCall(e, c)
    ensures Perform(e, c).cv.pred == Says(e.cv, c, e.cv.pred)
  {
    if c.Signal? {
      assert SignalOk(e.cv, c.caller);
    }
  }

  /** In every run the flag is what the last call that has a say in it made it. */
  lemma {:induction false} FlagIsLastWord(start: AutoEvent.Event, calls: seq<Call>)
    requires AutoEvent.IsFresh(start) && AutoEvent.Exec(start, calls).Some?
    ensures After(start, calls).cv.pred == LastWord(start, calls)
  {
    if calls == [] {
    } else {
      var before := calls[..|calls| - 1];
      LastCall(start, calls);
      FlagIsLastWord(start, before);
      SignalsConserved(start, before);
      FlagStep(After(start, before), calls[|calls| - 1]);
    }
  }

  /** signal() goes on to notify exactly when it found the flag clear; on a set flag it leaves everything as it was. */
  lemma SignalOnSetFlag(e: AutoEvent.Event, j: nat)
    requires CanCall(e, Signal(j)) && e.cv.notifiers[j] == Holding
    ensures Perform(e, Signal(j)).cv.notifiers[j] == Changed <==> !e.cv.pred
    ensures e.cv.pred ==> Perform(e, Signal(j)) == e.(cv := Place(e.cv, j, Resting).(userLock := None))
  {
  }

  // ---------------------------------------------------------------- the waits

  ghost function Verdict(start: AutoEvent.Event, calls: seq<Call>, i: nat): Option<bool> {
    if calls == [] then None
    else
      var before, c := calls[..|calls| - 1], calls[|calls| - 1];
      var s := After(start, before).cv;
      if c.Wait? && c.waiter == i && i < |s.waiters| then V.Decides(s, i, c.late, Verdict(start, before, i))
      else Verdict(start, before, i)
  }

  lemma OthersStand(e: AutoEvent.Event, c: Call, i: nat)
    requires CanCall(e, c) && i < |e.cv.waiters| && !(c.Wait? && c.waiter == i)
    ensures var pc, pc' := e.cv.waiters[i], Perform(e, c).cv.waiters[i]; pc' == pc || (pc == Parked && pc' == Woken)
  {
    match c
    case Wait(x, late) => V.OtherWaiterStands(e.cv, x, late, i);
    case Signal(j) => V.NotifierWakesOnly(e.cv, j, SignalChoice(e.cv, j), i);
    case _ =>
  }

  lemma SameSize(e: AutoEvent.Event, c: Call)
    requires CanCall(e, c)
    ensures |Perform(e, c).cv.waiters| == |e.cv.waiters| && Perform(e, c).cv.timed == e.cv.timed
  {
  }

  /** In every run a wait on the event returns true exactly when it read a set flag, and false exactly when it got the
      mutex back after its deadline. */
  lemma {:induction false} ReturnsAsDecided(start: AutoEvent.Event, calls: seq<Call>, i: nat)
    requires AutoEvent.IsFresh(start) && AutoEvent.Exec(start, calls).Some? && i < |start.cv.waiters|
    ensures |After(start, calls).cv.waiters| == |start.cv.waiters| && After(start, calls).cv.timed == start.cv.timed
    ensures V.Told(After(start, calls).cv.waiters[i], Verdict(start, calls, i))
    ensures !start.cv.timed[i] ==> Verdict(start, calls, i) != Some(false)
  {
    if calls == [] {
    } else {
      var before, c := calls[..|calls| - 1], calls[|calls| - 1];
      LastCall(start, calls);
      ReturnsAsDecided(start, before, i);
      var e := After(start, before);
      SameSize(e, c);
      if c.Wait? && c.waiter == i {
        V.OwnStep(e.cv, i, c.late, Verdict(start, before, i));
      } else {
        OthersStand(e, c, i);
      }
    }
  }

  /** Every wait without a deadline that returns has consumed the signal: it was set, and is reset. */
  lemma UntimedWaitConsumes(start: AutoEvent.Event, calls: seq<Call>, i: nat)
    requires AutoEvent.IsFresh(start) && AutoEvent.Exec(start, calls).Some?
    requires i < |start.cv.waiters| && !start.cv.timed[i]
    requires i < |After(start, calls).cv.waiters| && After(start, calls).cv.waiters[i].Returned?
    requires CanCall(After(start, calls), Wait(i, false))
    ensures var e, e' := After(start, calls), Perform(After(start, calls), Wait(i, false));
            e.cv.pred && !e'.cv.pred && e'.waits == e.waits + 1
  {
    ReturnsAsDecided(start, calls, i);
    SignalsConserved(start, calls);
    assert ReadStands(After(start, calls).cv, i);
  }
}
