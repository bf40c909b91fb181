/** `Event::signal` and `Event::any` (include/marl/event.hpp) called by any number of threads at once. A thread keeps
    the mutex of every event on its path while it goes on to the dependents; that threads never wait for each other in
    a circle is due to the order in which events were created. */
module EventLocks {
  import opened Wrappers
  import opened EventNet

  /** A mutex held, and what is done under it. */
  datatype Frame =
    | Passing(event: nat, pos: nat)                     // signal(): the first `pos` dependents have been called
    | Joining(event: nat, told: bool)                   // any(): `event` is a source, tested if `told`

  /** `wants` is the event whose mutex is locked next, on the way into signal() or to the next source of any(). */
  datatype Thread = Thread(frames: seq<Frame>, wants: Option<nat>, sources: seq<nat>, made: nat)

  datatype State = State(deps: seq<seq<nat>>, signalled: set<nat>, threads: seq<Thread>)

  /** The thread locks `wants` as a source of any(), not to signal it. */
  predicate Visiting(t: Thread) { t.frames == [] && t.sources != [] }

  predicate IsIdle(t: Thread) { t.frames == [] && t.wants == None && t.sources == [] }

  ghost predicate Holds(t: Thread, m: nat) {
    exists k :: 0 <= k < |t.frames| && t.frames[k].event == m
  }

  ghost predicate Held(s: State, m: nat) {
    exists i :: 0 <= i < |s.threads| && Holds(s.threads[i], m)
  }

  function Top(t: Thread): Frame
    requires t.frames != []
  {
    t.frames[|t.frames| - 1]
  }

  function Below(t: Thread): seq<Frame>
    requires t.frames != []
  {
    t.frames[..|t.frames| - 1]
  }

  // ---------------------------------------------------------------- steps

  datatype Action =
    | CallSignal(thread: nat, event: nat)
    | CallAny(thread: nat, events: seq<nat>)
    | Go(thread: nat)                       // whatever the thread does next
    | Create(initial: bool)
    | Reset(event: nat)                     // clear(), test(), or a wait that succeeds

  ghost predicate CanGo(s: State, i: nat) {
    && i < |s.threads| && !IsIdle(s.threads[i])
    && (s.threads[i].wants.Some? ==> !Held(s, s.threads[i].wants.value))
  }

  ghost predicate Enabled(s: State, a: Action) {
    match a
    case CallSignal(i, e) => i < |s.threads| && IsIdle(s.threads[i]) && e < |s.deps|
    case CallAny(i, events) =>
      i < |s.threads| && IsIdle(s.threads[i]) && forall k :: 0 <= k < |events| ==> events[k] < |s.deps|
    case Go(i) => CanGo(s, i)
    case Create(_) => true
    case Reset(e) => !Held(s, e)
  }

  function Put(s: State, i: nat, t: Thread): State
    requires i < |s.threads|
  {
    s.(threads := s.threads[i := t])
  }

  /** Locks `m`: as the next source of any(), or at the start of signal(), which sets the flag or finds it set. */
  function Lock(s: State, i: nat, m: nat): State
    requires i < |s.threads| && m < |s.deps|
  {
    var t := s.threads[i].(wants := None);
    if Visiting(t) then Put(s, i, t.(frames := [Joining(m, false)]))
    else if m in s.signalled then Put(s, i, t.(frames := t.frames + [Passing(m, |s.deps[m]|)]))
    else Put(s, i, t.(frames := t.frames + [Passing(m, 0)])).(signalled := s.signalled + {m})
  }

  /** Under the mutex taken last, signal() calls the next dependent, or returns. */
  function Pass(s: State, i: nat): State
    requires i < |s.threads| && s.threads[i].frames != []
    requires Top(s.threads[i]).Passing? && Top(s.threads[i]).event < |s.deps|
  {
    var t := s.threads[i];
    var Passing(e, pos) := Top(t);
    Put(s, i, if pos < |s.deps[e]|
              then t.(frames := Below(t) + [Passing(e, pos + 1)], wants := Some(s.deps[e][pos]))
              else t.(frames := Below(t)))
  }

  /** Under the mutex of a source, any() signals the new event if the source is set, and then adds it. */
  function Join(s: State, i: nat): State
    requires i < |s.threads| && s.threads[i].frames != []
    requires Top(s.threads[i]).Joining? && Top(s.threads[i]).event < |s.deps|
  {
    var t := s.threads[i];
    var Joining(e, told) := Top(t);
    if !told && e in s.signalled then Put(s, i, t.(frames := Below(t) + [Joining(e, true)], wants := Some(t.made)))
    else Put(s, i, t.(frames := Below(t), sources := t.sources[if t.sources == [] then 0 else 1..]))
           .(deps := s.deps[e := s.deps[e] + [t.made]])
  }

  function Step(s: State, i: nat): State
    requires i < |s.threads| && !IsIdle(s.threads[i])
    requires s.threads[i].wants.Some? ==> s.threads[i].wants.value < |s.deps|
    requires s.threads[i].frames != [] ==> Top(s.threads[i]).event < |s.deps|
  {
    var t := s.threads[i];
    if t.wants.Some? then Lock(s, i, t.wants.value)
    else if t.frames == [] then Put(s, i, t.(wants := Some(t.sources[0])))
    else if Top(t).Passing? then Pass(s, i)
    else Join(s, i)
  }

  // ---------------------------------------------------------------- the invariant

  predicate Rising(frames: seq<Frame>) {
    forall k, l :: 0 <= k < l < |frames| ==> frames[k].event < frames[l].event
  }

  /** A thread takes mutexes in creation order, and every event it deals with exists. */
  ghost predicate InOrder(t: Thread, n: nat) {
    && Rising(t.frames)
    && (forall k :: 0 <= k < |t.frames| ==> t.frames[k].event < n)
    && (forall k :: 0 < k < |t.frames| ==> t.frames[k].Passing?)
    && (t.wants.Some? ==> t.wants.value < n && (t.frames != [] ==> Top(t).event < t.wants.value))
    && (t.sources != [] ==> t.made < n && forall k :: 0 <= k < |t.sources| ==> t.sources[k] < t.made)
    && (t.wants.Some? && Visiting(t) ==> t.wants.value == t.sources[0])
    && (t.frames != [] && t.frames[0].Joining? ==> t.sources != [] && t.frames[0].event == t.sources[0])
  }

  ghost predicate Inv(s: State) {
    && Forward(s.deps)
    && (forall i :: 0 <= i < |s.threads| ==> InOrder(s.threads[i], |s.deps|))
  }

  ghost function Apply(s: State, a: Action): State
    requires Inv(s) && Enabled(s, a)
  {
    match a
    case CallSignal(i, e) => Put(s, i, s.threads[i].(wants := Some(e)))
    case CallAny(i, events) =>
      Put(s, i, s.threads[i].(sources := events, made := |s.deps|)).(deps := s.deps + [[]])
    case Go(i) => assert InOrder(s.threads[i], |s.deps|); Step(s, i)
    case Create(initial) =>
      s.(deps := s.deps + [[]], signalled := s.signalled + if initial then {|s.deps|} else {})
    case Reset(e) => s.(signalled := s.signalled - {e})
  }

  /** `Inv` holds in every reachable state, so asking for it rules no run out. */
  ghost function Exec(start: State, actions: seq<Action>): Option<State> {
    if actions == [] then Some(start)
    else
      var last := |actions| - 1;
      match Exec(start, actions[..last])
      case None => None
      case Some(s) => if Inv(s) && Enabled(s, actions[last]) then Some(Apply(s, actions[last])) else None
  }

  predicate IsStart(s: State) {
    s.deps == [] && s.signalled == {} && forall i :: 0 <= i < |s.threads| ==> IsIdle(s.threads[i])
  }

  // ---------------------------------------------------------------- every run keeps the order

  lemma OrderGrows(t: Thread, n: nat)
    requires InOrder(t, n)
    ensures InOrder(t, n + 1)
  {
  }

  lemma PushInOrder(t: Thread, f: Frame, n: nat)
    requires InOrder(t, n) && t.wants == Some(f.event) && (Visiting(t) <==> f.Joining?)
    ensures InOrder(t.(wants := None, frames := t.frames + [f]), n)
  {
  }

  lemma CallInOrder(t: Thread, f: Frame, m: nat, n: nat)
    requires InOrder(t, n) && t.frames != [] && f.event == Top(t).event < m < n && (f.Passing? <==> Top(t).Passing?)
    ensures InOrder(t.(frames := Below(t) + [f], wants := Some(m)), n)
  {
    var frames := Below(t) + [f];
    assert forall k :: 0 <= k < |frames| ==> frames[k].event == t.frames[k].event;
  }

  lemma PopInOrder(t: Thread, n: nat)
    requires InOrder(t, n) && t.frames != [] && t.wants.None?
    ensures Top(t).Passing? ==> InOrder(t.(frames := Below(t)), n)
    ensures Top(t).Joining? ==> t.sources != [] && InOrder(t.(frames := Below(t), sources := t.sources[1..]), n)
  {
  }

  lemma LockInv(s: State, i: nat)
    requires Inv(s) && i < |s.threads| && s.threads[i].wants.Some?
    ensures InOrder(s.threads[i], |s.deps|) && Inv(Lock(s, i, s.threads[i].wants.value))
  {
    var t, m := s.threads[i], s.threads[i].wants.value;
    assert InOrder(t, |s.deps|);
    if Visiting(t) {
      PushInOrder(t, Joining(m, false), |s.deps|);
      assert t.frames + [Joining(m, false)] == [Joining(m, false)];
    } else {
      PushInOrder(t, Passing(m, 0), |s.deps|);
      PushInOrder(t, Passing(m, |s.deps[m]|), |s.deps|);
    }
  }

  /** Replacing one thread. */
  lemma PutInv(s: State, i: nat, t: Thread)
    requires Inv(s) && i < |s.threads| && InOrder(t, |s.deps|)
    ensures Inv(Put(s, i, t))
  {
  }

  lemma PassInv(s: State, i: nat)
    requires Inv(s) && i < |s.threads| && s.threads[i].wants.None? && s.threads[i].frames != []
    requires Top(s.threads[i]).Passing?
    ensures Top(s.threads[i]).event < |s.deps| && Inv(Pass(s, i))
  {
    var t := s.threads[i];
    assert InOrder(t, |s.deps|);
    var Passing(e, pos) := Top(t);
    if pos < |s.deps[e]| {
      CallInOrder(t, Passing(e, pos + 1), s.deps[e][pos], |s.deps|);
    } else {
      PopInOrder(t, |s.deps|);
    }
    PutInv(s, i, Pass(s, i).threads[i]);
  }

  lemma JoinInv(s: State, i: nat)
    requires Inv(s) && i < |s.threads| && s.threads[i].wants.None? && s.threads[i].frames != []
    requires Top(s.threads[i]).Joining?
    ensures Top(s.threads[i]).event < |s.deps| && Inv(Join(s, i))
  {
    var t := s.threads[i];
    assert InOrder(t, |s.deps|);
    PopInOrder(t, |s.deps|);
    assert t.frames == [Top(t)];
    CallInOrder(t, Joining(Top(t).event, true), t.made, |s.deps|);
  }

  lemma StepInv(s: State, a: Action)
    requires Inv(s) && Enabled(s, a)
    ensures Inv(Apply(s, a))
  {
    match a
    case CallSignal(i, e) => assert InOrder(s.threads[i], |s.deps|);
    case CallAny(i, events) =>
      forall k | 0 <= k < |s.threads| ensures InOrder(s.threads[k], |s.deps| + 1) {
        OrderGrows(s.threads[k], |s.deps|);
      }
    case Go(i) =>
      assert InOrder(s.threads[i], |s.deps|);
      if s.threads[i].wants.Some? {
        LockInv(s, i);
      } else if s.threads[i].frames == [] {
      } else if Top(s.threads[i]).Passing? {
        PassInv(s, i);
      } else {
        JoinInv(s, i);
      }
    case Create(_) =>
      forall k | 0 <= k < |s.threads| ensures InOrder(s.threads[k], |s.deps| + 1) {
        OrderGrows(s.threads[k], |s.deps|);
      }
    case Reset(_) =>
  }

  lemma {:induction false} RunInv(start: State, actions: seq<Action>)
    requires IsStart(start) && Exec(start, actions).Some?
    ensures Inv(Exec(start, actions).value)
  {
    if actions == [] {
    } else {
      var last := |actions| - 1;
      RunInv(start, actions[..last]);
      StepInv(Exec(start, actions[..last]).value, actions[last]);
    }
  }

  // ---------------------------------------------------------------- nobody waits in a circle

  ghost function Goal(s: State, i: nat): nat
    requires i < |s.threads|
  {
    if s.threads[i].wants.Some? then s.threads[i].wants.value else |s.deps|
  }

  /** Who holds the mutex that thread `i` waits for is further along in creation order: at the end of the chain stands
      a thread that can go on. */
  lemma FindMover(s: State, i: nat) returns (j: nat)
    requires Inv(s) && i < |s.threads| && !IsIdle(s.threads[i])
    ensures CanGo(s, j)
    decreases |s.deps| - Goal(s, i)
  {
    assert InOrder(s.threads[i], |s.deps|);
    if CanGo(s, i) {
      j := i;
    } else {
      var m := s.threads[i].wants.value;
      var h :| 0 <= h < |s.threads| && Holds(s.threads[h], m);
      var t := s.threads[h];
      assert InOrder(t, |s.deps|);
      var k :| 0 <= k < |t.frames| && t.frames[k].event == m;
      assert m <= Top(t).event;
      if t.wants.None? {
        j := h;
      } else {
        j := FindMover(s, h);
      }
    }
  }

  /** In every run of concurrent signal() and any() calls: as long as a call is unfinished, some thread can go on. */
  lemma NoDeadlock(start: State, actions: seq<Action>, i: nat)
    requires IsStart(start) && Exec(start, actions).Some?
    requires i < |Exec(start, actions).value.threads| && !IsIdle(Exec(start, actions).value.threads[i])
    ensures exists j: nat :: CanGo(Exec(start, actions).value, j)
  {
    RunInv(start, actions);
    var j := FindMover(Exec(start, actions).value, i);
  }

  // ---------------------------------------------------------------- signalling a set event

  /** A signal() that finds its event set returns and has changed nothing. */
  lemma SetEventReturns(s: State, i: nat, m: nat)
    requires Inv(s) && CanGo(s, i) && s.threads[i].wants == Some(m) && !Visiting(s.threads[i]) && m in s.signalled
    ensures var s1 := Apply(s, Go(i));
            && Inv(s1) && CanGo(s1, i)
            && Apply(s1, Go(i)) == Put(s, i, s.threads[i].(wants := None))
  {
    StepInv(s, Go(i));
    var t := s.threads[i];
    assert InOrder(t, |s.deps|);
    var s1 := Apply(s, Go(i));
    assert s1.threads[i] == t.(wants := None, frames := t.frames + [Passing(m, |s.deps[m]|)]);
    assert Below(s1.threads[i]) == t.frames;
  }

  // ---------------------------------------------------------------- no dependent is forgotten

  /** Thread `t` is about to signal `d`, or will call it as a dependent of `e`. */
  ghost predicate WillTell(deps: seq<seq<nat>>, t: Thread, e: nat, d: nat)
    requires e < |deps|
  {
    || (t.wants == Some(d) && !Visiting(t))
    || exists k :: 0 <= k < |t.frames| && StillCalls(deps, t.frames[k], e, d)
  }

  ghost predicate StillCalls(deps: seq<seq<nat>>, f: Frame, e: nat, d: nat)
    requires e < |deps|
  {
    f.Passing? && f.event == e && f.pos <= |deps[e]| && d in deps[e][f.pos..]
  }

  ghost predicate Coming(s: State, e: nat, d: nat)
    requires e < |s.deps|
  {
    exists i :: 0 <= i < |s.threads| && WillTell(s.deps, s.threads[i], e, d)
  }

  ghost predicate Delivered(s: State, e: nat)
    requires e < |s.deps|
  {
    e in s.signalled ==> forall d :: d in s.deps[e] ==> d in s.signalled || Coming(s, e, d)
  }

  /** An any() that found its source signalled signals the new event before it adds it to the dependents. */
  ghost predicate ToldFirst(s: State, t: Thread) {
    t.frames != [] && t.frames[0].Joining? && t.frames[0].told ==>
      t.made in s.signalled || (|t.frames| == 1 && t.wants == Some(t.made))
  }

  ghost predicate AllDelivered(s: State) {
    && Inv(s)
    && (forall e: nat :: e in s.signalled ==> e < |s.deps|)
    && (forall e: nat :: e < |s.deps| ==> Delivered(s, e))
    && (forall i :: 0 <= i < |s.threads| ==> ToldFirst(s, s.threads[i]))
  }

  /** What thread `i` was going to tell before the step, it still is, or it has just done so. */
  ghost predicate TellsOn(s: State, s': State, i: nat)
    requires i < |s.threads| == |s'.threads| && |s.deps| <= |s'.deps|
  {
    forall e: nat, d: nat :: e < |s.deps| && WillTell(s.deps, s.threads[i], e, d) ==>
      d in s'.signalled || WillTell(s'.deps, s'.threads[i], e, d)
  }

  /** A step of thread `i` alone, in which nothing is unsaid. */
  ghost predicate Advances(s: State, s': State, i: nat) {
    && i < |s.threads| == |s'.threads| && s'.threads == s.threads[i := s'.threads[i]]
    && |s.deps| <= |s'.deps| && (forall e :: 0 <= e < |s.deps| ==> s.deps[e] <= s'.deps[e])
    && s.signalled <= s'.signalled
    && TellsOn(s, s', i)
  }

  lemma WillTellGrows(deps: seq<seq<nat>>, deps': seq<seq<nat>>, t: Thread, e: nat, d: nat)
    requires e < |deps| && e < |deps'| && deps[e] <= deps'[e] && WillTell(deps, t, e, d)
    ensures WillTell(deps', t, e, d)
  {
    if k :| 0 <= k < |t.frames| && StillCalls(deps, t.frames[k], e, d) {
      var pos := t.frames[k].pos;
      assert deps'[e][pos..] == deps[e][pos..] + deps'[e][|deps[e]|..];
      assert StillCalls(deps', t.frames[k], e, d);
    }
  }

  lemma StillComing(s: State, s': State, i: nat, e: nat, d: nat)
    requires Advances(s, s', i) && e < |s.deps| && Coming(s, e, d)
    ensures d in s'.signalled || Coming(s', e, d)
  {
    var x :| 0 <= x < |s.threads| && WillTell(s.deps, s.threads[x], e, d);
    if x != i {
      assert s.deps[e] <= s'.deps[e];
      WillTellGrows(s.deps, s'.deps, s.threads[x], e, d);
      assert s'.threads[x] == s.threads[x];
    }
  }

  lemma StillDelivered(s: State, s': State, i: nat, e: nat)
    requires Advances(s, s', i) && e < |s.deps| && Delivered(s, e) && e in s.signalled && s'.deps[e] == s.deps[e]
    ensures Delivered(s', e)
  {
    forall d | d in s'.deps[e] ensures d in s'.signalled || Coming(s', e, d) {
      if d !in s.signalled {
        StillComing(s, s', i, e, d);
      }
    }
  }

  lemma LockTells(s: State, i: nat)
    requires AllDelivered(s) && i < |s.threads| && s.threads[i].wants.Some?
    ensures InOrder(s.threads[i], |s.deps|) && Advances(s, Lock(s, i, s.threads[i].wants.value), i)
  {
    var t, m := s.threads[i], s.threads[i].wants.value;
    assert InOrder(t, |s.deps|);
    var s' := Lock(s, i, m);
    forall e: nat, d: nat | e < |s.deps| && WillTell(s.deps, t, e, d)
      ensures d in s'.signalled || WillTell(s'.deps, s'.threads[i], e, d)
    {
      if k :| 0 <= k < |t.frames| && StillCalls(s.deps, t.frames[k], e, d) {
        assert s'.threads[i].frames[k] == t.frames[k];
      }
    }
  }

  lemma LockDelivers(s: State, i: nat)
    requires AllDelivered(s) && i < |s.threads| && s.threads[i].wants.Some?
    ensures InOrder(s.threads[i], |s.deps|) && AllDelivered(Lock(s, i, s.threads[i].wants.value))
  {
    LockInv(s, i);
    LockTells(s, i);
    var m := s.threads[i].wants.value;
    var s' := Lock(s, i, m);
    forall e: nat | e < |s'.deps| ensures Delivered(s', e) {
      assert Delivered(s, e);
      if e in s.signalled {
        StillDelivered(s, s', i, e);
      } else if e in s'.signalled {
        var t' := s'.threads[i];
        assert t'.frames[|t'.frames| - 1] == Passing(e, 0) && s'.deps[e][0..] == s'.deps[e];
        assert forall d :: d in s'.deps[e] ==> StillCalls(s'.deps, t'.frames[|t'.frames| - 1], e, d);
      }
    }
    forall x | 0 <= x < |s'.threads| ensures ToldFirst(s', s'.threads[x]) {
      assert ToldFirst(s, s.threads[x]);
    }
  }

  /** A frame that still calls `d` after the call of `deps[x][pos]`. */
  lemma CallsOn(deps: seq<seq<nat>>, t: Thread, t': Thread, e: nat, d: nat)
    requires e < |deps| && t.frames != [] && Top(t).Passing? && Top(t).event < |deps| && WillTell(deps, t, e, d)
    requires t.wants.None?
    requires var Passing(x, pos) := Top(t);
             if pos < |deps[x]| then t' == t.(frames := Below(t) + [Passing(x, pos + 1)], wants := Some(deps[x][pos]))
             else t' == t.(frames := Below(t))
    ensures WillTell(deps, t', e, d)
  {
    var Passing(x, pos) := Top(t);
    var k :| 0 <= k < |t.frames| && StillCalls(deps, t.frames[k], e, d);
    if k < |t.frames| - 1 {
      assert t'.frames[k] == t.frames[k];
    } else {
      var m :| 0 <= m < |deps[x][pos..]| && deps[x][pos..][m] == d;
      assert deps[x][pos + m] == d;
      if m > 0 {
        assert deps[x][pos + 1..][m - 1] == d;
        assert StillCalls(deps, t'.frames[k], e, d);
      }
    }
  }

  lemma PassTells(s: State, i: nat)
    requires AllDelivered(s) && i < |s.threads| && s.threads[i].wants.None? && s.threads[i].frames != []
    requires Top(s.threads[i]).Passing?
    ensures Top(s.threads[i]).event < |s.deps| && Advances(s, Pass(s, i), i)
  {
    var t := s.threads[i];
    assert InOrder(t, |s.deps|);
    var s' := Pass(s, i);
    forall e: nat, d: nat | e < |s.deps| && WillTell(s.deps, t, e, d) ensures WillTell(s'.deps, s'.threads[i], e, d) {
      CallsOn(s.deps, t, s'.threads[i], e, d);
    }
  }

  /** A thread's step that leaves the flags and the dependents alone. */
  lemma QuietDelivers(s: State, s': State, i: nat)
    requires AllDelivered(s) && Inv(s') && Advances(s, s', i) && s'.deps == s.deps && s'.signalled == s.signalled
    requires ToldFirst(s', s'.threads[i])
    ensures AllDelivered(s')
  {
    forall e: nat | e < |s'.deps| ensures Delivered(s', e) {
      assert Delivered(s, e);
      if e in s.signalled {
        StillDelivered(s, s', i, e);
      }
    }
    forall x | 0 <= x < |s'.threads| ensures ToldFirst(s', s'.threads[x]) {
      assert ToldFirst(s, s.threads[x]);
    }
  }

  lemma PassDelivers(s: State, i: nat)
    requires AllDelivered(s) && i < |s.threads| && s.threads[i].wants.None? && s.threads[i].frames != []
    requires Top(s.threads[i]).Passing?
    ensures Top(s.threads[i]).event < |s.deps| && AllDelivered(Pass(s, i))
  {
    PassInv(s, i);
    PassTells(s, i);
    assert ToldFirst(s, s.threads[i]);
    QuietDelivers(s, Pass(s, i), i);
  }

  lemma JoinDelivers(s: State, i: nat)
    requires AllDelivered(s) && i < |s.threads| && s.threads[i].wants.None? && s.threads[i].frames != []
    requires Top(s.threads[i]).Joining?
    ensures Top(s.threads[i]).event < |s.deps| && AllDelivered(Join(s, i))
  {
    JoinInv(s, i);
    var t, s' := s.threads[i], Join(s, i);
    assert InOrder(t, |s.deps|) && ToldFirst(s, t);
    assert t.frames == [Top(t)];
    assert Advances(s, s', i);
    if s'.deps == s.deps {
      QuietDelivers(s, s', i);
    } else {
      AddedDelivers(s, s', i, Top(t).event, t.made);
    }
  }

  /** The new event becomes a dependent of a source that was clear, or it has been signalled itself. */
  lemma AddedDelivers(s: State, s': State, i: nat, x: nat, made: nat)
    requires AllDelivered(s) && Inv(s') && Advances(s, s', i) && s'.signalled == s.signalled
    requires x < |s.deps| && s'.deps == s.deps[x := s.deps[x] + [made]] && s'.threads[i].frames == []
    requires x in s.signalled ==> made in s.signalled
    ensures AllDelivered(s')
  {
    forall e: nat | e < |s'.deps| ensures Delivered(s', e) {
      assert Delivered(s, e);
      if e in s.signalled {
        forall d | d in s'.deps[e] ensures d in s'.signalled || Coming(s', e, d) {
          if d in s.deps[e] && d !in s.signalled {
            StillComing(s, s', i, e, d);
          }
        }
      }
    }
    forall k | 0 <= k < |s'.threads| ensures ToldFirst(s', s'.threads[k]) {
      assert ToldFirst(s, s.threads[k]);
    }
  }

  lemma GoDelivers(s: State, i: nat)
    requires AllDelivered(s) && CanGo(s, i)
    ensures AllDelivered(Apply(s, Go(i)))
  {
    var t := s.threads[i];
    assert InOrder(t, |s.deps|);
    if t.wants.Some? {
      LockDelivers(s, i);
    } else if t.frames == [] {
      StepInv(s, Go(i));
      QuietDelivers(s, Apply(s, Go(i)), i);
    } else if Top(t).Passing? {
      PassDelivers(s, i);
    } else {
      JoinDelivers(s, i);
    }
  }

  lemma NewEventDelivers(s: State, s': State, i: nat)
    requires AllDelivered(s) && Inv(s') && Advances(s, s', i) && s'.deps == s.deps + [[]]
    requires s'.signalled == s.signalled || s'.signalled == s.signalled + {|s.deps|}
    requires ToldFirst(s', s'.threads[i])
    ensures AllDelivered(s')
  {
    forall e: nat | e < |s'.deps| ensures Delivered(s', e) {
      if e < |s.deps| {
        assert Delivered(s, e);
        if e in s.signalled {
          StillDelivered(s, s', i, e);
        }
      }
    }
    forall x | 0 <= x < |s'.threads| ensures ToldFirst(s', s'.threads[x]) {
      assert ToldFirst(s, s.threads[x]);
    }
  }

  lemma CallDelivers(s: State, a: Action)
    requires AllDelivered(s) && Enabled(s, a) && (a.CallSignal? || a.CallAny?)
    ensures AllDelivered(Apply(s, a))
  {
    StepInv(s, a);
    var s' := Apply(s, a);
    if a.CallSignal? {
      QuietDelivers(s, s', a.thread);
    } else {
      NewEventDelivers(s, s', a.thread);
    }
  }

  lemma CreateDelivers(s: State, initial: bool)
    requires AllDelivered(s)
    ensures AllDelivered(Apply(s, Create(initial)))
  {
    StepInv(s, Create(initial));
    var s' := Apply(s, Create(initial));
    forall e: nat | e < |s'.deps| ensures Delivered(s', e) {
      if e < |s.deps| {
        assert Delivered(s, e);
        forall d | e in s'.signalled && d in s'.deps[e] ensures d in s'.signalled || Coming(s', e, d) {
          if d !in s.signalled {
            var x :| 0 <= x < |s.threads| && WillTell(s.deps, s.threads[x], e, d);
            WillTellGrows(s.deps, s'.deps, s.threads[x], e, d);
          }
        }
      }
    }
    forall x | 0 <= x < |s'.threads| ensures ToldFirst(s', s'.threads[x]) {
      assert ToldFirst(s, s.threads[x]);
    }
  }

  ghost predicate NoReset(actions: seq<Action>) {
    forall k :: 0 <= k < |actions| ==> !actions[k].Reset?
  }

  lemma {:induction false} RunDelivers(start: State, actions: seq<Action>)
    requires IsStart(start) && NoReset(actions) && Exec(start, actions).Some?
    ensures AllDelivered(Exec(start, actions).value)
  {
    if actions == [] {
    } else {
      var last := |actions| - 1;
      RunDelivers(start, actions[..last]);
      var s := Exec(start, actions[..last]).value;
      var a := actions[last];
      if a.Go? {
        GoDelivers(s, a.thread);
      } else if a.Create? {
        CreateDelivers(s, a.initial);
      } else {
        CallDelivers(s, a);
      }
    }
  }

  /** However signal() and any() calls interleave, as long as no flag is reset: once all calls have returned, every
      dependent of a signalled event is signalled. */
  lemma QuietIsClosed(start: State, actions: seq<Action>)
    requires IsStart(start) && NoReset(actions) && Exec(start, actions).Some?
    requires forall i :: 0 <= i < |Exec(start, actions).value.threads| ==> IsIdle(Exec(start, actions).value.threads[i])
    ensures PassesOn(Exec(start, actions).value.deps, {}, Exec(start, actions).value.signalled)
  {
    RunDelivers(start, actions);
    var s := Exec(start, actions).value;
    forall e | e in s.signalled ensures forall d :: d in s.deps[e] ==> d in s.signalled {
      assert Delivered(s, e);
    }
  }

  // ---------------------------------------------------------------- every call takes effect

  /** The event is signalled, or a thread is about to lock it for that. */
  ghost predicate SignalComing(s: State, e: nat) {
    e in s.signalled || exists i :: 0 <= i < |s.threads| && s.threads[i].wants == Some(e) && !Visiting(s.threads[i])
  }

  /** The new event is a dependent of `x`, or a thread is going to make it one. */
  ghost predicate JoinComing(s: State, x: nat, made: nat) {
    || (x < |s.deps| && made in s.deps[x])
    || exists i :: 0 <= i < |s.threads| && s.threads[i].made == made && x in s.threads[i].sources
  }

  /** A thread inside a call moves only by its own steps. */
  lemma OtherThreadStands(s: State, a: Action, i: nat)
    requires Inv(s) && Enabled(s, a) && i < |s.threads| && !IsIdle(s.threads[i]) && a != Go(i)
    ensures i < |Apply(s, a).threads| && Apply(s, a).threads[i] == s.threads[i]
  {
  }

  lemma SignalStillComing(s: State, a: Action, e: nat)
    requires Inv(s) && Enabled(s, a) && !a.Reset? && SignalComing(s, e)
    ensures SignalComing(Apply(s, a), e)
  {
    var s' := Apply(s, a);
    if e !in s.signalled {
      var i :| 0 <= i < |s.threads| && s.threads[i].wants == Some(e) && !Visiting(s.threads[i]);
      assert InOrder(s.threads[i], |s.deps|);
      if a != Go(i) {
        OtherThreadStands(s, a, i);
      }
    }
  }

  lemma JoinStillComing(s: State, a: Action, x: nat, made: nat)
    requires Inv(s) && Enabled(s, a) && JoinComing(s, x, made)
    ensures JoinComing(Apply(s, a), x, made)
  {
    var s' := Apply(s, a);
    if x < |s.deps| && made in s.deps[x] {
      DepsGrow(s, a);
    } else {
      var i :| 0 <= i < |s.threads| && s.threads[i].made == made && x in s.threads[i].sources;
      if a == Go(i) {
        GoJoins(s, i, x);
      } else {
        OtherThreadStands(s, a, i);
      }
    }
  }

  lemma DepsGrow(s: State, a: Action)
    requires Inv(s) && Enabled(s, a)
    ensures |s.deps| <= |Apply(s, a).deps| && forall e :: 0 <= e < |s.deps| ==> s.deps[e] <= Apply(s, a).deps[e]
  {
  }

  /** A source leaves the list of an any() only when the new event has been added to it. */
  lemma GoJoins(s: State, i: nat, x: nat)
    requires Inv(s) && CanGo(s, i) && x in s.threads[i].sources
    ensures var s' := Apply(s, Go(i));
            && s'.threads[i].made == s.threads[i].made
            && (x in s'.threads[i].sources || (x < |s'.deps| && s.threads[i].made in s'.deps[x]))
  {
    var t := s.threads[i];
    assert InOrder(t, |s.deps|);
    assert t.sources == [t.sources[0]] + t.sources[1..];
    if t.wants.None? && t.frames != [] && Top(t).Joining? {
      assert t.frames == [Top(t)];
    }
  }

  /** What the call at position `k` of a run was for. */
  ghost predicate HasEffect(start: State, actions: seq<Action>, k: nat, s: State)
    requires k < |actions|
  {
    match actions[k]
    case CallSignal(_, e) => e in s.signalled
    case CallAny(_, events) =>
      Exec(start, actions[..k]).Some? &&
      var made := |Exec(start, actions[..k]).value.deps|;
      forall x :: x in events ==> x < |s.deps| && made in s.deps[x]
    case Create(initial) =>
      Exec(start, actions[..k]).Some? &&
      var made := |Exec(start, actions[..k]).value.deps|;
      made < |s.deps| && (initial ==> made in s.signalled)
    case _ => true
  }

  lemma {:induction false} SignalArrives(start: State, actions: seq<Action>, k: nat)
    requires IsStart(start) && NoReset(actions) && Exec(start, actions).Some?
    requires k < |actions| && actions[k].CallSignal?
    ensures SignalComing(Exec(start, actions).value, actions[k].event)
  {
    var last := |actions| - 1;
    RunInv(start, actions[..last]);
    var s := Exec(start, actions[..last]).value;
    if k == last {
      assert Apply(s, actions[k]).threads[actions[k].thread].wants == Some(actions[k].event);
    } else {
      SignalArrives(start, actions[..last], k);
      SignalStillComing(s, actions[last], actions[k].event);
    }
  }

  lemma {:induction false} JoinArrives(start: State, actions: seq<Action>, k: nat, x: nat)
    requires IsStart(start) && Exec(start, actions).Some?
    requires k < |actions| && actions[k].CallAny? && x in actions[k].events
    ensures Exec(start, actions[..k]).Some?
    ensures JoinComing(Exec(start, actions).value, x, |Exec(start, actions[..k]).value.deps|)
  {
    var last := |actions| - 1;
    RunInv(start, actions[..last]);
    var s := Exec(start, actions[..last]).value;
    if k == last {
      assert Apply(s, actions[k]).threads[actions[k].thread].sources == actions[k].events;
    } else {
      JoinArrives(start, actions[..last], k, x);
      assert actions[..last][..k] == actions[..k];
      JoinStillComing(s, actions[last], x, |Exec(start, actions[..k]).value.deps|);
    }
  }

  lemma {:induction false} CreatedStays(start: State, actions: seq<Action>, k: nat)
    requires IsStart(start) && NoReset(actions) && Exec(start, actions).Some?
    requires k < |actions| && actions[k].Create?
    ensures Exec(start, actions[..k]).Some?
    ensures var made, s := |Exec(start, actions[..k]).value.deps|, Exec(start, actions).value;
            made < |s.deps| && (actions[k].initial ==> made in s.signalled)
  {
    var last := |actions| - 1;
    RunInv(start, actions[..last]);
    var s := Exec(start, actions[..last]).value;
    DepsGrow(s, actions[last]);
    if k < last {
      CreatedStays(start, actions[..last], k);
      assert actions[..last][..k] == actions[..k];
      FlagsStay(s, actions[last]);
    }
  }

  lemma FlagsStay(s: State, a: Action)
    requires Inv(s) && Enabled(s, a)
    ensures !a.Reset? ==> s.signalled <= Apply(s, a).signalled
    ensures a.Reset? ==> a.event !in Apply(s, a).signalled && s.signalled <= Apply(s, a).signalled + {a.event}
  {
  }

  /** Once all calls have returned, and no flag was reset: every event on which signal() was called is signalled, an
      event created signalled still is, and the event made by an any() is a dependent of each of its sources. */
  lemma CallsHaveEffect(start: State, actions: seq<Action>, k: nat)
    requires IsStart(start) && NoReset(actions) && Exec(start, actions).Some? && k < |actions|
    requires forall i :: 0 <= i < |Exec(start, actions).value.threads| ==> IsIdle(Exec(start, actions).value.threads[i])
    ensures HasEffect(start, actions, k, Exec(start, actions).value)
  {
    if actions[k].CallSignal? {
      SignalArrives(start, actions, k);
    } else if actions[k].Create? {
      CreatedStays(start, actions, k);
    } else if actions[k].CallAny? {
      PrefixRuns(start, actions, k);
      forall x | x in actions[k].events
        ensures var s := Exec(start, actions).value;
                x < |s.deps| && |Exec(start, actions[..k]).value.deps| in s.deps[x]
      {
        JoinArrives(start, actions, k, x);
      }
    }
  }

  lemma {:induction false} PrefixRuns(start: State, actions: seq<Action>, k: nat)
    requires Exec(start, actions).Some? && k <= |actions|
    ensures Exec(start, actions[..k]).Some?
  {
    if k == |actions| {
      assert actions[..k] == actions;
    } else {
      PrefixRuns(start, actions[..|actions| - 1], k);
      assert actions[..|actions| - 1][..k] == actions[..k];
    }
  }
}
