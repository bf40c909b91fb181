/** What every step of a DAG run keeps, for every interleaving. */
module DagInvariant {
  import opened Wrappers
  import opened DagGraph
  import opened DagRun

  // ---------------------------------------------------------------- what the strands hold

  /** Tokens a frame holds: nodes it will still invoke, nodes it is processing, nodes whose work is
      running, the wait-group units it still owes, and an upper bound on the steps it takes before
      it needs another start or notification. */
  datatype Token = Pending(node: nat) | Active(node: nat) | InWork(node: nat) | Open | Fuel

  function One(b: bool): nat { if b then 1 else 0 }

  ghost function FrameFuel(f: Frame): nat {
    match f
    case Invoke(_) => 2
    case Working(_) => 4
    case Notifying(_, _, _) => 3
    case AddingToGroup(_, _, _) => 7
    case Scheduling(_, _, _) => 6
    case ChainDone => 1
    case Finished => 0
  }

  ghost function FrameHolds(d: Dag, f: Frame, t: Token): nat
    requires FrameFits(d, f)
  {
    if t == Fuel then FrameFuel(f) else
    match f
    case Invoke(n) => One(t == Pending(n)) + One(t == Open)
    case Working(n) => One(t == Active(n)) + One(t == InWork(n)) + One(t == Open)
    case Notifying(n, _, x) => One(t == Active(n)) + One(t == Open) + One(x.Some? && t == Pending(x.value))
    case AddingToGroup(n, k, x) =>
      One(t == Active(n)) + One(t == Open) + One(t == Pending(x)) + One(t == Pending(d.nodes[n].outs[k]))
    case Scheduling(n, k, x) =>
      One(t == Active(n)) + 2 * One(t == Open) + One(t == Pending(x)) + One(t == Pending(d.nodes[n].outs[k]))
    case ChainDone => One(t == Open)
    case Finished => 0
  }

  ghost predicate AllFit(d: Dag, strands: seq<Frame>) {
    forall i :: 0 <= i < |strands| ==> FrameFits(d, strands[i])
  }

  /** How many tokens `t` all strands hold together. */
  ghost function Held(d: Dag, strands: seq<Frame>, t: Token): nat
    requires AllFit(d, strands)
  {
    if strands == [] then 0
    else Held(d, strands[..|strands| - 1], t) + FrameHolds(d, strands[|strands| - 1], t)
  }

  lemma {:induction false} HeldUpdate(d: Dag, strands: seq<Frame>, i: nat, f: Frame, t: Token)
    requires AllFit(d, strands) && i < |strands| && FrameFits(d, f)
    ensures AllFit(d, strands[i := f])
    ensures Held(d, strands[i := f], t) + FrameHolds(d, strands[i], t) == Held(d, strands, t) + FrameHolds(d, f, t)
  {
    var last := |strands| - 1;
    if i == last {
      assert strands[i := f][..last] == strands[..last];
    } else {
      HeldUpdate(d, strands[..last], i, f, t);
      assert strands[i := f][..last] == strands[..last][i := f];
    }
  }

  lemma HeldAppend(d: Dag, strands: seq<Frame>, f: Frame, t: Token)
    requires AllFit(d, strands) && FrameFits(d, f)
    ensures AllFit(d, strands + [f])
    ensures Held(d, strands + [f], t) == Held(d, strands, t) + FrameHolds(d, f, t)
  {
    assert (strands + [f])[..|strands|] == strands;
  }

  lemma {:induction false} HeldAtLeast(d: Dag, strands: seq<Frame>, i: nat, t: Token)
    requires AllFit(d, strands) && i < |strands|
    ensures FrameHolds(d, strands[i], t) <= Held(d, strands, t)
  {
    if i == |strands| - 1 {
    } else {
      HeldAtLeast(d, strands[..|strands| - 1], i, t);
    }
  }

  lemma {:induction false} HeldByTwo(d: Dag, strands: seq<Frame>, i: nat, j: nat, t: Token)
    requires AllFit(d, strands) && i < j < |strands|
    ensures FrameHolds(d, strands[i], t) + FrameHolds(d, strands[j], t) <= Held(d, strands, t)
  {
    if j < |strands| - 1 {
      HeldByTwo(d, strands[..|strands| - 1], i, j, t);
    } else {
      HeldAtLeast(d, strands[..|strands| - 1], i, t);
    }
  }

  lemma {:induction false} HolderOf(d: Dag, strands: seq<Frame>, t: Token) returns (i: nat)
    requires AllFit(d, strands) && Held(d, strands, t) > 0
    ensures i < |strands| && FrameHolds(d, strands[i], t) > 0
  {
    var last := |strands| - 1;
    if FrameHolds(d, strands[last], t) > 0 {
      i := last;
    } else {
      i := HolderOf(d, strands[..last], t);
    }
  }

  // ---------------------------------------------------------------- the log

  ghost function Count(log: seq<Event>, e: Event): nat {
    if log == [] then 0 else Count(log[..|log| - 1], e) + One(log[|log| - 1] == e)
  }

  lemma CountAppend(log: seq<Event>, e: Event, x: Event)
    ensures Count(log + [e], x) == Count(log, x) + One(e == x)
  {
    assert (log + [e])[..|log|] == log;
  }

  lemma {:induction false} CountPositive(log: seq<Event>, e: Event)
    ensures Count(log, e) > 0 <==> e in log
  {
    if log == [] {
    } else {
      CountPositive(log[..|log| - 1], e);
      assert log == log[..|log| - 1] + [log[|log| - 1]];
    }
  }

  // ---------------------------------------------------------------- the invariant

  ghost predicate Sized(d: Dag, s: State) {
    Fits(d, s) && ProgressFits(d.Successors(), s.progress)
  }

  /** All predecessors of `n`, and there is at least one, have notified it. */
  ghost predicate Fed(d: Dag, s: State, n: nat)
    requires ProgressFits(d.Successors(), s.progress)
  {
    Indegree(d.Successors(), n) >= 1 && Notified(d.Successors(), s.progress, n) == Indegree(d.Successors(), n)
  }

  ghost function Claims(d: Dag, s: State, n: nat): nat
    requires AllFit(d, s.strands)
  {
    Held(d, s.strands, Pending(n)) + Count(s.log, Start(n))
  }

  /** A node is claimed, by a strand or by the log, once it is fed, and the root once more at the start. */
  ghost predicate Claimed(d: Dag, s: State)
    requires Sized(d, s)
  {
    forall n: nat :: n < |d.nodes| ==> Claims(d, s, n) == One(n == ROOT) + One(Fed(d, s, n))
  }

  ghost function Unprocessed(d: Dag, s: State, n: nat): int
    requires AllFit(d, s.strands)
  {
    Count(s.log, Start(n)) - Held(d, s.strands, Active(n)) - Count(s.log, Drained(n))
  }

  ghost function Unreturned(d: Dag, s: State, n: nat): int
    requires AllFit(d, s.strands)
  {
    Count(s.log, Start(n)) - Held(d, s.strands, InWork(n)) - Count(s.log, Finish(n))
  }

  /** A started node is being processed or drained; its work is running or has returned. */
  ghost predicate Accounted(d: Dag, s: State)
    requires Sized(d, s)
  {
    && (forall n: nat :: n < |d.nodes| ==> Unprocessed(d, s, n) == 0)
    && (forall n: nat :: n < |d.nodes| ==> Unreturned(d, s, n) == 0)
  }

  ghost predicate CountersAgree(d: Dag, s: State)
    requires Sized(d, s)
  {
    forall n: nat :: n < |d.nodes| && d.nodes[n].counterIndex.Some? ==>
      s.counters[d.nodes[n].counterIndex.value]
      == Indegree(d.Successors(), n) - Notified(d.Successors(), s.progress, n)
  }

  ghost function Overdraft(d: Dag, s: State): int
    requires AllFit(d, s.strands) && |s.strands| > 0
  {
    s.group + One(!s.strands[0].Finished?) - Held(d, s.strands, Open)
  }

  /** The wait group counts the scheduled strands that have not finished, those about to be scheduled included. */
  ghost predicate GroupAgrees(d: Dag, s: State)
    requires Sized(d, s)
  {
    Overdraft(d, s) == 0
  }

  ghost predicate FrameAgrees(progress: seq<nat>, log: seq<Event>, f: Frame) {
    match f
    case Working(n) => n < |progress| && progress[n] == 0
    case Notifying(n, k, _) => n < |progress| && progress[n] == k && Finish(n) in log
    case AddingToGroup(n, k, _) => n < |progress| && progress[n] == k + 1 && Finish(n) in log
    case Scheduling(n, k, _) => n < |progress| && progress[n] == k + 1 && Finish(n) in log
    case _ => true
  }

  ghost predicate FramesAgree(s: State) {
    forall i :: 0 <= i < |s.strands| ==> FrameAgrees(s.progress, s.log, s.strands[i])
  }

  ghost predicate ProgressAgrees(d: Dag, s: State)
    requires Sized(d, s)
  {
    && (forall n: nat :: n < |d.nodes| && s.progress[n] > 0 ==> Start(n) in s.log && Finish(n) in s.log)
    && (forall n: nat :: n < |d.nodes| && Drained(n) in s.log ==> s.progress[n] == |d.nodes[n].outs|)
  }

  /** A node other than the root starts only after the work of all its predecessors has returned. */
  ghost predicate Ordered(d: Dag, log: seq<Event>) {
    forall j, p: nat, n: nat ::
      0 <= j < |log| && log[j] == Start(n) && n != ROOT && IsEdge(d.Successors(), p, n) ==> Finish(p) in log[..j]
  }

  ghost predicate Inv(d: Dag, s: State) {
    && Sized(d, s)
    && Claimed(d, s)
    && !Fed(d, s, ROOT)
    && Accounted(d, s)
    && CountersAgree(d, s)
    && GroupAgrees(d, s)
    && FramesAgree(s)
    && ProgressAgrees(d, s)
    && Ordered(d, s.log)
  }

  /** The root has been made ready a second time: the only way a run can go wrong. */
  ghost predicate RootAgain(d: Dag, s: State) {
    Sized(d, s) && Fed(d, s, ROOT)
  }

  lemma InitInv(d: Dag)
    requires WellBuilt(d)
    ensures Inv(d, Init(d))
  {
    var s := Init(d);
    forall n, k | 0 <= n < |d.nodes| && 0 <= k < |d.nodes[n].outs| ensures d.nodes[n].outs[k] < |d.nodes| {
      assert d.Successors()[n] == d.nodes[n].outs;
    }
    forall n: nat ensures Notified(d.Successors(), s.progress, n) == 0 {
      NothingNotified(d.Successors(), s.progress, n, |d.nodes|);
    }
    assert s.strands == [] + [Invoke(ROOT)];
    forall t: Token ensures Held(d, s.strands, t) == FrameHolds(d, Invoke(ROOT), t) {
      HeldAppend(d, [], Invoke(ROOT), t);
    }
  }

  // ---------------------------------------------------------------- bookkeeping of one step

  ghost predicate Notifies(d: Dag, s: State, i: nat)
    requires Fits(d, s) && i < |s.strands|
  {
    s.strands[i].Notifying? && s.strands[i].pos < |d.nodes[s.strands[i].node].outs|
  }

  ghost function Target(d: Dag, s: State, i: nat): nat
    requires Fits(d, s) && i < |s.strands| && Notifies(d, s, i)
  {
    d.nodes[s.strands[i].node].outs[s.strands[i].pos]
  }

  ghost predicate MakesReady(d: Dag, s: State, i: nat, n: nat)
    requires Fits(d, s) && i < |s.strands|
  {
    Notifies(d, s, i) && n == Target(d, s, i) && Notify(d, s.counters, n).1
  }

  lemma StepFits(d: Dag, s: State, i: nat)
    requires Fits(d, s) && Enabled(s, i)
    ensures Fits(d, Step(d, s, i))
  {
  }

  /** The frame a step leaves its strand in. */
  ghost function NextFrame(d: Dag, s: State, i: nat): Frame
    requires Fits(d, s) && i < |s.strands|
  {
    match s.strands[i]
    case Invoke(n) => Working(n)
    case Working(n) => Notifying(n, 0, None)
    case Notifying(n, k, t) =>
      if k == |d.nodes[n].outs| then (if t.Some? then Invoke(t.value) else ChainDone)
      else if !Notify(d, s.counters, d.nodes[n].outs[k]).1 then Notifying(n, k + 1, t)
      else if t.Some? then AddingToGroup(n, k, t.value)
      else Notifying(n, k + 1, Some(d.nodes[n].outs[k]))
    case AddingToGroup(n, k, t) => Scheduling(n, k, t)
    case Scheduling(n, k, t) => Notifying(n, k + 1, Some(d.nodes[n].outs[k]))
    case ChainDone => Finished
    case Finished => Finished
  }

  /** The tokens a step creates or destroys: its own frame, and the strand it spawns. */
  ghost function Gain(d: Dag, s: State, i: nat, t: Token): int
    requires Fits(d, s) && i < |s.strands|
  {
    FrameHolds(d, NextFrame(d, s, i), t) - FrameHolds(d, s.strands[i], t)
    + if s.strands[i].Scheduling? then FrameHolds(d, Invoke(s.strands[i].ready), t) else 0
  }

  lemma StepHeld(d: Dag, s: State, i: nat, t: Token)
    requires Fits(d, s) && Enabled(s, i)
    ensures Fits(d, Step(d, s, i))
    ensures Held(d, Step(d, s, i).strands, t) == Held(d, s.strands, t) + Gain(d, s, i, t)
  {
    StepFits(d, s, i);
    var moved := s.strands[i := NextFrame(d, s, i)];
    HeldUpdate(d, s.strands, i, NextFrame(d, s, i), t);
    if s.strands[i].Scheduling? {
      HeldAppend(d, moved, Invoke(s.strands[i].ready), t);
    } else {
      assert Step(d, s, i).strands == moved;
    }
  }

  ghost function Logs(d: Dag, s: State, i: nat): Option<Event>
    requires Fits(d, s) && i < |s.strands|
  {
    match s.strands[i]
    case Invoke(n) => Some(Start(n))
    case Working(n) => Some(Finish(n))
    case Notifying(n, k, _) => if k < |d.nodes[n].outs| then None else Some(Drained(n))
    case _ => None
  }

  lemma StepCount(d: Dag, s: State, i: nat, e: Event)
    requires Fits(d, s) && Enabled(s, i)
    ensures Count(Step(d, s, i).log, e) == Count(s.log, e) + One(Logs(d, s, i) == Some(e))
  {
    if Logs(d, s, i).Some? {
      CountAppend(s.log, Logs(d, s, i).value, e);
    }
  }

  lemma GainPending(d: Dag, s: State, i: nat, n: nat)
    requires Fits(d, s) && i < |s.strands|
    ensures Gain(d, s, i, Pending(n)) + One(Logs(d, s, i) == Some(Start(n))) == One(MakesReady(d, s, i, n))
  {
  }

  lemma GainActive(d: Dag, s: State, i: nat, n: nat)
    requires Fits(d, s) && i < |s.strands|
    ensures Gain(d, s, i, Active(n)) == One(Logs(d, s, i) == Some(Start(n))) - One(Logs(d, s, i) == Some(Drained(n)))
  {
  }

  lemma GainInWork(d: Dag, s: State, i: nat, n: nat)
    requires Fits(d, s) && i < |s.strands|
    ensures Gain(d, s, i, InWork(n)) == One(Logs(d, s, i) == Some(Start(n))) - One(Logs(d, s, i) == Some(Finish(n)))
  {
  }

  lemma GainOpen(d: Dag, s: State, i: nat)
    requires Fits(d, s) && i < |s.strands|
    ensures Gain(d, s, i, Open) == One(s.strands[i].AddingToGroup?) - One(s.strands[i].ChainDone?)
  {
  }

  /** No step but a successful notification changes how often a node is claimed. */
  lemma StepClaims(d: Dag, s: State, i: nat, n: nat)
    requires Fits(d, s) && Enabled(s, i)
    ensures Fits(d, Step(d, s, i))
    ensures Claims(d, Step(d, s, i), n) == Claims(d, s, n) + One(MakesReady(d, s, i, n))
  {
    StepHeld(d, s, i, Pending(n));
    StepCount(d, s, i, Start(n));
    GainPending(d, s, i, n);
  }

  lemma StepProcessed(d: Dag, s: State, i: nat, n: nat)
    requires Fits(d, s) && Enabled(s, i)
    ensures Fits(d, Step(d, s, i))
    ensures Unprocessed(d, Step(d, s, i), n) == Unprocessed(d, s, n)
  {
    StepHeld(d, s, i, Active(n));
    StepCount(d, s, i, Start(n));
    StepCount(d, s, i, Drained(n));
    GainActive(d, s, i, n);
  }

  lemma StepReturned(d: Dag, s: State, i: nat, n: nat)
    requires Fits(d, s) && Enabled(s, i)
    ensures Fits(d, Step(d, s, i))
    ensures Unreturned(d, Step(d, s, i), n) == Unreturned(d, s, n)
  {
    StepHeld(d, s, i, InWork(n));
    StepCount(d, s, i, Start(n));
    StepCount(d, s, i, Finish(n));
    GainInWork(d, s, i, n);
  }

  lemma StepGroup(d: Dag, s: State, i: nat)
    requires Fits(d, s) && Enabled(s, i)
    ensures Fits(d, Step(d, s, i))
    ensures Overdraft(d, Step(d, s, i)) == Overdraft(d, s)
  {
    StepHeld(d, s, i, Open);
    GainOpen(d, s, i);
  }

  // ---------------------------------------------------------------- uniqueness

  lemma ClaimedOnce(d: Dag, s: State, n: nat)
    requires Inv(d, s) && n < |d.nodes|
    ensures Claims(d, s, n) <= 1
    ensures Count(s.log, Start(n)) <= 1
    ensures Held(d, s.strands, Active(n)) + Count(s.log, Drained(n)) <= 1
  {
    assert Claims(d, s, n) == One(n == ROOT) + One(Fed(d, s, n));
    assert Unprocessed(d, s, n) == 0;
  }

  /** Two strands never process the same node. */
  lemma ActiveAlone(d: Dag, s: State, i: nat, j: nat, n: nat)
    requires Inv(d, s) && i < |s.strands| && j < |s.strands| && i != j && n < |d.nodes|
    requires FrameHolds(d, s.strands[i], Active(n)) > 0
    ensures FrameHolds(d, s.strands[j], Active(n)) == 0
  {
    ClaimedOnce(d, s, n);
    HeldByTwo(d, s.strands, if i < j then i else j, if i < j then j else i, Active(n));
  }

  lemma ActiveStarted(d: Dag, s: State, i: nat, n: nat)
    requires Inv(d, s) && i < |s.strands| && n < |d.nodes|
    requires FrameHolds(d, s.strands[i], Active(n)) > 0
    ensures Start(n) in s.log && Drained(n) !in s.log
  {
    ClaimedOnce(d, s, n);
    HeldAtLeast(d, s.strands, i, Active(n));
    assert Unprocessed(d, s, n) == 0;
    CountPositive(s.log, Start(n));
    CountPositive(s.log, Drained(n));
  }

  /** A node about to start has not started, and is the root or fed. */
  lemma PendingFresh(d: Dag, s: State, i: nat)
    requires Inv(d, s) && i < |s.strands| && s.strands[i].Invoke?
    ensures Start(s.strands[i].node) !in s.log
    ensures s.strands[i].node == ROOT || Fed(d, s, s.strands[i].node)
  {
    var n := s.strands[i].node;
    HeldAtLeast(d, s.strands, i, Pending(n));
    ClaimedOnce(d, s, n);
    CountPositive(s.log, Start(n));
  }

  // ---------------------------------------------------------------- one notification

  /** The node notified was not fed before, and is fed afterwards exactly when `notify` returns true. */
  lemma NotifyReady(d: Dag, s: State, i: nat)
    requires WellBuilt(d) && Inv(d, s) && i < |s.strands| && Notifies(d, s, i)
    ensures ProgressFits(d.Successors(), StepNotify(d, s, i).progress)
    ensures !Fed(d, s, Target(d, s, i))
    ensures Fed(d, StepNotify(d, s, i), Target(d, s, i)) <==> Notify(d, s.counters, Target(d, s, i)).1
    ensures Notified(d.Successors(), StepNotify(d, s, i).progress, Target(d, s, i))
         == Notified(d.Successors(), s.progress, Target(d, s, i)) + 1
  {
    NotifyCounts(d, s, i);
    var m := Target(d, s, i);
    assert d.nodes[m].counterIndex.Some? ==>
             s.counters[d.nodes[m].counterIndex.value]
             == Indegree(d.Successors(), m) - Notified(d.Successors(), s.progress, m);
  }

  lemma NotifyCounts(d: Dag, s: State, i: nat)
    requires Sized(d, s) && FramesAgree(s) && i < |s.strands| && Notifies(d, s, i)
    ensures ProgressFits(d.Successors(), StepNotify(d, s, i).progress)
    ensures Notified(d.Successors(), s.progress, Target(d, s, i)) < Indegree(d.Successors(), Target(d, s, i))
    ensures Notified(d.Successors(), StepNotify(d, s, i).progress, Target(d, s, i))
         == Notified(d.Successors(), s.progress, Target(d, s, i)) + 1
  {
    assert FrameAgrees(s.progress, s.log, s.strands[i]);
    NotifyNext(d.Successors(), s.progress, s.strands[i].node);
  }

  lemma NotifyOthers(d: Dag, s: State, i: nat, x: nat)
    requires Sized(d, s) && FramesAgree(s) && i < |s.strands| && Notifies(d, s, i) && x != Target(d, s, i)
    ensures ProgressFits(d.Successors(), StepNotify(d, s, i).progress)
    ensures Notified(d.Successors(), StepNotify(d, s, i).progress, x) == Notified(d.Successors(), s.progress, x)
  {
    assert FrameAgrees(s.progress, s.log, s.strands[i]);
    NotifyOne(d.Successors(), s.progress, s.strands[i].node, x, |d.nodes|);
  }

  /** A step feeds a node exactly when it makes it ready. */
  lemma StepFed(d: Dag, s: State, i: nat, n: nat)
    requires WellBuilt(d) && Inv(d, s) && Enabled(s, i)
    ensures Sized(d, Step(d, s, i))
    ensures One(Fed(d, Step(d, s, i), n)) == One(Fed(d, s, n)) + One(MakesReady(d, s, i, n))
  {
    StepFits(d, s, i);
    if Notifies(d, s, i) {
      NotifyReady(d, s, i);
      if n != Target(d, s, i) {
        NotifyOthers(d, s, i, n);
      }
    }
  }

  lemma StepCounters(d: Dag, s: State, i: nat)
    requires WellBuilt(d) && Inv(d, s) && Enabled(s, i)
    ensures Sized(d, Step(d, s, i)) && CountersAgree(d, Step(d, s, i))
  {
    StepFits(d, s, i);
    if Notifies(d, s, i) {
      NotifyReady(d, s, i);
      var s' := Step(d, s, i);
      forall n: nat | n < |d.nodes| && d.nodes[n].counterIndex.Some?
        ensures s'.counters[d.nodes[n].counterIndex.value]
             == Indegree(d.Successors(), n) - Notified(d.Successors(), s'.progress, n)
      {
        if n != Target(d, s, i) {
          NotifyOthers(d, s, i, n);
        }
      }
    }
  }

  // ---------------------------------------------------------------- frames, progress and order

  /** The strand that moves ... */
  lemma OwnFrameAgrees(d: Dag, s: State, i: nat)
    requires Fits(d, s) && Enabled(s, i) && FrameAgrees(s.progress, s.log, s.strands[i])
    requires s.strands[i].Invoke? ==> s.progress[s.strands[i].node] == 0
    ensures var s' := Step(d, s, i); FrameAgrees(s'.progress, s'.log, s'.strands[i])
  {
  }

  /** ... and every other. */
  lemma OtherFrameAgrees(d: Dag, s: State, i: nat, j: nat)
    requires Fits(d, s) && Enabled(s, i) && j < |s.strands| && j != i && FrameAgrees(s.progress, s.log, s.strands[j])
    requires Notifies(d, s, i) ==> FrameHolds(d, s.strands[j], Active(s.strands[i].node)) == 0
    ensures var s' := Step(d, s, i); FrameAgrees(s'.progress, s'.log, s'.strands[j])
  {
  }

  lemma StepFrame(d: Dag, s: State, i: nat, j: nat)
    requires WellBuilt(d) && Inv(d, s) && Enabled(s, i) && j < |s.strands|
    ensures var s' := Step(d, s, i); FrameAgrees(s'.progress, s'.log, s'.strands[j])
  {
    assert FrameAgrees(s.progress, s.log, s.strands[j]) && FrameAgrees(s.progress, s.log, s.strands[i]);
    if j != i {
      if Notifies(d, s, i) {
        ActiveAlone(d, s, i, j, s.strands[i].node);
      }
      OtherFrameAgrees(d, s, i, j);
    } else {
      if s.strands[i].Invoke? {
        PendingFresh(d, s, i);
      }
      OwnFrameAgrees(d, s, i);
    }
  }

  lemma StepFrames(d: Dag, s: State, i: nat)
    requires WellBuilt(d) && Inv(d, s) && Enabled(s, i)
    ensures FramesAgree(Step(d, s, i))
  {
    var s' := Step(d, s, i);
    forall j | 0 <= j < |s'.strands| ensures FrameAgrees(s'.progress, s'.log, s'.strands[j]) {
      if j < |s.strands| {
        StepFrame(d, s, i, j);
      }
    }
  }

  lemma StepProgress(d: Dag, s: State, i: nat)
    requires WellBuilt(d) && Inv(d, s) && Enabled(s, i)
    ensures Sized(d, Step(d, s, i)) && ProgressAgrees(d, Step(d, s, i))
  {
    StepFed(d, s, i, 0);
    assert FrameAgrees(s.progress, s.log, s.strands[i]);
    if s.strands[i].Notifying? {
      ActiveStarted(d, s, i, s.strands[i].node);
    }
  }

  lemma FedMeansFinished(d: Dag, s: State, n: nat, p: nat)
    requires Inv(d, s) && Fed(d, s, n) && IsEdge(d.Successors(), p, n)
    ensures Finish(p) in s.log
  {
    NotifiedBound(d.Successors(), s.progress, n, |d.nodes|);
    assert n !in d.Successors()[p][s.progress[p]..];
    assert s.progress[p] > 0;
  }

  lemma StepOrder(d: Dag, s: State, i: nat)
    requires WellBuilt(d) && Inv(d, s) && Enabled(s, i)
    ensures Ordered(d, Step(d, s, i).log)
  {
    var log := Step(d, s, i).log;
    forall j, p: nat, n: nat
      | 0 <= j < |log| && log[j] == Start(n) && n != ROOT && IsEdge(d.Successors(), p, n)
      ensures Finish(p) in log[..j]
    {
      if j < |s.log| {
        assert log[..j] == s.log[..j];
      } else {
        assert log[..j] == s.log;
        PendingFresh(d, s, i);
        FedMeansFinished(d, s, n, p);
      }
    }
  }

  /** Every step of every strand keeps the invariant, unless it makes the root ready again. */
  lemma StepInv(d: Dag, s: State, i: nat)
    requires WellBuilt(d) && Inv(d, s) && Enabled(s, i)
    ensures Inv(d, Step(d, s, i)) || RootAgain(d, Step(d, s, i))
  {
    var s' := Step(d, s, i);
    StepCounters(d, s, i);
    StepFrames(d, s, i);
    StepProgress(d, s, i);
    StepOrder(d, s, i);
    StepGroup(d, s, i);
    forall n: nat | n < |d.nodes|
      ensures Claims(d, s', n) == One(n == ROOT) + One(Fed(d, s', n))
      ensures Unprocessed(d, s', n) == 0 && Unreturned(d, s', n) == 0
    {
      StepClaims(d, s, i, n);
      StepFed(d, s, i, n);
      StepProcessed(d, s, i, n);
      StepReturned(d, s, i, n);
      assert Claims(d, s, n) == One(n == ROOT) + One(Fed(d, s, n));
      assert Unprocessed(d, s, n) == 0 && Unreturned(d, s, n) == 0;
    }
  }
}
