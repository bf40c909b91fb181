/** Which ready successors `invoke` schedules and which one it goes on to invoke itself (include/marl/dag.hpp), told
    from the steps of a run. */
module DagInline {
  import opened Wrappers
  import opened DagGraph
  import opened DagRun
  import opened DagInvariant
  import opened DagTheorems

  /** What has been done on behalf of one node: the successors it was the last to notify, the nodes new strands were
      scheduled for, and the node its own strand went on to invoke. */
  datatype Doings = Doings(readied: seq<nat>, spawned: seq<nat>, inlined: seq<nat>)

  const NOTHING := Doings([], [], [])

  function Join(a: Doings, b: Doings): Doings {
    Doings(a.readied + b.readied, a.spawned + b.spawned, a.inlined + b.inlined)
  }

  /** The node a strand works for. */
  predicate WorksFor(f: Frame, n: nat) {
    (f.Working? || f.Notifying? || f.AddingToGroup? || f.Scheduling?) && f.node == n
  }

  /** The step notifies a node that was waiting for this notification only. */
  ghost predicate CompletesOne(d: Dag, s: State, i: nat) {
    Sized(d, s) && i < |s.strands| && Notifies(d, s, i)
    && Notified(d.Successors(), s.progress, Target(d, s, i)) + 1 == Indegree(d.Successors(), Target(d, s, i))
  }

  function NodeOf(f: Frame): seq<nat> { if f.ChainDone? || f.Finished? then [] else [f.node] }

  /** What the step of strand `i` from `s` to `s'` does for node `n`. */
  ghost function Does(d: Dag, s: State, i: nat, s': State, n: nat): Doings {
    if i < |s.strands| <= |s'.strands| && WorksFor(s.strands[i], n) then
      Doings(if CompletesOne(d, s, i) then [Target(d, s, i)] else [],
             if |s'.strands| > |s.strands| then NodeOf(s'.strands[|s.strands|]) else [],
             if s'.strands[i].Invoke? then [s'.strands[i].node] else [])
    else NOTHING
  }

  ghost function After(d: Dag, schedule: seq<nat>): State {
    if Exec(d, schedule).Some? then Exec(d, schedule).value else Init(d)
  }

  ghost function Done(d: Dag, schedule: seq<nat>, n: nat): Doings {
    if schedule == [] then NOTHING
    else
      var before := schedule[..|schedule| - 1];
      Join(Done(d, before, n), Does(d, After(d, before), schedule[|schedule| - 1], After(d, schedule), n))
  }

  // ---------------------------------------------------------------- the invariant

  ghost function Kept(t: Option<nat>): seq<nat> { if t.Some? then [t.value] else [] }

  /** All successors made ready so far have been scheduled but the one or two the strand has in hand. */
  ghost predicate FrameTells(d: Dag, f: Frame, n: nat, w: Doings)
    requires FrameFits(d, f)
  {
    WorksFor(f, n) ==>
      && w.inlined == []
      && match f
         case Notifying(_, _, t) => w.readied == w.spawned + Kept(t) && (t.None? ==> w.readied == [])
         case AddingToGroup(_, k, t) => w.readied == w.spawned + [t, d.nodes[n].outs[k]]
         case Scheduling(_, k, t) => w.readied == w.spawned + [t, d.nodes[n].outs[k]]
         case _ => w == NOTHING
  }

  ghost predicate Settled(w: Doings) {
    w.readied == w.spawned + w.inlined && |w.inlined| == if w.readied == [] then 0 else 1
  }

  ghost predicate Tells(d: Dag, s: State, n: nat, w: Doings)
    requires AllFit(d, s.strands)
  {
    && (Start(n) !in s.log ==> w == NOTHING)
    && (Drained(n) in s.log ==> Settled(w))
    && (forall j :: 0 <= j < |s.strands| ==> FrameTells(d, s.strands[j], n, w))
  }

  lemma JoinNothing(w: Doings)
    ensures Join(w, NOTHING) == w
  {
  }

  /** What a step for another node leaves alone. */
  lemma ElsewhereStep(d: Dag, s: State, i: nat, n: nat)
    requires Fits(d, s) && Enabled(s, i) && !WorksFor(s.strands[i], n) && s.strands[i] != Invoke(n)
    ensures var s' := Step(d, s, i);
            && (Start(n) in s'.log <==> Start(n) in s.log) && (Drained(n) in s'.log <==> Drained(n) in s.log)
            && |s.strands| <= |s'.strands|
            && (forall j :: 0 <= j < |s'.strands| ==>
                  !WorksFor(s'.strands[j], n) || (j < |s.strands| && s'.strands[j] == s.strands[j]))
  {
  }

  lemma OtherTells(d: Dag, s: State, i: nat, n: nat, w: Doings)
    requires Fits(d, s) && Enabled(s, i) && Tells(d, s, n, w)
    requires !WorksFor(s.strands[i], n) && s.strands[i] != Invoke(n)
    ensures Fits(d, Step(d, s, i)) && Tells(d, Step(d, s, i), n, w)
  {
    StepFits(d, s, i);
    ElsewhereStep(d, s, i, n);
    var s' := Step(d, s, i);
    forall j | 0 <= j < |s'.strands| ensures FrameTells(d, s'.strands[j], n, w) {
      if WorksFor(s'.strands[j], n) {
        assert FrameTells(d, s.strands[j], n, w);
      }
    }
  }

  /** The node starts: so far nothing has been done for it. */
  lemma StartTells(d: Dag, s: State, i: nat, n: nat, w: Doings)
    requires WellBuilt(d) && Inv(d, s) && Enabled(s, i) && Tells(d, s, n, w) && s.strands[i] == Invoke(n)
    ensures Fits(d, Step(d, s, i)) && Tells(d, Step(d, s, i), n, w)
  {
    StepFits(d, s, i);
    PendingFresh(d, s, i);
    ClaimedOnce(d, s, n);
    CountPositive(s.log, Drained(n));
    CountPositive(s.log, Start(n));
    assert Unprocessed(d, s, n) == 0;
    var s' := Step(d, s, i);
    forall j | 0 <= j < |s'.strands| ensures FrameTells(d, s'.strands[j], n, w) {
      assert FrameTells(d, s.strands[j], n, w);
    }
  }

  /** The strand's own frame after each kind of step for its node. */
  lemma NotifyTells(d: Dag, s: State, i: nat, n: nat, w: Doings)
    requires Sized(d, s) && i < |s.strands| && Notifies(d, s, i) && s.strands[i].node == n
    requires CompletesOne(d, s, i) <==> Notify(d, s.counters, Target(d, s, i)).1
    requires FrameTells(d, s.strands[i], n, w)
    ensures var s' := StepNotify(d, s, i);
            FrameFits(d, s'.strands[i]) && WorksFor(s'.strands[i], n)
            && FrameTells(d, s'.strands[i], n, Join(w, Does(d, s, i, s', n)))
  {
    var s' := StepNotify(d, s, i);
    assert Does(d, s, i, s', n) == Doings(if CompletesOne(d, s, i) then [Target(d, s, i)] else [], [], []);
    assert w.spawned + [] == w.spawned && w.inlined + [] == w.inlined && w.readied + [] == w.readied;
  }

  lemma TailTells(d: Dag, s: State, i: nat, n: nat, w: Doings)
    requires Sized(d, s) && i < |s.strands| && s.strands[i].Notifying? && s.strands[i].node == n
    requires !Notifies(d, s, i) && FrameTells(d, s.strands[i], n, w)
    ensures var s' := StepTail(d, s, i);
            !WorksFor(s'.strands[i], n) && Settled(Join(w, Does(d, s, i, s', n)))
  {
    var s' := StepTail(d, s, i);
    assert Does(d, s, i, s', n) == Doings([], [], Kept(s.strands[i].toInvoke));
    assert w.readied + [] == w.readied && w.spawned + [] == w.spawned && w.inlined == [];
  }

  lemma OtherOwnTells(d: Dag, s: State, i: nat, n: nat, w: Doings)
    requires Sized(d, s) && Enabled(s, i) && WorksFor(s.strands[i], n) && !s.strands[i].Notifying?
    requires FrameTells(d, s.strands[i], n, w)
    ensures var s' := Step(d, s, i);
            FrameFits(d, s'.strands[i]) && WorksFor(s'.strands[i], n)
            && FrameTells(d, s'.strands[i], n, Join(w, Does(d, s, i, s', n)))
  {
    var s' := Step(d, s, i);
    var f := s.strands[i];
    assert Does(d, s, i, s', n) == Doings([], if f.Scheduling? then [f.ready] else [], []);
    JoinNothing(w);
  }

  /** What the strand's own frame tells after a step for its node, and what is settled when it leaves the node. */
  lemma OwnFrame(d: Dag, s: State, i: nat, n: nat, w: Doings)
    requires WellBuilt(d) && Inv(d, s) && Enabled(s, i) && WorksFor(s.strands[i], n)
    requires FrameTells(d, s.strands[i], n, w)
    ensures Fits(d, Step(d, s, i))
    ensures var w' := Join(w, Does(d, s, i, Step(d, s, i), n));
            && FrameTells(d, Step(d, s, i).strands[i], n, w')
            && (!WorksFor(Step(d, s, i).strands[i], n) ==> Settled(w'))
  {
    StepFits(d, s, i);
    if !s.strands[i].Notifying? {
      OtherOwnTells(d, s, i, n, w);
    } else if Notifies(d, s, i) {
      ReadyIsLast(d, s, i);
      NotifyTells(d, s, i, n, w);
    } else {
      TailTells(d, s, i, n, w);
    }
  }

  /** A node is entered in the log as drained by the step with which its strand leaves it. */
  lemma DrainedOnLeaving(d: Dag, s: State, i: nat, n: nat)
    requires Fits(d, s) && Enabled(s, i) && WorksFor(s.strands[i], n)
    requires Start(n) in s.log && Drained(n) !in s.log
    ensures Start(n) in Step(d, s, i).log
    ensures Drained(n) in Step(d, s, i).log ==> !WorksFor(Step(d, s, i).strands[i], n)
  {
  }

  /** No other strand works for the node. */
  lemma AloneTells(d: Dag, s: State, i: nat, n: nat, w: Doings, j: nat)
    requires WellBuilt(d) && Inv(d, s) && Enabled(s, i) && WorksFor(s.strands[i], n) && Fits(d, Step(d, s, i))
    requires j < |Step(d, s, i).strands| && j != i
    ensures FrameTells(d, Step(d, s, i).strands[j], n, w)
  {
    if j < |s.strands| {
      ActiveAlone(d, s, i, j, n);
    }
  }

  lemma OwnTells(d: Dag, s: State, i: nat, n: nat, w: Doings)
    requires WellBuilt(d) && Inv(d, s) && Enabled(s, i) && Tells(d, s, n, w) && WorksFor(s.strands[i], n)
    ensures Fits(d, Step(d, s, i)) && Tells(d, Step(d, s, i), n, Join(w, Does(d, s, i, Step(d, s, i), n)))
  {
    OwnFrame(d, s, i, n, w);
    ActiveStarted(d, s, i, n);
    DrainedOnLeaving(d, s, i, n);
    var s' := Step(d, s, i);
    var w' := Join(w, Does(d, s, i, s', n));
    forall j | 0 <= j < |s'.strands| ensures FrameTells(d, s'.strands[j], n, w') {
      if j != i {
        AloneTells(d, s, i, n, w', j);
      }
    }
  }

  lemma StepTells(d: Dag, s: State, i: nat, n: nat, w: Doings)
    requires WellBuilt(d) && Inv(d, s) && Enabled(s, i) && Tells(d, s, n, w)
    ensures Fits(d, Step(d, s, i)) && Tells(d, Step(d, s, i), n, Join(w, Does(d, s, i, Step(d, s, i), n)))
  {
    JoinNothing(w);
    if WorksFor(s.strands[i], n) {
      OwnTells(d, s, i, n, w);
    } else if s.strands[i] == Invoke(n) {
      StartTells(d, s, i, n, w);
    } else {
      OtherTells(d, s, i, n, w);
    }
  }

  lemma {:induction false} RunTells(d: Dag, schedule: seq<nat>, n: nat)
    requires WellBuilt(d) && RootSafe(d.Successors()) && Exec(d, schedule).Some?
    ensures Inv(d, After(d, schedule)) && Tells(d, After(d, schedule), n, Done(d, schedule, n))
  {
    var safe :| Closed(d.Successors(), safe) && !FedBy(d.Successors(), safe, ROOT);
    RunInv(d, schedule, safe);
    if schedule == [] {
    } else {
      var before := schedule[..|schedule| - 1];
      RunTells(d, before, n);
      StepTells(d, After(d, before), schedule[|schedule| - 1], n, Done(d, before, n));
    }
  }

  /** In every run, once a node has been dealt with: of the successors that it was the last to notify, all but the last
      were scheduled, in the order in which they became ready, and the last one was invoked in the same strand. */
  lemma LastReadyRunsInline(d: Dag, schedule: seq<nat>, n: nat)
    requires WellBuilt(d) && RootSafe(d.Successors()) && Exec(d, schedule).Some?
    requires Drained(n) in Exec(d, schedule).value.log
    ensures var w := Done(d, schedule, n);
            if w.readied == [] then w.spawned == [] && w.inlined == []
            else var last := |w.readied| - 1; w.spawned == w.readied[..last] && w.inlined == [w.readied[last]]
  {
    RunTells(d, schedule, n);
  }
}
