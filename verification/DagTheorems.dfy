/** Results about whole DAG runs: which nodes execute, in what order, how a run ends, and when the
    root is safe from being invoked twice. */
module DagTheorems {
  import opened Wrappers
  import opened DagGraph
  import opened DagRun
  import opened DagInvariant

  // ---------------------------------------------------------------- which nodes ought to execute

  /** `n` has predecessors and all of them are in `e`. */
  ghost predicate FedBy(outs: Outs, e: set<nat>, n: nat) {
    (exists p: nat :: IsEdge(outs, p, n)) && (forall p: nat :: IsEdge(outs, p, n) ==> p in e)
  }

  ghost predicate Closed(outs: Outs, e: set<nat>) {
    ROOT in e && forall n: nat :: n < |outs| && FedBy(outs, e, n) ==> n in e
  }

  /** The root plus every node that has predecessors, all of which execute - and nothing else. */
  ghost predicate Executable(outs: Outs, e: set<nat>) {
    Closed(outs, e) && forall c: set<nat> :: Closed(outs, c) ==> e <= c
  }

  /** Some closed set of nodes does not feed the root. */
  ghost predicate RootSafe(outs: Outs) {
    exists e: set<nat> :: Closed(outs, e) && !FedBy(outs, e, ROOT)
  }

  ghost predicate Ranked(outs: Outs, rank: seq<nat>) {
    |rank| == |outs| && forall p: nat, n: nat :: IsEdge(outs, p, n) && n < |outs| ==> rank[p] < rank[n]
  }

  /** Acyclic graphs, wherever the root sits in them, are safe. */
  lemma AcyclicIsSafe(outs: Outs, rank: seq<nat>)
    requires |outs| > 0 && InRange(outs) && Ranked(outs, rank)
    ensures RootSafe(outs)
  {
    var e := set n: nat | n < |outs| && (n == ROOT || rank[n] > rank[ROOT]);
    forall n: nat | n < |outs| && FedBy(outs, e, n) ensures n in e && n != ROOT {
      var p: nat :| IsEdge(outs, p, n);
      assert rank[p] < rank[n];
    }
    assert Closed(outs, e) && !FedBy(outs, e, ROOT);
  }

  /** A root nobody depends on, which is all `node` and `then` can build, is safe in any graph. */
  lemma SourceRootIsSafe(outs: Outs)
    requires |outs| > 0 && InRange(outs)
    requires forall p: nat :: !IsEdge(outs, p, ROOT)
    ensures RootSafe(outs)
  {
    var all: seq<nat> := seq(|outs|, i => i);
    var e := set n | n in all;
    forall n: nat | n < |outs| ensures n in e {
      assert all[n] in all;
    }
    assert Closed(outs, e) && !FedBy(outs, e, ROOT);
  }

  // ---------------------------------------------------------------- the invariant along runs

  ghost predicate StartedWithin(s: State, e: set<nat>) {
    forall n: nat :: Start(n) in s.log ==> n in e
  }

  /** Once a join has happened nothing is left to run. */
  ghost predicate Joined(s: State) {
    |s.strands| > 0 && (s.strands[0].Finished? ==> forall i :: 0 <= i < |s.strands| ==> s.strands[i].Finished?)
  }

  lemma StepJoined(d: Dag, s: State, i: nat)
    requires Inv(d, s) && Joined(s) && Enabled(s, i)
    ensures Joined(Step(d, s, i))
  {
    var s' := Step(d, s, i);
    if s'.strands[0].Finished? {
      assert i == 0;
      forall j | 0 < j < |s.strands| ensures s.strands[j].Finished? {
        HeldByTwo(d, s.strands, 0, j, Open);
      }
    }
  }

  lemma FedNodesStarted(d: Dag, s: State, n: nat, p: nat)
    requires Sized(d, s) && ProgressAgrees(d, s) && Fed(d, s, n) && IsEdge(d.Successors(), p, n)
    ensures Start(p) in s.log
  {
    NotifiedBound(d.Successors(), s.progress, n, |d.nodes|);
    assert n !in d.Successors()[p][s.progress[p]..];
    assert s.progress[p] > 0;
  }

  lemma FedIsFedBy(d: Dag, s: State, e: set<nat>, n: nat)
    requires Sized(d, s) && ProgressAgrees(d, s) && StartedWithin(s, e) && Fed(d, s, n)
    ensures FedBy(d.Successors(), e, n)
  {
    IndegreePositive(d.Successors(), n, |d.nodes|);
    forall p: nat | IsEdge(d.Successors(), p, n) ensures p in e {
      FedNodesStarted(d, s, n, p);
    }
  }

  lemma StepWithin(d: Dag, s: State, i: nat, e: set<nat>)
    requires WellBuilt(d) && Inv(d, s) && Enabled(s, i)
    requires Closed(d.Successors(), e) && StartedWithin(s, e)
    ensures StartedWithin(Step(d, s, i), e)
  {
    if s.strands[i].Invoke? {
      PendingFresh(d, s, i);
      if s.strands[i].node != ROOT {
        FedIsFedBy(d, s, e, s.strands[i].node);
      }
    }
  }

  lemma StepSafe(d: Dag, s: State, i: nat, e: set<nat>)
    requires WellBuilt(d) && Inv(d, s) && Enabled(s, i)
    requires Closed(d.Successors(), e) && StartedWithin(s, e) && !FedBy(d.Successors(), e, ROOT)
    ensures Inv(d, Step(d, s, i))
  {
    StepInv(d, s, i);
    StepWithin(d, s, i, e);
    StepProgress(d, s, i);
    if RootAgain(d, Step(d, s, i)) {
      FedIsFedBy(d, Step(d, s, i), e, ROOT);
    }
  }

  /** Under every interleaving, a run whose root is safe keeps the invariant and never starts a node
      outside a closed set. */
  lemma {:induction false} RunInv(d: Dag, schedule: seq<nat>, e: set<nat>)
    requires WellBuilt(d) && Closed(d.Successors(), e) && RootSafe(d.Successors())
    requires Exec(d, schedule).Some?
    ensures Inv(d, Exec(d, schedule).value)
    ensures Joined(Exec(d, schedule).value)
    ensures StartedWithin(Exec(d, schedule).value, e)
  {
    if schedule == [] {
      InitInv(d);
    } else {
      var last := |schedule| - 1;
      var safe :| Closed(d.Successors(), safe) && !FedBy(d.Successors(), safe, ROOT);
      RunInv(d, schedule[..last], e);
      RunInv(d, schedule[..last], safe);
      var s := Exec(d, schedule[..last]).value;
      StepSafe(d, s, schedule[last], safe);
      StepWithin(d, s, schedule[last], e);
      StepJoined(d, s, schedule[last]);
    }
  }

  ghost predicate AgainAt(d: Dag, schedule: seq<nat>) {
    Exec(d, schedule).Some? && RootAgain(d, Exec(d, schedule).value)
  }

  /** Somewhere along the run the root was made ready again. */
  ghost predicate AgainWithin(d: Dag, schedule: seq<nat>) {
    exists k :: 0 <= k <= |schedule| && AgainAt(d, schedule[..k])
  }

  /** The same without assuming a safe root, up to the point where the root is made ready again. */
  lemma {:induction false} RunInvUntilRoot(d: Dag, schedule: seq<nat>)
    requires WellBuilt(d) && Exec(d, schedule).Some? && !AgainWithin(d, schedule)
    ensures Inv(d, Exec(d, schedule).value)
  {
    if schedule == [] {
      InitInv(d);
    } else {
      var before := schedule[..|schedule| - 1];
      PrefixNotAgain(d, schedule);
      RunInvUntilRoot(d, before);
      StepInv(d, Exec(d, before).value, schedule[|schedule| - 1]);
    }
  }

  lemma PrefixNotAgain(d: Dag, schedule: seq<nat>)
    requires schedule != [] && !AgainWithin(d, schedule)
    ensures !AgainAt(d, schedule) && !AgainWithin(d, schedule[..|schedule| - 1])
  {
    assert schedule[..|schedule|] == schedule;
    var before := schedule[..|schedule| - 1];
    forall k | 0 <= k <= |before| ensures !AgainAt(d, before[..k]) {
      assert before[..k] == schedule[..k];
    }
  }

  // ---------------------------------------------------------------- the end of a run

  ghost predicate Quiescent(s: State) {
    forall i :: 0 <= i < |s.strands| ==> s.strands[i].Finished?
  }

  ghost function Executed(d: Dag, s: State): set<nat> {
    set n: nat | n < |d.nodes| && Start(n) in s.log
  }

  lemma {:induction false} NothingHeld(d: Dag, strands: seq<Frame>, t: Token)
    requires AllFit(d, strands) && forall i :: 0 <= i < |strands| ==> strands[i].Finished?
    ensures Held(d, strands, t) == 0
  {
    if strands == [] {
    } else {
      NothingHeld(d, strands[..|strands| - 1], t);
    }
  }

  /** At the end, what a node did is decided by whether it was fed. */
  lemma EndCounts(d: Dag, s: State, n: nat)
    requires Inv(d, s) && Quiescent(s) && n < |d.nodes|
    ensures Count(s.log, Start(n)) == One(n == ROOT || Fed(d, s, n))
    ensures Count(s.log, Finish(n)) == Count(s.log, Start(n))
    ensures Count(s.log, Drained(n)) == Count(s.log, Start(n))
    ensures Start(n) in s.log <==> n == ROOT || Fed(d, s, n)
    ensures Start(n) in s.log ==> s.progress[n] == |d.nodes[n].outs|
  {
    NothingHeld(d, s.strands, Pending(n));
    NothingHeld(d, s.strands, Active(n));
    NothingHeld(d, s.strands, InWork(n));
    assert Claims(d, s, n) == One(n == ROOT) + One(Fed(d, s, n));
    assert Unprocessed(d, s, n) == 0 && Unreturned(d, s, n) == 0;
    CountPositive(s.log, Start(n));
    CountPositive(s.log, Drained(n));
  }

  lemma EndFed(d: Dag, s: State, n: nat)
    requires WellBuilt(d) && Inv(d, s) && Quiescent(s) && n < |d.nodes|
    requires FedBy(d.Successors(), Executed(d, s), n)
    ensures Fed(d, s, n)
  {
    var outs := d.Successors();
    IndegreePositive(outs, n, |outs|);
    forall p | 0 <= p < |outs| ensures n !in outs[p][s.progress[p]..] {
      if IsEdge(outs, p, n) {
        EndCounts(d, s, p);
      }
    }
    NotifiedBound(outs, s.progress, n, |outs|);
  }

  lemma EndClosed(d: Dag, s: State)
    requires WellBuilt(d) && Inv(d, s) && Quiescent(s)
    ensures Closed(d.Successors(), Executed(d, s))
    ensures !FedBy(d.Successors(), Executed(d, s), ROOT)
  {
    EndCounts(d, s, ROOT);
    forall n: nat | n < |d.nodes| && FedBy(d.Successors(), Executed(d, s), n)
      ensures n in Executed(d, s) && n != ROOT
    {
      EndFed(d, s, n);
      EndCounts(d, s, n);
    }
  }

  /** What a finished run leaves behind: the executable nodes and no others, each started and returned
      exactly once, none before its predecessors had returned. */
  ghost predicate RanCorrectly(d: Dag, s: State) {
    && Executable(d.Successors(), Executed(d, s))
    && (forall n: nat :: n < |d.nodes| ==> Count(s.log, Start(n)) == One(n in Executed(d, s)))
    && (forall n: nat :: n < |d.nodes| ==> Count(s.log, Finish(n)) == One(n in Executed(d, s)))
    && Ordered(d, s.log)
  }

  /** `DAG::run` returns, through `wg.wait()`, only when every executable node is done. */
  lemma RunReturns(d: Dag, schedule: seq<nat>)
    requires WellBuilt(d) && RootSafe(d.Successors())
    requires Exec(d, schedule).Some? && Exec(d, schedule).value.strands[..1] == [Finished]
    ensures RanCorrectly(d, Exec(d, schedule).value)
    ensures Quiescent(Exec(d, schedule).value)
  {
    var s := Exec(d, schedule).value;
    var outs := d.Successors();
    var safe :| Closed(outs, safe) && !FedBy(outs, safe, ROOT);
    RunInv(d, schedule, safe);
    assert s.strands[0] == s.strands[..1][0];
    EndClosed(d, s);
    forall c: set<nat> | Closed(outs, c) ensures Executed(d, s) <= c {
      RunInv(d, schedule, c);
    }
    forall n: nat | n < |d.nodes|
      ensures Count(s.log, Start(n)) == One(n in Executed(d, s))
      ensures Count(s.log, Finish(n)) == One(n in Executed(d, s))
    {
      EndCounts(d, s, n);
    }
  }

  // ---------------------------------------------------------------- no step underflows, no run gets stuck

  /** A counter is positive whenever it is decremented. */
  lemma CounterPositive(d: Dag, s: State, i: nat)
    requires WellBuilt(d) && Inv(d, s) && i < |s.strands| && Notifies(d, s, i)
    requires d.nodes[Target(d, s, i)].counterIndex.Some?
    ensures s.counters[d.nodes[Target(d, s, i)].counterIndex.value] > 0
  {
    NotifyReady(d, s, i);
    NotifiedBound(d.Successors(), StepNotify(d, s, i).progress, Target(d, s, i), |d.nodes|);
  }

  /** The wait group is positive whenever a strand calls `done()`. */
  lemma GroupPositive(d: Dag, s: State, i: nat)
    requires Inv(d, s) && 0 < i < |s.strands| && s.strands[i].ChainDone?
    ensures s.group > 0
  {
    HeldByTwo(d, s.strands, 0, i, Open);
    HeldAtLeast(d, s.strands, i, Open);
  }

  ghost predicate NoUnderflowIn(d: Dag, s: State, i: nat)
    requires Fits(d, s) && i < |s.strands|
  {
    && (Notifies(d, s, i) && d.nodes[Target(d, s, i)].counterIndex.Some? ==>
          s.counters[d.nodes[Target(d, s, i)].counterIndex.value] > 0)
    && (i > 0 && s.strands[i].ChainDone? ==> s.group > 0)
  }

  /** No step of any run takes a counter or the wait group below zero. */
  lemma NoUnderflow(d: Dag, schedule: seq<nat>, i: nat)
    requires WellBuilt(d) && RootSafe(d.Successors())
    requires Exec(d, schedule).Some? && i < |Exec(d, schedule).value.strands|
    ensures Fits(d, Exec(d, schedule).value)
    ensures NoUnderflowIn(d, Exec(d, schedule).value, i)
  {
    var s := Exec(d, schedule).value;
    var safe :| Closed(d.Successors(), safe) && !FedBy(d.Successors(), safe, ROOT);
    RunInv(d, schedule, safe);
    if Notifies(d, s, i) {
      if d.nodes[Target(d, s, i)].counterIndex.Some? {
        CounterPositive(d, s, i);
      }
    } else if i > 0 && s.strands[i].ChainDone? {
      GroupPositive(d, s, i);
    }
  }

  /** Unless everything has finished, some strand can move. */
  lemma SomeoneMoves(d: Dag, s: State) returns (i: nat)
    requires Inv(d, s) && !Quiescent(s)
    ensures Enabled(s, i)
  {
    i :| i < |s.strands| && !s.strands[i].Finished?;
    if i == 0 && s.strands[0].ChainDone? && s.group > 0 {
      var rest := s.strands[0 := Finished];
      HeldUpdate(d, s.strands, 0, Finished, Open);
      i := HolderOf(d, rest, Open);
    } else if i == 0 && s.strands[0].ChainDone? {
      HeldAtLeast(d, s.strands, 0, Open);
    }
  }

  // ---------------------------------------------------------------- runs are short

  ghost function NodeBudget(d: Dag, s: State, n: nat): int
    requires Fits(d, s) && n < |d.nodes|
  {
    3 * One(Start(n) !in s.log) + 5 * (|d.nodes[n].outs| - s.progress[n])
  }

  ghost function Budget(d: Dag, s: State, upto: nat): int
    requires Fits(d, s) && upto <= |d.nodes|
  {
    if upto == 0 then 0 else Budget(d, s, upto - 1) + NodeBudget(d, s, upto - 1)
  }

  ghost function Potential(d: Dag, s: State): int
    requires Fits(d, s)
  {
    Budget(d, s, |d.nodes|) + Held(d, s.strands, Fuel)
  }

  ghost function EdgeCount(d: Dag, upto: nat): nat
    requires upto <= |d.nodes|
  {
    if upto == 0 then 0 else EdgeCount(d, upto - 1) + |d.nodes[upto - 1].outs|
  }

  lemma {:induction false} BudgetMoves(d: Dag, s: State, s': State, n: nat, upto: nat)
    requires Fits(d, s) && Fits(d, s') && upto <= |d.nodes|
    requires forall x: nat :: x < |d.nodes| && x != n ==> NodeBudget(d, s', x) == NodeBudget(d, s, x)
    ensures Budget(d, s', upto)
         == Budget(d, s, upto) + if n < upto then NodeBudget(d, s', n) - NodeBudget(d, s, n) else 0
  {
    if upto == 0 {
    } else {
      BudgetMoves(d, s, s', n, upto - 1);
    }
  }

  lemma {:induction false} BudgetNonNegative(d: Dag, s: State, upto: nat)
    requires Sized(d, s) && upto <= |d.nodes|
    ensures Budget(d, s, upto) >= 0
  {
    if upto == 0 {
    } else {
      BudgetNonNegative(d, s, upto - 1);
      assert s.progress[upto - 1] <= |d.Successors()[upto - 1]|;
    }
  }

  lemma {:induction false} BudgetAtStart(d: Dag, upto: nat)
    requires Fits(d, Init(d)) && upto <= |d.nodes|
    ensures Budget(d, Init(d), upto) == 3 * upto + 5 * EdgeCount(d, upto)
  {
    if upto == 0 {
    } else {
      BudgetAtStart(d, upto - 1);
    }
  }

  lemma StepNodeBudget(d: Dag, s: State, i: nat, n: nat)
    requires WellBuilt(d) && Inv(d, s) && Enabled(s, i) && n < |d.nodes|
    ensures Fits(d, Step(d, s, i))
    ensures NodeBudget(d, Step(d, s, i), n) - NodeBudget(d, s, n)
         == - 3 * One(s.strands[i] == Invoke(n)) - 5 * One(Notifies(d, s, i) && s.strands[i].node == n)
  {
    StepFits(d, s, i);
    if s.strands[i].Invoke? {
      PendingFresh(d, s, i);
    }
  }

  lemma StepBudget(d: Dag, s: State, i: nat)
    requires WellBuilt(d) && Inv(d, s) && Enabled(s, i)
    ensures Fits(d, Step(d, s, i))
    ensures Budget(d, Step(d, s, i), |d.nodes|)
         == Budget(d, s, |d.nodes|) - 3 * One(s.strands[i].Invoke?) - 5 * One(Notifies(d, s, i))
  {
    StepFits(d, s, i);
    var n := if s.strands[i].ChainDone? then 0 else s.strands[i].node;
    var s' := Step(d, s, i);
    forall x: nat | x < |d.nodes| && x != n ensures NodeBudget(d, s', x) == NodeBudget(d, s, x) {
      StepNodeBudget(d, s, i, x);
    }
    StepNodeBudget(d, s, i, n);
    BudgetMoves(d, s, s', n, |d.nodes|);
  }

  lemma GainFuel(d: Dag, s: State, i: nat)
    requires Fits(d, s) && Enabled(s, i)
    ensures Gain(d, s, i, Fuel) < 3 * One(s.strands[i].Invoke?) + 5 * One(Notifies(d, s, i))
  {
  }

  lemma StepSpends(d: Dag, s: State, i: nat)
    requires WellBuilt(d) && Inv(d, s) && Enabled(s, i)
    ensures Fits(d, Step(d, s, i))
    ensures Potential(d, Step(d, s, i)) < Potential(d, s)
  {
    StepHeld(d, s, i, Fuel);
    GainFuel(d, s, i);
    StepBudget(d, s, i);
  }

  /** Every run, whatever the interleaving, ends within a bound given by nodes and edges. */
  lemma RunIsShort(d: Dag, schedule: seq<nat>)
    requires WellBuilt(d) && RootSafe(d.Successors()) && Exec(d, schedule).Some?
    ensures |schedule| <= 3 * |d.nodes| + 5 * EdgeCount(d, |d.nodes|) + 2
  {
    var safe :| Closed(d.Successors(), safe) && !FedBy(d.Successors(), safe, ROOT);
    RunInv(d, schedule, safe);
    RunSpends(d, schedule);
    BudgetNonNegative(d, Exec(d, schedule).value, |d.nodes|);
  }

  lemma {:induction false} RunSpends(d: Dag, schedule: seq<nat>)
    requires WellBuilt(d) && RootSafe(d.Successors()) && Exec(d, schedule).Some?
    ensures Fits(d, Exec(d, schedule).value)
    ensures Potential(d, Exec(d, schedule).value) + |schedule| <= 3 * |d.nodes| + 5 * EdgeCount(d, |d.nodes|) + 2
  {
    if schedule == [] {
      InitInv(d);
      BudgetAtStart(d, |d.nodes|);
      HeldAppend(d, [], Invoke(ROOT), Fuel);
      assert [] + [Invoke(ROOT)] == Init(d).strands;
    } else {
      var last := |schedule| - 1;
      var safe :| Closed(d.Successors(), safe) && !FedBy(d.Successors(), safe, ROOT);
      RunInv(d, schedule[..last], safe);
      RunSpends(d, schedule[..last]);
      StepSpends(d, Exec(d, schedule[..last]).value, schedule[last]);
    }
  }

  // ---------------------------------------------------------------- running to the end

  lemma PotentialNonNegative(d: Dag, s: State)
    requires Sized(d, s)
    ensures Potential(d, s) >= 0
  {
    BudgetNonNegative(d, s, |d.nodes|);
  }

  /** One more step of a run, and how it gets closer to the end. */
  lemma RunOn(d: Dag, schedule: seq<nat>, s: State, i: nat, safe: set<nat>)
    requires WellBuilt(d) && Closed(d.Successors(), safe) && !FedBy(d.Successors(), safe, ROOT)
    requires Exec(d, schedule) == Some(s) && Inv(d, s) && Enabled(s, i)
    ensures Exec(d, schedule + [i]) == Some(Step(d, s, i))
    ensures Inv(d, Step(d, s, i)) && Joined(Step(d, s, i))
    ensures 0 <= Potential(d, s) && Potential(d, Step(d, s, i)) < Potential(d, s)
  {
    assert (schedule + [i])[..|schedule|] == schedule;
    RunInv(d, schedule + [i], safe);
    StepSpends(d, s, i);
    PotentialNonNegative(d, s);
  }

  /** `DAG::run` with an arbitrary scheduler underneath: it always returns, and correctly. */
  method Run(d: Dag) returns (s: State, ghost schedule: seq<nat>)
    requires WellBuilt(d) && RootSafe(d.Successors())
    ensures Exec(d, schedule) == Some(s)
    ensures s.strands[..1] == [Finished]
    ensures RanCorrectly(d, s)
  {
    ghost var safe :| Closed(d.Successors(), safe) && !FedBy(d.Successors(), safe, ROOT);
    s, schedule := Init(d), [];
    RunInv(d, [], safe);
    while !s.strands[0].Finished?
      invariant Exec(d, schedule) == Some(s)
      invariant Inv(d, s) && Joined(s)
      decreases Potential(d, s)
    {
      ghost var mover := SomeoneMoves(d, s);
      var i: nat :| i < |s.strands| && Enabled(s, i);
      RunOn(d, schedule, s, i, safe);
      s, schedule := Step(d, s, i), schedule + [i];
    }
    RunReturns(d, schedule);
  }

  // ---------------------------------------------------------------- when the root is not safe

  /** If every closed set feeds the root, no run ends without having made the root ready again. */
  lemma UnsafeRootRunsAgain(d: Dag, schedule: seq<nat>)
    requires WellBuilt(d) && !RootSafe(d.Successors())
    requires Exec(d, schedule).Some? && Quiescent(Exec(d, schedule).value)
    ensures AgainWithin(d, schedule)
  {
    if !AgainWithin(d, schedule) {
      RunInvUntilRoot(d, schedule);
      EndClosed(d, Exec(d, schedule).value);
    }
  }

  /** Some run reaches its end, or a second readiness of the root. */
  lemma FollowToEnd(d: Dag, schedule: seq<nat>) returns (full: seq<nat>)
    requires WellBuilt(d) && Exec(d, schedule).Some? && Inv(d, Exec(d, schedule).value)
    ensures Exec(d, full).Some?
    ensures RootAgain(d, Exec(d, full).value) || (Inv(d, Exec(d, full).value) && Quiescent(Exec(d, full).value))
    decreases Potential(d, Exec(d, schedule).value)
  {
    var s := Exec(d, schedule).value;
    full := schedule;
    if !Quiescent(s) {
      var i := SomeoneMoves(d, s);
      full := schedule + [i];
      assert full[..|schedule|] == schedule;
      StepInv(d, s, i);
      StepSpends(d, s, i);
      PotentialNonNegative(d, s);
      if !RootAgain(d, Step(d, s, i)) {
        full := FollowToEnd(d, full);
      }
    }
  }

  /** The exact condition: the root is claimed once in every run precisely when the graph is root-safe. */
  lemma RootOnceIffSafe(d: Dag)
    requires WellBuilt(d)
    ensures RootSafe(d.Successors())
       <==> forall schedule: seq<nat> :: Exec(d, schedule).Some? ==> !RootAgain(d, Exec(d, schedule).value)
  {
    if RootSafe(d.Successors()) {
      var safe :| Closed(d.Successors(), safe) && !FedBy(d.Successors(), safe, ROOT);
      forall schedule: seq<nat> | Exec(d, schedule).Some? ensures !RootAgain(d, Exec(d, schedule).value) {
        RunInv(d, schedule, safe);
      }
    } else {
      InitInv(d);
      var full := FollowToEnd(d, []);
      if !RootAgain(d, Exec(d, full).value) {
        EndClosed(d, Exec(d, full).value);
      }
    }
  }

  /** Concretely: with one edge from the root to itself, some run makes the root ready again. */
  lemma SelfLoopRunsRootAgain()
    ensures var d := Dag([Node(None, [ROOT])], []);
            && WellBuilt(d)
            && exists schedule: seq<nat> :: Exec(d, schedule).Some? && RootAgain(d, Exec(d, schedule).value)
  {
    var d := Dag([Node(None, [ROOT])], []);
    var outs := d.Successors();
    assert outs == [[ROOT]];
    assert Indegree(outs, ROOT) == 1 by {
      assert IndegreeUpTo(outs, ROOT, 0) == 0;
    }
    forall e: set<nat> | Closed(outs, e) ensures FedBy(outs, e, ROOT) {
      assert IsEdge(outs, ROOT, ROOT);
    }
    RootOnceIffSafe(d);
  }

  // ---------------------------------------------------------------- dropping counters changes nothing

  ghost predicate SameView(s: State, t: State) {
    s.strands == t.strands && s.group == t.group && s.log == t.log && s.progress == t.progress
  }

  /** The two runs, as far as `schedule` goes, are possible or not together and look the same. */
  ghost predicate SameSoFar(lean: Dag, full: Dag, schedule: seq<nat>) {
    && (Exec(lean, schedule).Some? <==> Exec(full, schedule).Some?)
    && (Exec(lean, schedule).Some? ==> SameView(Exec(lean, schedule).value, Exec(full, schedule).value))
  }

  /** Two DAGs over the same graph that differ only in which nodes have counters: a node with one
      predecessor may or may not have one. Every schedule drives them through the same run. */
  lemma {:induction false} CountersInvisible(lean: Dag, full: Dag, schedule: seq<nat>)
    requires WellBuilt(lean) && WellBuilt(full) && lean.Successors() == full.Successors()
    requires RootSafe(lean.Successors())
    ensures SameSoFar(lean, full, schedule)
  {
    if schedule == [] {
    } else {
      CountersInvisible(lean, full, schedule[..|schedule| - 1]);
      SameRunOn(lean, full, schedule);
    }
  }

  lemma SameRunOn(lean: Dag, full: Dag, schedule: seq<nat>)
    requires WellBuilt(lean) && WellBuilt(full) && lean.Successors() == full.Successors()
    requires RootSafe(lean.Successors())
    requires schedule != [] && SameSoFar(lean, full, schedule[..|schedule| - 1])
    ensures SameSoFar(lean, full, schedule)
  {
    var before, i := schedule[..|schedule| - 1], schedule[|schedule| - 1];
    if Exec(lean, before).Some? {
      SameMove(lean, full, before, i);
    }
  }

  lemma SameMove(lean: Dag, full: Dag, schedule: seq<nat>, i: nat)
    requires WellBuilt(lean) && WellBuilt(full) && lean.Successors() == full.Successors()
    requires RootSafe(lean.Successors()) && SameSoFar(lean, full, schedule) && Exec(lean, schedule).Some?
    ensures var s, t := Exec(lean, schedule).value, Exec(full, schedule).value;
            && Fits(lean, s) && Fits(full, t)
            && (Enabled(s, i) <==> Enabled(t, i))
            && (Enabled(s, i) ==> SameView(Step(lean, s, i), Step(full, t, i)))
  {
    var safe :| Closed(lean.Successors(), safe) && !FedBy(lean.Successors(), safe, ROOT);
    RunInv(lean, schedule, safe);
    RunInv(full, schedule, safe);
    var s, t := Exec(lean, schedule).value, Exec(full, schedule).value;
    if Enabled(s, i) {
      SameStep(lean, full, s, t, i);
    }
  }

  lemma SameStep(lean: Dag, full: Dag, s: State, t: State, i: nat)
    requires WellBuilt(lean) && WellBuilt(full) && lean.Successors() == full.Successors()
    requires Inv(lean, s) && Inv(full, t) && SameView(s, t) && Enabled(s, i)
    ensures SameView(Step(lean, s, i), Step(full, t, i))
  {
    if !s.strands[i].ChainDone? {
      SameOuts(lean, full, s.strands[i].node);
    }
    if Notifies(lean, s, i) {
      SameReadiness(lean, full, s, t, i);
      SameNotify(lean, full, s, t, i);
    } else {
      SameQuietStep(lean, full, s, t, i);
    }
  }

  lemma SameOuts(lean: Dag, full: Dag, n: nat)
    requires lean.Successors() == full.Successors() && n < |lean.nodes|
    ensures n < |full.nodes| && lean.nodes[n].outs == full.nodes[n].outs
  {
    assert lean.Successors()[n] == full.Successors()[n];
  }

  lemma SameNotify(lean: Dag, full: Dag, s: State, t: State, i: nat)
    requires Fits(lean, s) && Fits(full, t) && SameView(s, t) && i < |s.strands|
    requires Notifies(lean, s, i) && lean.nodes[s.strands[i].node].outs == full.nodes[s.strands[i].node].outs
    requires Notify(lean, s.counters, Target(lean, s, i)).1 == Notify(full, t.counters, Target(full, t, i)).1
    ensures SameView(StepNotify(lean, s, i), StepNotify(full, t, i))
  {
  }

  lemma SameQuietStep(lean: Dag, full: Dag, s: State, t: State, i: nat)
    requires Fits(lean, s) && Fits(full, t) && SameView(s, t) && Enabled(s, i) && !Notifies(lean, s, i)
    requires !s.strands[i].ChainDone? ==> lean.nodes[s.strands[i].node].outs == full.nodes[s.strands[i].node].outs
    ensures SameView(Step(lean, s, i), Step(full, t, i))
  {
  }

  lemma SameReadiness(lean: Dag, full: Dag, s: State, t: State, i: nat)
    requires WellBuilt(lean) && WellBuilt(full) && lean.Successors() == full.Successors()
    requires Inv(lean, s) && Inv(full, t) && SameView(s, t)
    requires i < |s.strands| && Notifies(lean, s, i) && Notifies(full, t, i)
    requires Target(lean, s, i) == Target(full, t, i)
    ensures Notify(lean, s.counters, Target(lean, s, i)).1 == Notify(full, t.counters, Target(full, t, i)).1
  {
    ReadyIsLast(lean, s, i);
    ReadyIsLast(full, t, i);
  }

  /** With or without a counter, `notify` answers whether this was the last predecessor. */
  lemma ReadyIsLast(d: Dag, s: State, i: nat)
    requires WellBuilt(d) && Inv(d, s) && i < |s.strands| && Notifies(d, s, i)
    ensures var m := Target(d, s, i);
            Notify(d, s.counters, m).1 <==> Notified(d.Successors(), s.progress, m) + 1 == Indegree(d.Successors(), m)
  {
    NotifyReady(d, s, i);
  }

  /** The DAG with a counter on every node, the root included. */
  ghost function WithAllCounters(d: Dag): Dag {
    Dag(seq(|d.nodes|, i requires 0 <= i < |d.nodes| => Node(Some(i), d.nodes[i].outs)),
        seq(|d.nodes|, i requires 0 <= i < |d.nodes| => Indegree(d.Successors(), i)))
  }

  lemma LeanRunsLikeFull(d: Dag, schedule: seq<nat>)
    requires WellBuilt(d) && RootSafe(d.Successors())
    ensures WellBuilt(WithAllCounters(d))
    ensures SameSoFar(d, WithAllCounters(d), schedule)
  {
    assert d.Successors() == WithAllCounters(d).Successors();
    CountersInvisible(d, WithAllCounters(d), schedule);
  }
}
