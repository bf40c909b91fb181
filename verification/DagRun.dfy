/** `DAGBase::invoke`, `notify` and `DAG::run` (include/marl/dag.hpp) as a machine of interleaved strands.

    `invoke` ends in a tail call, so a strand never needs more than one frame. Strand 0 is the
    caller of `run`; every other strand is one scheduled task. A schedule picks, step by step, the
    strand that moves next: every interleaving of the atomic actions is some schedule. */
module DagRun {
  import opened Wrappers
  import opened DagGraph

  datatype Node = Node(counterIndex: Option<nat>, outs: seq<nat>)

  datatype Dag = Dag(nodes: seq<Node>, initialCounters: seq<int>) {
    ghost function Successors(): (outs: Outs)
      ensures |outs| == |nodes|
    {
      seq(|nodes|, i requires 0 <= i < |nodes| => nodes[i].outs)
    }
  }

  const ROOT: nat := 0

  /** What `DAGBuilder::build` promises: a node without a counter has at most one predecessor, and
      counters are private to their node and start at its in-degree. */
  ghost predicate WellBuilt(d: Dag) {
    && |d.nodes| > 0
    && InRange(d.Successors())
    && (forall i :: 0 <= i < |d.nodes| && d.nodes[i].counterIndex.None? ==> Indegree(d.Successors(), i) <= 1)
    && (forall i :: 0 <= i < |d.nodes| && d.nodes[i].counterIndex.Some? ==>
          && d.nodes[i].counterIndex.value < |d.initialCounters|
          && d.initialCounters[d.nodes[i].counterIndex.value] == Indegree(d.Successors(), i))
    && (forall i, j :: 0 <= i < j < |d.nodes| && d.nodes[i].counterIndex.Some? ==>
          d.nodes[i].counterIndex != d.nodes[j].counterIndex)
  }

  // ---------------------------------------------------------------- states

  /** Where a strand stands. `toInvoke` is the local variable of `invoke`. */
  datatype Frame =
    | Invoke(node: nat)                                       // invoke() entered or task queued; work not begun
    | Working(node: nat)                                      // inside the node's work
    | Notifying(node: nat, pos: nat, toInvoke: Option<nat>)   // loop head, `pos` successors notified
    | AddingToGroup(node: nat, pos: nat, ready: nat)          // outs[pos] is ready too; wg->add(1) comes next
    | Scheduling(node: nat, pos: nat, ready: nat)             // wg->add(1) done; schedule() comes next
    | ChainDone                                               // the outermost invoke() has returned
    | Finished                                                // done() executed, or run() has returned

  datatype Event = Start(node: nat) | Finish(node: nat) | Drained(node: nat)

  /** `log` and `progress` are history: they are written, never read, by the steps. */
  datatype State = State(
    strands: seq<Frame>,
    counters: seq<int>,
    group: int,
    log: seq<Event>,
    progress: seq<nat>)

  function Init(d: Dag): State {
    State([Invoke(ROOT)], d.initialCounters, 0, [], seq(|d.nodes|, _ => 0))
  }

  predicate FrameFits(d: Dag, f: Frame) {
    match f
    case Invoke(n) => n < |d.nodes|
    case Working(n) => n < |d.nodes|
    case Notifying(n, k, t) => n < |d.nodes| && k <= |d.nodes[n].outs| && (t.Some? ==> t.value < |d.nodes|)
    case AddingToGroup(n, k, t) => n < |d.nodes| && k < |d.nodes[n].outs| && t < |d.nodes|
    case Scheduling(n, k, t) => n < |d.nodes| && k < |d.nodes[n].outs| && t < |d.nodes|
    case ChainDone => true
    case Finished => true
  }

  /** All indices a step follows are in bounds. */
  predicate Fits(d: Dag, s: State) {
    && |s.progress| == |d.nodes|
    && |s.strands| > 0
    && |s.counters| == |d.initialCounters|
    && (forall i :: 0 <= i < |s.strands| ==> FrameFits(d, s.strands[i]))
    && (forall n :: 0 <= n < |d.nodes| ==>
          && (forall k :: 0 <= k < |d.nodes[n].outs| ==> d.nodes[n].outs[k] < |d.nodes|)
          && (d.nodes[n].counterIndex.Some? ==> d.nodes[n].counterIndex.value < |d.initialCounters|))
  }

  // ---------------------------------------------------------------- steps

  /** Every strand can move, except one that has finished and strand 0 blocked in `wg.wait()`. */
  predicate Enabled(s: State, i: nat) {
    i < |s.strands| && !s.strands[i].Finished? && (i == 0 && s.strands[i].ChainDone? ==> s.group == 0)
  }

  /** `DAGBase::notify`: the decremented counters and whether the node became ready. */
  function Notify(d: Dag, counters: seq<int>, n: nat): (seq<int>, bool)
    requires n < |d.nodes|
    requires d.nodes[n].counterIndex.Some? ==> d.nodes[n].counterIndex.value < |counters|
  {
    match d.nodes[n].counterIndex
    case None => (counters, true)
    case Some(c) => (counters[c := counters[c] - 1], counters[c] - 1 == 0)
  }

  function StepNotify(d: Dag, s: State, i: nat): State
    requires Fits(d, s) && i < |s.strands| && s.strands[i].Notifying?
    requires s.strands[i].pos < |d.nodes[s.strands[i].node].outs|
  {
    var Notifying(n, k, t) := s.strands[i];
    var m := d.nodes[n].outs[k];
    var (counters, ready) := Notify(d, s.counters, m);
    var next := if !ready then Notifying(n, k + 1, t)
                else if t.Some? then AddingToGroup(n, k, t.value)
                else Notifying(n, k + 1, Some(m));
    s.(strands := s.strands[i := next], counters := counters, progress := s.progress[n := s.progress[n] + 1])
  }

  function StepTail(d: Dag, s: State, i: nat): State
    requires i < |s.strands| && s.strands[i].Notifying?
  {
    var Notifying(n, _, t) := s.strands[i];
    s.(strands := s.strands[i := if t.Some? then Invoke(t.value) else ChainDone], log := s.log + [Drained(n)])
  }

  function Step(d: Dag, s: State, i: nat): State
    requires Fits(d, s) && Enabled(s, i)
  {
    match s.strands[i]
    case Invoke(n) => s.(strands := s.strands[i := Working(n)], log := s.log + [Start(n)])
    case Working(n) => s.(strands := s.strands[i := Notifying(n, 0, None)], log := s.log + [Finish(n)])
    case Notifying(n, k, t) => if k < |d.nodes[n].outs| then StepNotify(d, s, i) else StepTail(d, s, i)
    case AddingToGroup(n, k, t) => s.(strands := s.strands[i := Scheduling(n, k, t)], group := s.group + 1)
    case Scheduling(n, k, t) =>
      s.(strands := s.strands[i := Notifying(n, k + 1, Some(d.nodes[n].outs[k]))] + [Invoke(t)])
    case ChainDone =>
      s.(strands := s.strands[i := Finished], group := if i == 0 then s.group else s.group - 1)
  }

  /** The state after following `schedule` from the start of `run`; `None` when it picks a blocked strand. */
  function Exec(d: Dag, schedule: seq<nat>): (r: Option<State>) {
    if schedule == [] then Some(Init(d))
    else
      var last := |schedule| - 1;
      match Exec(d, schedule[..last])
      case None => None
      case Some(s) => if Fits(d, s) && Enabled(s, schedule[last]) then Some(Step(d, s, schedule[last])) else None
  }
}
