/** `DAGBuilder` and `DAGNodeBuilder::then` (include/marl/dag.hpp). A `DAGNodeBuilder` handle is the index
    of its node. */
module DagBuilder {
  import opened Wrappers
  import opened DagGraph
  import opened DagRun
  import opened DagTheorems

  /** Every edge goes from a lower to a higher index. */
  ghost predicate Ascending(outs: Outs) {
    forall p: nat, n: nat :: IsEdge(outs, p, n) ==> p < n
  }

  /** Ascending graphs are acyclic, nobody precedes the root, and so every run of them is correct. */
  lemma AscendingIsSafe(outs: Outs)
    requires |outs| > 0 && InRange(outs) && Ascending(outs)
    ensures Ranked(outs, seq(|outs|, i => i))
    ensures RootSafe(outs)
  {
    SourceRootIsSafe(outs);
  }

  /** The builder's two growth steps on the successor lists. */
  ghost function WithNode(outs: Outs): Outs {
    outs + [[]]
  }

  ghost function WithEdge(outs: Outs, parent: nat, child: nat): Outs
    requires parent < |outs|
  {
    outs[parent := outs[parent] + [child]]
  }

  ghost predicate Below(xs: seq<nat>, bound: nat) {
    forall k :: 0 <= k < |xs| ==> xs[k] < bound
  }

  ghost function WithEdges(outs: Outs, parents: seq<nat>, child: nat): (r: Outs)
    requires Below(parents, |outs|)
    ensures |r| == |outs|
  {
    if parents == [] then outs
    else
      var last := |parents| - 1;
      WithEdge(WithEdges(outs, parents[..last], child), parents[last], child)
  }

  lemma WithEdgeAscending(outs: Outs, parent: nat, child: nat)
    requires Ascending(outs) && parent < |outs| && parent < child
    ensures Ascending(WithEdge(outs, parent, child))
  {
    forall p: nat, n: nat | IsEdge(WithEdge(outs, parent, child), p, n) ensures p < n {
      assert IsEdge(outs, p, n) || (p == parent && n == child);
    }
  }

  lemma WithNodeAscending(outs: Outs)
    requires Ascending(outs)
    ensures Ascending(WithNode(outs))
  {
    forall p: nat, n: nat | IsEdge(WithNode(outs), p, n) ensures p < n {
      assert IsEdge(outs, p, n);
    }
  }

  lemma {:induction false} WithEdgesAscending(outs: Outs, parents: seq<nat>, child: nat)
    requires Below(parents, |outs|) && Below(parents, child) && Ascending(outs)
    ensures Ascending(WithEdges(outs, parents, child))
  {
    if parents == [] {
    } else {
      var last := |parents| - 1;
      WithEdgesAscending(outs, parents[..last], child);
      WithEdgeAscending(WithEdges(outs, parents[..last], child), parents[last], child);
    }
  }

  class Builder {
    var nodes: seq<Node>
    var initialCounters: seq<int>
    var numIns: seq<nat>

    ghost function Graph(): (outs: Outs)
      reads this
    {
      Dag(nodes, initialCounters).Successors()
    }

    /** `numIns[i]` is the number of occurrences of `i` over all successor lists, and no node has a counter yet. */
    ghost predicate Valid()
      reads this
    {
      && |nodes| > 0
      && |numIns| == |nodes|
      && initialCounters == []
      && InRange(Graph())
      && (forall i :: 0 <= i < |nodes| ==> nodes[i].counterIndex.None?)
      && (forall i :: 0 <= i < |numIns| ==> numIns[i] == Indegree(Graph(), i))
    }

    constructor ()
      ensures Valid() && Graph() == [[]] && Ascending(Graph())
    {
      nodes := [Node(None, [])];
      numIns := [0];
      initialCounters := [];
      new;
      assert Graph() == [[]];
      assert IndegreeUpTo(Graph(), 0, 0) == 0;
    }

    method AddDependency(parent: nat, child: nat)
      requires Valid() && parent < |nodes| && child < |nodes|
      modifies this
      ensures Valid()
      ensures Graph() == WithEdge(old(Graph()), parent, child)
      ensures Graph()[parent] == old(Graph())[parent] + [child]
      ensures forall p :: 0 <= p < |Graph()| && p != parent ==> Graph()[p] == old(Graph())[p]
    {
      ghost var was := Graph();
      numIns := numIns[child := numIns[child] + 1];
      nodes := nodes[parent := nodes[parent].(outs := nodes[parent].outs + [child])];
      assert Graph() == WithEdge(was, parent, child);
      forall i | 0 <= i < |numIns| ensures numIns[i] == Indegree(Graph(), i) {
        IndegreeAddEdge(was, parent, child, i, |was|);
      }
    }

    /** `node(work, after)`: a fresh node behind every node of `after`. */
    method AddNode(after: seq<nat>) returns (index: nat)
      requires Valid() && Below(after, |nodes|)
      modifies this
      ensures Valid()
      ensures index == old(|nodes|) == |nodes| - 1
      ensures Graph() == WithEdges(WithNode(old(Graph())), after, index)
      ensures old(Ascending(Graph())) ==> Ascending(Graph())
    {
      ghost var was := Graph();
      assert |numIns| == |nodes|;
      index := |nodes|;
      numIns := numIns + [0];
      nodes := nodes + [Node(None, [])];
      ghost var grown := WithNode(was);
      assert Graph() == grown;
      forall i | 0 <= i < |numIns| ensures numIns[i] == Indegree(Graph(), i) {
        IndegreeAppend(was, i, |was|);
        if i == index {
          IndegreeUnused(was, i, |was|);
        }
      }
      for k := 0 to |after|
        invariant Valid() && |nodes| == index + 1
        invariant Graph() == WithEdges(grown, after[..k], index)
      {
        AddDependency(after[k], index);
        assert after[..k + 1][..k] == after[..k];
      }
      assert after[..|after|] == after;
      if Ascending(was) {
        WithNodeAscending(was);
        WithEdgesAscending(grown, after, index);
      }
    }

    /** `DAGNodeBuilder::then`: a fresh node behind this one. */
    method Then(parent: nat) returns (index: nat)
      requires Valid() && parent < |nodes|
      modifies this
      ensures Valid()
      ensures index == old(|nodes|) == |nodes| - 1
      ensures Graph() == WithEdge(WithNode(old(Graph())), parent, index)
      ensures old(Ascending(Graph())) ==> Ascending(Graph())
    {
      ghost var was := Graph();
      index := AddNode([]);
      AddDependency(parent, index);
      if Ascending(was) {
        WithNodeAscending(was);
        WithEdgeAscending(WithNode(was), parent, index);
      }
    }

    /** `build`: counters only where more than one predecessor has to be awaited. */
    method Build() returns (d: Dag)
      requires Valid()
      modifies this
      ensures WellBuilt(d)
      ensures d.Successors() == old(Graph())
      ensures forall i :: 0 <= i < |d.nodes| ==>
                (d.nodes[i].counterIndex.Some? <==> Indegree(d.Successors(), i) > 1)
      ensures old(Ascending(Graph())) ==> RootSafe(d.Successors())
    {
      ghost var was := Graph();
      for i := 0 to |nodes|
        invariant |nodes| == |was| == |numIns| && Graph() == was
        invariant forall k :: 0 <= k < |numIns| ==> numIns[k] == Indegree(was, k)
        invariant forall k :: 0 <= k < i && numIns[k] > 1 ==>
                    && nodes[k].counterIndex.Some?
                    && nodes[k].counterIndex.value < |initialCounters|
                    && initialCounters[nodes[k].counterIndex.value] == numIns[k]
        invariant forall k :: 0 <= k < |nodes| && (k >= i || numIns[k] <= 1) ==> nodes[k].counterIndex.None?
        invariant forall k, l :: 0 <= k < l < i && nodes[k].counterIndex.Some? ==>
                    nodes[k].counterIndex != nodes[l].counterIndex
      {
        if numIns[i] > 1 {
          nodes := nodes[i := nodes[i].(counterIndex := Some(|initialCounters|))];
          initialCounters := initialCounters + [numIns[i]];
          assert Graph() == was;
        }
      }
      d := Dag(nodes, initialCounters);
      if Ascending(was) {
        AscendingIsSafe(was);
      }
    }
  }
}
