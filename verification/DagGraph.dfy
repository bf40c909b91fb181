/** Successor lists of a DAG (`Node::outs` in include/marl/dag.hpp) and the counting
    facts that tie in-degrees to notifications. */
module DagGraph {

  type Outs = seq<seq<nat>>

  ghost predicate InRange(outs: Outs) {
    forall p, k :: 0 <= p < |outs| && 0 <= k < |outs[p]| ==> outs[p][k] < |outs|
  }

  /** Number of edges into `n` leaving the first `upto` nodes. Parallel edges count separately. */
  ghost function IndegreeUpTo(outs: Outs, n: nat, upto: nat): nat
    requires upto <= |outs|
  {
    if upto == 0 then 0
    else IndegreeUpTo(outs, n, upto - 1) + multiset(outs[upto - 1])[n]
  }

  ghost function Indegree(outs: Outs, n: nat): nat {
    IndegreeUpTo(outs, n, |outs|)
  }

  ghost predicate IsEdge(outs: Outs, p: nat, n: nat) {
    p < |outs| && n in outs[p]
  }

  /** `progress[p]` is how many successors of `p` have already been notified. */
  ghost predicate ProgressFits(outs: Outs, progress: seq<nat>) {
    |progress| == |outs| && forall p :: 0 <= p < |outs| ==> progress[p] <= |outs[p]|
  }

  /** Number of notifications `n` has received from the first `upto` nodes. */
  ghost function NotifiedUpTo(outs: Outs, progress: seq<nat>, n: nat, upto: nat): nat
    requires ProgressFits(outs, progress) && upto <= |outs|
  {
    if upto == 0 then 0
    else NotifiedUpTo(outs, progress, n, upto - 1) + multiset(outs[upto - 1][..progress[upto - 1]])[n]
  }

  ghost function Notified(outs: Outs, progress: seq<nat>, n: nat): nat
    requires ProgressFits(outs, progress)
  {
    NotifiedUpTo(outs, progress, n, |outs|)
  }

  /** Prefixes hold no more occurrences than the whole, and strictly fewer once an occurrence is cut off. */
  lemma PrefixCount(xs: seq<nat>, k: nat, n: nat)
    requires k <= |xs|
    ensures multiset(xs[..k])[n] + multiset(xs[k..])[n] == multiset(xs)[n]
    ensures n in xs[k..] <==> multiset(xs[..k])[n] < multiset(xs)[n]
  {
    assert xs == xs[..k] + xs[k..];
  }

  lemma {:induction false} NotifiedBound(outs: Outs, progress: seq<nat>, n: nat, upto: nat)
    requires ProgressFits(outs, progress) && upto <= |outs|
    ensures NotifiedUpTo(outs, progress, n, upto) <= IndegreeUpTo(outs, n, upto)
    ensures NotifiedUpTo(outs, progress, n, upto) == IndegreeUpTo(outs, n, upto)
       <==> forall p :: 0 <= p < upto ==> n !in outs[p][progress[p]..]
  {
    if upto == 0 {
    } else {
      NotifiedBound(outs, progress, n, upto - 1);
      PrefixCount(outs[upto - 1], progress[upto - 1], n);
    }
  }

  /** One more notification out of `p` raises exactly the count of the node it targets. */
  lemma {:induction false} NotifyOne(outs: Outs, progress: seq<nat>, p: nat, n: nat, upto: nat)
    requires ProgressFits(outs, progress) && upto <= |outs|
    requires p < |outs| && progress[p] < |outs[p]|
    ensures ProgressFits(outs, progress[p := progress[p] + 1])
    ensures NotifiedUpTo(outs, progress[p := progress[p] + 1], n, upto)
         == NotifiedUpTo(outs, progress, n, upto)
            + if p < upto && outs[p][progress[p]] == n then 1 else 0
  {
    if upto == 0 {
    } else {
      NotifyOne(outs, progress, p, n, upto - 1);
      var k := progress[p];
      assert outs[p][..k + 1] == outs[p][..k] + [outs[p][k]];
    }
  }

  /** The next notification out of `p` goes to a node that is still short of one. */
  lemma NotifyNext(outs: Outs, progress: seq<nat>, p: nat)
    requires ProgressFits(outs, progress) && p < |outs| && progress[p] < |outs[p]|
    ensures var m, progress' := outs[p][progress[p]], progress[p := progress[p] + 1];
            && Notified(outs, progress, m) < Indegree(outs, m)
            && ProgressFits(outs, progress')
            && Notified(outs, progress', m) == Notified(outs, progress, m) + 1
  {
    var m := outs[p][progress[p]];
    assert outs[p][progress[p]..][0] == m;
    NotifiedBound(outs, progress, m, |outs|);
    NotifyOne(outs, progress, p, m, |outs|);
  }

  lemma {:induction false} NothingNotified(outs: Outs, progress: seq<nat>, n: nat, upto: nat)
    requires ProgressFits(outs, progress) && upto <= |outs|
    requires forall p :: 0 <= p < |progress| ==> progress[p] == 0
    ensures NotifiedUpTo(outs, progress, n, upto) == 0
  {
    if upto == 0 {
    } else {
      NothingNotified(outs, progress, n, upto - 1);
    }
  }

  lemma {:induction false} IndegreePositive(outs: Outs, n: nat, upto: nat)
    requires upto <= |outs|
    ensures IndegreeUpTo(outs, n, upto) > 0 <==> exists p: nat :: p < upto && IsEdge(outs, p, n)
  {
    if upto == 0 {
    } else {
      IndegreePositive(outs, n, upto - 1);
      if n in outs[upto - 1] {
        assert IsEdge(outs, upto - 1, n);
      }
    }
  }

  /** How in-degrees react to the two builder updates. */
  lemma {:induction false} IndegreeAddEdge(outs: Outs, parent: nat, child: nat, n: nat, upto: nat)
    requires upto <= |outs| && parent < |outs|
    ensures IndegreeUpTo(outs[parent := outs[parent] + [child]], n, upto)
         == IndegreeUpTo(outs, n, upto) + if parent < upto && child == n then 1 else 0
  {
    if upto == 0 {
    } else {
      IndegreeAddEdge(outs, parent, child, n, upto - 1);
    }
  }

  lemma {:induction false} IndegreeAppend(outs: Outs, n: nat, upto: nat)
    requires upto <= |outs|
    ensures IndegreeUpTo(outs + [[]], n, upto) == IndegreeUpTo(outs, n, upto)
  {
    if upto == 0 {
    } else {
      IndegreeAppend(outs, n, upto - 1);
    }
  }

  lemma {:induction false} IndegreeUnused(outs: Outs, n: nat, upto: nat)
    requires upto <= |outs|
    requires InRange(outs) && n >= |outs|
    ensures IndegreeUpTo(outs, n, upto) == 0
  {
    if upto == 0 {
    } else {
      IndegreeUnused(outs, n, upto - 1);
      assert n !in outs[upto - 1];
    }
  }
}
