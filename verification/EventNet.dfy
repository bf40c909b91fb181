/** `Event::signal` and `Event::any` (include/marl/event.hpp) over a network of events. Events are numbered in
    creation order. */
module EventNet {

  /** Every dependency points from an older event to a newer one. */
  ghost predicate Forward(deps: seq<seq<nat>>) {
    forall i, k :: 0 <= i < |deps| && 0 <= k < |deps[i]| ==> i < deps[i][k] < |deps|
  }

  /** Every event of `t` that was clear before passes its signal on. */
  ghost predicate PassesOn(deps: seq<seq<nat>>, before: set<nat>, t: set<nat>) {
    forall y, k :: y in t && y !in before && y < |deps| && 0 <= k < |deps[y]| ==> deps[y][k] in t
  }

  /** What a signal of event `i` ought to leave signalled: the least extension of `before` that contains `i` and
      in which every newly signalled event has passed its signal on. */
  ghost predicate Spread(deps: seq<seq<nat>>, before: set<nat>, i: nat, after: set<nat>) {
    && before <= after && i in after
    && PassesOn(deps, before, after)
    && (forall t: set<nat> :: before <= t && i in t && PassesOn(deps, before, t) ==> after <= t)
  }

  /** Signalling an event that is already set changes nothing, and nothing else needs to be passed on. */
  lemma SpreadOfSet(deps: seq<seq<nat>>, before: set<nat>, i: nat)
    requires i in before
    ensures Spread(deps, before, i, before)
  {
  }

  /** A chain of events, each a dependent of the one before, none of them signalled before. */
  ghost predicate ClearPath(deps: seq<seq<nat>>, before: set<nat>, path: seq<nat>) {
    && path != []
    && (forall k :: 0 <= k < |path| ==> path[k] < |deps| && path[k] !in before)
    && (forall k :: 0 < k < |path| ==> path[k] in deps[path[k - 1]])
  }

  ghost predicate Reaches(deps: seq<seq<nat>>, before: set<nat>, i: nat, x: nat) {
    exists path :: ClearPath(deps, before, path) && path[0] == i && path[|path| - 1] == x
  }

  lemma {:induction false} PathSignals(deps: seq<seq<nat>>, before: set<nat>, i: nat, after: set<nat>, path: seq<nat>)
    requires Spread(deps, before, i, after) && ClearPath(deps, before, path) && path[0] == i
    ensures path[|path| - 1] in after
  {
    var last := |path| - 1;
    if last == 0 {
    } else {
      PathSignals(deps, before, i, after, path[..last]);
      var outs := deps[path[last - 1]];
      var k :| 0 <= k < |outs| && outs[k] == path[last];
    }
  }

  lemma ReachesNext(deps: seq<seq<nat>>, before: set<nat>, i: nat, y: nat, k: nat)
    requires Forward(deps) && Reaches(deps, before, i, y) && y < |deps| && k < |deps[y]| && deps[y][k] !in before
    ensures Reaches(deps, before, i, deps[y][k])
  {
    var path :| ClearPath(deps, before, path) && path[0] == i && path[|path| - 1] == y;
    assert ClearPath(deps, before, path + [deps[y][k]]);
  }

  /** A signal reaches exactly the events at the end of a chain of clear events that starts at the signalled one. */
  lemma SignalReaches(deps: seq<seq<nat>>, before: set<nat>, i: nat, after: set<nat>, x: nat)
    requires Forward(deps) && i < |deps| && Spread(deps, before, i, after)
    ensures x in after <==> x in before || Reaches(deps, before, i, x)
  {
    if Reaches(deps, before, i, x) {
      var path :| ClearPath(deps, before, path) && path[0] == i && path[|path| - 1] == x;
      PathSignals(deps, before, i, after, path);
    }
    var reached := set y | y in after && (y in before || Reaches(deps, before, i, y));
    assert i !in before ==> ClearPath(deps, before, [i]);
    forall y, k | y in reached && y !in before && y < |deps| && 0 <= k < |deps[y]| ensures deps[y][k] in reached {
      if deps[y][k] !in before {
        ReachesNext(deps, before, i, y, k);
      }
    }
    assert after <= reached;
  }

  /** How often an event is among the sources of an `any`. */
  ghost function Occurs(sources: seq<nat>, s: nat): nat {
    if sources == [] then 0
    else Occurs(sources[..|sources| - 1], s) + if sources[|sources| - 1] == s then 1 else 0
  }

  lemma OccursLast(sources: seq<nat>, x: nat, s: nat)
    ensures Occurs(sources + [x], s) == Occurs(sources, s) + if x == s then 1 else 0
  {
    assert (sources + [x])[..|sources|] == sources;
  }

  ghost function Times(e: nat, n: nat): seq<nat> { seq(n, _ => e) }

  ghost predicate SomeSignalled(sources: seq<nat>, signalled: set<nat>) {
    exists k :: 0 <= k < |sources| && sources[k] in signalled
  }

  class Network {
    var deps: seq<seq<nat>>
    var signalled: set<nat>

    ghost predicate Valid()
      reads this
    {
      Forward(deps) && forall e :: e in signalled ==> e < |deps|
    }

    constructor ()
      ensures Valid() && deps == [] && signalled == {}
    {
      deps, signalled := [], {};
    }

    /** `Event(mode, initial_state)`. */
    method Create(initial: bool) returns (e: nat)
      requires Valid()
      modifies this
      ensures Valid() && e == |old(deps)| && deps == old(deps) + [[]]
      ensures signalled == old(signalled) + if initial then {e} else {}
    {
      e := |deps|;
      deps := deps + [[]];
      if initial {
        signalled := signalled + {e};
      }
    }

    /** `Shared::signal`. `held` are the event mutexes the caller holds: each mutex is taken in strictly
        increasing creation order, so the recursion ends and never meets a mutex it already holds. */
    method Signal(i: nat, ghost held: seq<nat>)
      requires Valid() && i < |deps|
      requires forall k :: 0 <= k < |held| ==> held[k] < i
      modifies this`signalled
      ensures Valid()
      ensures Spread(deps, old(signalled), i, signalled)
      ensures i !in old(signalled) ==> forall k :: 0 <= k < |deps[i]| ==> deps[i][k] in signalled
      decreases |deps| - i
    {
      if i in signalled {
        SpreadOfSet(deps, signalled, i);
        return;
      }
      ghost var before := signalled;
      signalled := signalled + {i};
      for k := 0 to |deps[i]|
        invariant Valid()
        invariant PassedOn(deps, before, i, k, signalled)
      {
        ghost var between := signalled;
        Signal(deps[i][k], held + [i]);
        PassOne(deps, before, i, k, between, signalled);
      }
      PassedOnIsSpread(deps, before, i, signalled);
    }

    /** One turn of the loop in `any`. */
    method Subscribe(s: nat, e: nat)
      requires Valid() && s < e < |deps| && deps[e] == []
      modifies this
      ensures Valid() && deps == old(deps)[s := old(deps)[s] + [e]]
      ensures signalled == old(signalled) + if s in old(signalled) then {e} else {}
    {
      if s in signalled {
        ghost var before := signalled;
        Signal(e, [s]);
        LeafSpread(deps, before, e, signalled);
      }
      deps := deps[s := deps[s] + [e]];
    }

    /** `Event::any`: a new event that each of `sources` passes its signal on to; it starts signalled exactly
        when some source already is. */
    method Any(sources: seq<nat>) returns (e: nat)
      requires Valid() && forall k :: 0 <= k < |sources| ==> sources[k] < |deps|
      modifies this
      ensures Valid() && e == |old(deps)| && |deps| == e + 1 && deps[e] == []
      ensures forall s :: 0 <= s < e ==> deps[s] == old(deps)[s] + Times(e, Occurs(sources, s))
      ensures signalled == old(signalled) + if SomeSignalled(sources, old(signalled)) then {e} else {}
    {
      ghost var before, olddeps := signalled, deps;
      e := Create(false);
      for k := 0 to |sources|
        invariant Valid() && |deps| == e + 1 && deps[e] == []
        invariant forall s :: 0 <= s < e ==> deps[s] == olddeps[s] + Times(e, Occurs(sources[..k], s))
        invariant signalled == before + if SomeSignalled(sources[..k], before) then {e} else {}
      {
        ghost var was := deps;
        Subscribe(sources[k], e);
        assert sources[..k + 1] == sources[..k] + [sources[k]];
        forall s | 0 <= s < e ensures deps[s] == olddeps[s] + Times(e, Occurs(sources[..k + 1], s)) {
          OccursLast(sources[..k], sources[k], s);
          assert was[s] == olddeps[s] + Times(e, Occurs(sources[..k], s));
        }
      }
      assert sources[..|sources|] == sources;
    }
  }

  // ---------------------------------------------------------------- the loop of signal()

  /** Event `i` has passed its signal on to its first `k` dependents, and they in turn to all of theirs. */
  ghost predicate PassedOn(deps: seq<seq<nat>>, before: set<nat>, i: nat, k: nat, now: set<nat>) {
    && i < |deps| && k <= |deps[i]|
    && before <= now && i in now && i !in before
    && (forall j :: 0 <= j < k ==> deps[i][j] in now)
    && PassesOn(deps, before + {i}, now)
    && (forall t: set<nat> :: before <= t && i in t && PassesOn(deps, before, t) ==> now <= t)
  }

  lemma PassOne(deps: seq<seq<nat>>, before: set<nat>, i: nat, k: nat, between: set<nat>, now: set<nat>)
    requires PassedOn(deps, before, i, k, between) && k < |deps[i]|
    requires Spread(deps, between, deps[i][k], now)
    ensures PassedOn(deps, before, i, k + 1, now)
  {
    forall y, l | y in now && y !in before + {i} && y < |deps| && 0 <= l < |deps[y]| ensures deps[y][l] in now {
      if y in between {
        assert deps[y][l] in between;
      }
    }
    forall t: set<nat> | before <= t && i in t && PassesOn(deps, before, t) ensures now <= t {
      assert between <= t && deps[i][k] in t;
      assert PassesOn(deps, between, t);
    }
  }

  lemma PassedOnIsSpread(deps: seq<seq<nat>>, before: set<nat>, i: nat, now: set<nat>)
    requires i < |deps| && PassedOn(deps, before, i, |deps[i]|, now)
    ensures Spread(deps, before, i, now)
  {
    forall y, l | y in now && y !in before && y < |deps| && 0 <= l < |deps[y]| ensures deps[y][l] in now {
      if y != i {
        assert y !in before + {i};
      }
    }
  }

  lemma LeafSpread(deps: seq<seq<nat>>, before: set<nat>, e: nat, after: set<nat>)
    requires e < |deps| && deps[e] == [] && Spread(deps, before, e, after)
    ensures after == before + {e}
  {
    assert PassesOn(deps, before, before + {e});
    assert after <= before + {e};
  }
}
