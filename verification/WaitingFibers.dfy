/** `Scheduler::WaitingFibers` (src/scheduler.cpp): an ordered set of timeouts and a map, kept in sync. */
module WaitingFibers {
  import opened Wrappers
  import opened WorkerModel

  ghost predicate Sorted(s: seq<Timeout>) {
    forall i, j :: 0 <= i < j < |s| ==> Less(s[i], s[j])
  }

  /** `std::set::emplace` on the set in iteration order. */
  function Insert(s: seq<Timeout>, t: Timeout): seq<Timeout> {
    if s == [] || Less(t, s[0]) then [t] + s
    else if s[0] == t then s
    else [s[0]] + Insert(s[1..], t)
  }

  function Remove(s: seq<Timeout>, t: Timeout): seq<Timeout> {
    if s == [] then [] else if s[0] == t then s[1..] else [s[0]] + Remove(s[1..], t)
  }

  lemma {:induction false} InsertSorted(s: seq<Timeout>, t: Timeout)
    requires Sorted(s)
    ensures Sorted(Insert(s, t))
    ensures forall x :: x in Insert(s, t) <==> x in s || x == t
  {
    if s == [] || Less(t, s[0]) || s[0] == t {
    } else {
      InsertSorted(s[1..], t);
      assert s == [s[0]] + s[1..];
      var rest := Insert(s[1..], t);
      forall j | 0 <= j < |rest| ensures Less(s[0], rest[j]) {
        assert rest[j] in rest;
      }
    }
  }

  lemma {:induction false} RemoveSorted(s: seq<Timeout>, t: Timeout)
    requires Sorted(s)
    ensures Sorted(Remove(s, t))
    ensures forall x :: x in Remove(s, t) <==> x in s && x != t
  {
    if s == [] {
    } else {
      assert s == [s[0]] + s[1..];
      if s[0] != t {
        RemoveSorted(s[1..], t);
        var rest := Remove(s[1..], t);
        forall j | 0 <= j < |rest| ensures Less(s[0], rest[j]) {
          assert rest[j] in rest;
        }
      } else {
        forall x | x in s[1..] ensures x != t {
        }
      }
    }
  }

  /** `f` waits, and no fiber waits ahead of it. */
  ghost predicate IsFirst(waiting: map<nat, int>, f: nat) {
    f in waiting && forall g :: g in waiting && g != f ==> Before(waiting, f, g)
  }

  class WaitingSet {
    var timeouts: seq<Timeout>
    var fibers: map<nat, int>

    /** The set and the map hold the same pairs: the whole refines the map `fibers`. */
    ghost predicate Valid()
      reads this
    {
      && Sorted(timeouts)
      && (forall f :: f in fibers ==> Timeout(fibers[f], f) in timeouts)
      && (forall t :: t in timeouts ==> t.fiber in fibers && fibers[t.fiber] == t.timepoint)
    }

    constructor ()
      ensures Valid() && fibers == map[]
    {
      timeouts, fibers := [], map[];
    }

    lemma FrontIsFirst()
      requires Valid() && timeouts != []
      ensures IsFirst(fibers, timeouts[0].fiber) && fibers[timeouts[0].fiber] == timeouts[0].timepoint
    {
      var front := timeouts[0];
      forall g | g in fibers && g != front.fiber ensures Before(fibers, front.fiber, g) {
        var k :| 0 <= k < |timeouts| && timeouts[k] == Timeout(fibers[g], g);
        assert Less(timeouts[0], timeouts[k]);
      }
    }

    lemma EmptyTogether()
      requires Valid()
      ensures timeouts == [] <==> fibers == map[]
    {
      if timeouts != [] {
        assert timeouts[0] in timeouts;
      }
    }

    method Add(timeout: int, fiber: nat)
      requires Valid() && fiber !in fibers
      modifies this
      ensures Valid() && fibers == old(fibers)[fiber := timeout]
    {
      InsertSorted(timeouts, Timeout(timeout, fiber));
      timeouts := Insert(timeouts, Timeout(timeout, fiber));
      fibers := fibers[fiber := timeout];
    }

    method Erase(fiber: nat)
      requires Valid()
      modifies this
      ensures Valid() && fibers == old(fibers) - {fiber}
    {
      if fiber in fibers {
        var entry := Timeout(fibers[fiber], fiber);
        assert entry in timeouts;   // "WaitingFibers::erase() maps out of sync"
        RemoveSorted(timeouts, entry);
        timeouts := Remove(timeouts, entry);
        fibers := fibers - {fiber};
      }
    }

    method Contains(fiber: nat) returns (r: bool)
      ensures r <==> fiber in fibers
    {
      r := fiber in fibers;
    }

    /** The earliest deadline. */
    method NextTimeout() returns (timepoint: int)
      requires Valid() && fibers != map[]
      ensures exists f :: IsFirst(fibers, f) && fibers[f] == timepoint
      ensures forall g :: g in fibers ==> timepoint <= fibers[g]
    {
      EmptyTogether();
      FrontIsFirst();
      timepoint := timeouts[0].timepoint;
    }

    /** The first fiber whose deadline has passed at `now`, removed from the set. */
    method Take(now: int) returns (taken: Option<nat>)
      requires Valid()
      modifies this
      ensures Valid()
      ensures taken.None? ==> fibers == old(fibers) && forall g :: g in fibers ==> now < fibers[g]
      ensures taken.Some? ==>
                && IsFirst(old(fibers), taken.value)
                && old(fibers)[taken.value] <= now
                && fibers == old(fibers) - {taken.value}
    {
      EmptyTogether();
      if fibers == map[] {
        return None;
      }
      FrontIsFirst();
      if now < timeouts[0].timepoint {
        return None;
      }
      var fiber := timeouts[0].fiber;
      assert timeouts == [timeouts[0]] + timeouts[1..];
      assert fiber in fibers;   // "WaitingFibers::take() maps out of sync"
      forall x | x in timeouts[1..] ensures x != timeouts[0] {
      }
      timeouts := timeouts[1..];
      fibers := fibers - {fiber};
      return Some(fiber);
    }
  }

  // ---------------------------------------------------------------- draining

  ghost function Without(waiting: map<nat, int>, order: seq<nat>): map<nat, int> {
    if order == [] then waiting else Without(waiting, order[..|order| - 1]) - {order[|order| - 1]}
  }

  lemma {:induction false} WithoutIsRest(waiting: map<nat, int>, order: seq<nat>)
    ensures Without(waiting, order) == waiting - (set x | x in order)
  {
    if order == [] {
    } else {
      var last := |order| - 1;
      WithoutIsRest(waiting, order[..last]);
      assert order == order[..last] + [order[last]];
    }
  }

  /** `order` is what repeated `take(now)` yields: each time the first of what is left. */
  ghost predicate TakenOneByOne(waiting: map<nat, int>, now: int, order: seq<nat>) {
    order == [] ||
    var last := |order| - 1;
    && TakenOneByOne(waiting, now, order[..last])
    && IsFirst(Without(waiting, order[..last]), order[last])
    && Without(waiting, order[..last])[order[last]] <= now
  }

  lemma TakeOne(waiting: map<nat, int>, now: int, order: seq<nat>, f: nat)
    requires TakenOneByOne(waiting, now, order)
    requires IsFirst(Without(waiting, order), f) && Without(waiting, order)[f] <= now
    ensures TakenOneByOne(waiting, now, order + [f])
    ensures Without(waiting, order + [f]) == Without(waiting, order) - {f}
  {
    assert (order + [f])[..|order|] == order;
  }

  lemma RemainsNew(waiting: map<nat, int>, order: seq<nat>, f: nat)
    requires f in Without(waiting, order)
    ensures f in waiting && f !in order
  {
    WithoutIsRest(waiting, order);
  }

  lemma Shrinks(m: map<nat, int>, f: nat)
    requires f in m
    ensures |m - {f}| < |m|
  {
    assert (m - {f}).Keys == m.Keys - {f};
  }

  lemma {:induction false} TakenAhead(waiting: map<nat, int>, now: int, order: seq<nat>, i: nat, g: nat)
    requires TakenOneByOne(waiting, now, order) && i < |order|
    ensures order[i] in waiting && waiting[order[i]] <= now
    ensures g in waiting && g !in order ==> Before(waiting, order[i], g)
    ensures forall j :: i < j < |order| ==> Before(waiting, order[i], order[j])
  {
    var last := |order| - 1;
    var rest := Without(waiting, order[..last]);
    WithoutIsRest(waiting, order[..last]);
    assert order == order[..last] + [order[last]];
    if i < last {
      TakenAhead(waiting, now, order[..last], i, g);
      TakenAhead(waiting, now, order[..last], i, order[last]);
    } else if g in waiting && g !in order {
      assert g in rest && Before(rest, order[last], g);
    }
  }

  /** When nothing left has expired, what was taken is exactly the expired fibers, in deadline order. */
  lemma TakenIsExpired(waiting: map<nat, int>, now: int, order: seq<nat>)
    requires TakenOneByOne(waiting, now, order)
    requires forall g :: g in Without(waiting, order) ==> now < Without(waiting, order)[g]
    ensures Expired(waiting, now, order)
  {
    WithoutIsRest(waiting, order);
    forall f ensures f in order <==> f in waiting && waiting[f] <= now {
      if f in order {
        var i :| 0 <= i < |order| && order[i] == f;
        TakenAhead(waiting, now, order, i, f);
      } else if f in waiting {
        assert f in Without(waiting, order);
      }
    }
    forall i, j | 0 <= i < j < |order| ensures Before(waiting, order[i], order[j]) {
      TakenAhead(waiting, now, order, i, 0);
    }
  }

  lemma AppendLast(q: seq<nat>, order: seq<nat>, f: nat)
    ensures (q + order) + [f] == q + (order + [f])
  {
  }

  lemma RequeueStep(states: seq<FiberState>, order: seq<nat>, f: nat)
    requires f < |states|
    ensures Requeue(states, order + [f]) == Requeue(states, order)[f := FiberState.Queued]
    ensures f !in order ==> Requeue(states, order)[f] == states[f]
  {
  }
}
