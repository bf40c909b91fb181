/** `containers::list` (include/marl/containers.hpp): an intrusive doubly-linked list whose entries come from,
    and return to, a free list built the same way. */
module LinkedList {

  class Entry<T(0)> {
    var data: T
    var next: Entry?<T>
    var prev: Entry?<T>
  }

  ghost function At<T(0)>(chain: seq<Entry<T>>, i: int): Entry?<T> {
    if 0 <= i < |chain| then chain[i] else null
  }

  ghost predicate LinkOk<T(0)>(chain: seq<Entry<T>>, i: nat)
    requires i < |chain|
    reads chain
  {
    chain[i].next == At(chain, i + 1) && chain[i].prev == At(chain, i - 1)
  }

  /** Following `next` from `first` visits exactly `chain`, and `prev` leads back. */
  ghost predicate Linked<T(0)>(first: Entry?<T>, chain: seq<Entry<T>>)
    reads chain
  {
    first == At(chain, 0) && forall i: nat :: i < |chain| ==> LinkOk(chain, i)
  }

  ghost predicate Distinct<T(0)>(chain: seq<Entry<T>>) {
    forall i, j :: 0 <= i < j < |chain| ==> chain[i] != chain[j]
  }

  ghost predicate Apart<T(0)>(a: seq<Entry<T>>, b: seq<Entry<T>>) {
    forall i, j :: 0 <= i < |a| && 0 <= j < |b| ==> a[i] != b[j]
  }

  ghost function Without<T(0)>(chain: seq<Entry<T>>, k: nat): seq<Entry<T>>
    requires k < |chain|
  {
    seq(|chain| - 1, i requires 0 <= i < |chain| - 1 => if i < k then chain[i] else chain[i + 1])
  }

  lemma WithoutDistinct<T(0)>(chain: seq<Entry<T>>, k: nat)
    requires k < |chain| && Distinct(chain)
    ensures Distinct(Without(chain, k)) && chain[k] !in Without(chain, k)
  {
  }

  /** The links of entry `i` after entry `k` was bypassed, by position in the old chain. */
  ghost predicate BypassOk<T(0)>(chain: seq<Entry<T>>, k: nat, i: nat)
    requires i < |chain|
    reads chain
  {
    && chain[i].next == At(chain, if i == k - 1 then k + 1 else i + 1)
    && chain[i].prev == At(chain, if i == k + 1 then k - 1 else i - 1)
  }

  lemma BypassedIsLinked<T(0)>(first: Entry?<T>, chain: seq<Entry<T>>, k: nat)
    requires k < |chain| && first == At(chain, if k == 0 then 1 else 0)
    requires forall i: nat :: i < |chain| && i != k ==> BypassOk(chain, k, i)
    ensures Linked(first, Without(chain, k))
  {
    var rest := Without(chain, k);
    forall i: nat | i < |rest| ensures LinkOk(rest, i) {
      assert BypassOk(chain, k, if i < k then i else i + 1);
    }
  }

  /** `unlink(entry, _list)`; returns the new value of `_list`. */
  method Unlink<T(0)>(entry: Entry<T>, first: Entry?<T>, ghost chain: seq<Entry<T>>, ghost k: nat)
    returns (newFirst: Entry?<T>)
    requires Linked(first, chain) && Distinct(chain) && k < |chain| && chain[k] == entry
    modifies (set e | e in chain)`next, (set e | e in chain)`prev
    ensures Linked(newFirst, Without(chain, k))
    ensures entry.next == null && entry.prev == null
  {
    assert LinkOk(chain, k);
    newFirst := first;
    if first == entry {
      newFirst := first.next;
    }
    if entry.prev != null {
      entry.prev.next := entry.next;
    }
    if entry.next != null {
      entry.next.prev := entry.prev;
    }
    entry.prev := null;
    entry.next := null;
    forall i: nat | i < |chain| && i != k ensures BypassOk(chain, k, i) {
      assert old(LinkOk(chain, i));
    }
    BypassedIsLinked(newFirst, chain, k);
  }

  /** `link(entry, _list)`; returns the new value of `_list`. */
  method Link<T(0)>(entry: Entry<T>, first: Entry?<T>, ghost chain: seq<Entry<T>>)
    returns (newFirst: Entry?<T>)
    requires Linked(first, chain) && Distinct(chain) && entry !in chain
    requires entry.next == null && entry.prev == null
    modifies entry`next, (set e | e in chain)`prev
    ensures newFirst == entry
    ensures Linked(newFirst, [entry] + chain) && Distinct([entry] + chain)
  {
    if first != null {
      entry.next := first;
      first.prev := entry;
    }
    newFirst := entry;
    ghost var longer := [entry] + chain;
    forall i: nat | i < |longer| ensures LinkOk(longer, i) {
      assert i > 0 ==> old(LinkOk(chain, i - 1));
    }
  }

  // ---------------------------------------------------------------- the list

  function PowerOfTwo(n: nat): nat {
    if n == 0 then 1 else 2 * PowerOfTwo(n - 1)
  }

  class List<T(0)> {
    var size: nat
    var capacity: nat
    var free: Entry?<T>
    var head: Entry?<T>
    ghost var used: seq<Entry<T>>      // the entries reached from head
    ghost var spare: seq<Entry<T>>     // the entries reached from free
    ghost var peak: nat                // the largest size so far
    ghost var doublings: nat

    /** `head` and `free` are disjoint acyclic doubly-linked lists that partition all allocated entries. */
    ghost predicate Valid()
      reads this, used, spare
    {
      && Linked(head, used) && Distinct(used)
      && Linked(free, spare) && Distinct(spare)
      && Apart(used, spare)
      && size == |used| && capacity == |used| + |spare|
    }

    /** A non-zero capacity is eight times a power of two and at most twice what the peak needed. */
    ghost predicate Frugal()
      reads this
    {
      && size <= peak
      && (capacity == 0 ==> peak == 0 && doublings == 0)
      && (capacity != 0 ==>
            capacity == 8 * PowerOfTwo(doublings) && (capacity == 8 || capacity <= 2 * (peak - 1)))
    }

    constructor ()
      ensures Valid() && Frugal() && used == [] && spare == []
    {
      size, capacity, free, head := 0, 0, null, null;
      used, spare, peak, doublings := [], [], 0, 0;
    }

    /** One turn of the loop in `grow`: a fresh entry goes to the front of the free list. */
    method GrowByOne()
      requires Valid()
      modifies this`capacity, this`free, this`spare, (set e | e in spare)`prev
      ensures Valid()
      ensures capacity == old(capacity) + 1
      ensures |spare| == |old(spare)| + 1 && spare[1..] == old(spare) && fresh(spare[0])
    {
      var entry := new Entry<T>;
      entry.prev := null;
      entry.next := free;
      if free != null {
        free.prev := entry;
      }
      free := entry;
      ghost var was := spare;
      spare := [entry] + spare;
      capacity := capacity + 1;
      forall i: nat | i < |spare| ensures LinkOk(spare, i) {
        assert i > 0 ==> old(LinkOk(was, i - 1));
      }
      forall i: nat | i < |used| ensures LinkOk(used, i) {
        assert old(LinkOk(used, i));
      }
    }

    /** `grow(count)`: `count` fresh entries in front of the free list. */
    method Grow(count: nat)
      requires Valid()
      modifies this`capacity, this`free, this`spare, (set e | e in spare)`prev
      ensures Valid()
      ensures capacity == old(capacity) + count
      ensures |spare| == |old(spare)| + count && spare[count..] == old(spare)
      ensures forall i :: 0 <= i < count ==> fresh(spare[i])
    {
      for i := 0 to count
        invariant Valid()
        invariant capacity == old(capacity) + i
        invariant |spare| == |old(spare)| + i && spare[i..] == old(spare)
        invariant forall k :: 0 <= k < i ==> fresh(spare[k])
      {
        ghost var was := spare;
        assert forall e :: e in was ==> e in old(spare) || fresh(e) by {
          assert was == was[..i] + was[i..];
        }
        GrowByOne();
        assert spare[1..] == was && spare[i + 1..] == was[i..];
      }
    }

    /** Takes the front of the free list and makes it the front of the list. */
    method MoveToFront() returns (entry: Entry<T>)
      requires Valid() && spare != []
      modifies this`head, this`free, this`size, this`used, this`spare
      modifies (set e | e in used)`prev, (set e | e in spare)`next, (set e | e in spare)`prev
      ensures Valid()
      ensures entry == old(spare)[0] && used == [entry] + old(used) && spare == old(spare)[1..]
    {
      entry := free;
      ghost var taken, kept := Without(spare, 0), used;
      assert taken == spare[1..];
      WithoutDistinct(spare, 0);
      free := Unlink(entry, free, spare, 0);
      forall i: nat | i < |kept| ensures LinkOk(kept, i) {
        assert old(LinkOk(kept, i));
      }
      label unlinked:
      spare := taken;
      head := Link(entry, head, kept);
      used := [entry] + kept;
      size := size + 1;
      forall i: nat | i < |taken| ensures LinkOk(taken, i) {
        assert old@unlinked(LinkOk(taken, i));
      }
    }

    /** Grows when the free list is empty: eight entries first, then as many as there are. */
    method EnsureSpare()
      requires Valid() && Frugal()
      modifies this`capacity, this`free, this`spare, this`doublings, (set e | e in spare)`prev
      ensures Valid() && spare != []
      ensures old(spare) != [] ==> spare == old(spare) && capacity == old(capacity) && doublings == old(doublings)
      ensures old(spare) == [] ==> forall i :: 0 <= i < |spare| ==> fresh(spare[i])
      ensures old(spare) == [] ==> capacity == if old(capacity) == 0 then 8 else 2 * old(capacity)
      ensures capacity == 8 * PowerOfTwo(doublings)
    {
      if free == null {
        if capacity > 0 {
          doublings := doublings + 1;
        }
        Grow(if capacity > 8 then capacity else 8);
      }
    }

    /** `emplace_front(x)`: the new entry comes first, all others keep their place, identity and value. */
    method EmplaceFront(x: T) returns (entry: Entry<T>)
      requires Valid() && Frugal()
      modifies this, used, spare
      ensures Valid() && Frugal()
      ensures used == [entry] + old(used) && entry.data == x
      ensures forall e :: e in old(used) ==> e.data == old(e.data)
      ensures fresh(entry) || entry in old(spare)
      ensures capacity == if old(spare) != [] then old(capacity)
                          else if old(capacity) == 0 then 8 else 2 * old(capacity)
      ensures peak == if size > old(peak) then size else old(peak)
    {
      EnsureSpare();
      entry := MoveToFront();
      label moved:
      entry.data := x;
      if size > peak {
        peak := size;
      }
      forall i: nat | i < |used| ensures LinkOk(used, i) {
        assert old@moved(LinkOk(used, i));
      }
      forall i: nat | i < |spare| ensures LinkOk(spare, i) {
        assert old@moved(LinkOk(spare, i));
      }
    }

    /** Takes the entry at position `k` out of the list and makes it the front of the free list. */
    method MoveToFree(entry: Entry<T>, ghost k: nat)
      requires Valid() && k < |used| && used[k] == entry
      modifies this`head, this`free, this`size, this`used, this`spare
      modifies (set e | e in used)`next, (set e | e in used)`prev, (set e | e in spare)`prev
      ensures Valid()
      ensures used == Without(old(used), k) && spare == [entry] + old(spare)
    {
      ghost var kept, free0 := Without(used, k), spare;
      WithoutDistinct(used, k);
      head := Unlink(entry, head, used, k);
      forall i: nat | i < |free0| ensures LinkOk(free0, i) {
        assert old(LinkOk(free0, i));
      }
      label unlinked:
      used := kept;
      free := Link(entry, free, free0);
      spare := [entry] + free0;
      size := size - 1;
      forall i: nat | i < |kept| ensures LinkOk(kept, i) {
        assert old@unlinked(LinkOk(kept, i));
      }
    }

    /** `erase(it)`: the other entries keep their order, identity and value; the erased one becomes spare. */
    method Erase(entry: Entry<T>) returns (ghost k: nat)
      requires Valid() && Frugal() && entry in used
      modifies this, used, spare
      ensures Valid() && Frugal()
      ensures k < |old(used)| && old(used)[k] == entry
      ensures used == Without(old(used), k) && spare == [entry] + old(spare)
      ensures forall e :: e in used ==> e.data == old(e.data)
      ensures capacity == old(capacity)
    {
      k :| k < |used| && used[k] == entry;
      MoveToFree(entry, k);
    }
  }
}
