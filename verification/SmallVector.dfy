/** `containers::vector` (include/marl/containers.hpp): a vector that lives in an inline buffer until it outgrows it. */
module SmallVector {

  /** A storage slot holds a constructed object or raw bytes. */
  datatype Slot<T> = Raw | Live(value: T)

  // ---------------------------------------------------------------- what growing costs

  /** Element count, capacity, and the number of elements moved by reallocations so far. */
  datatype Cost = Cost(count: nat, capacity: nat, moved: nat)

  /** The capacity `reserve(n)` grows to: twice what is needed, but at least eight. */
  function Grown(n: nat): (r: nat)
    ensures r >= 8 && r >= 2 * n && (r == 8 || r == 2 * n)
  {
    if n * 2 > 8 then n * 2 else 8
  }

  function PushCost(c: Cost): Cost {
    if c.count + 1 > c.capacity then Cost(c.count + 1, Grown(c.count + 1), c.moved + c.count)
    else c.(count := c.count + 1)
  }

  function PushMany(base: nat, m: nat): Cost {
    if m == 0 then Cost(0, base, 0) else PushCost(PushMany(base, m - 1))
  }

  /** `last` is the element count at the latest reallocation. */
  lemma {:induction false} PushTrace(base: nat, m: nat) returns (last: nat)
    requires m > 0
    ensures PushMany(base, m).count == m <= PushMany(base, m).capacity
    ensures last < m && PushMany(base, m).moved <= 2 * last
    ensures PushMany(base, m).moved > 0 ==> PushMany(base, m).capacity >= 2 * last + 2
  {
    last := 0;
    if m == 1 {
    } else {
      last := PushTrace(base, m - 1);
      var before := PushMany(base, m - 1);
      if m > before.capacity {
        last := m - 1;
      }
    }
  }

  /** Appending to a fresh vector is amortised constant: `m` appends move fewer than `2 * m` elements. */
  lemma AppendsAreCheap(base: nat, m: nat)
    requires m > 0
    ensures PushMany(base, m).moved < 2 * m
  {
    var last := PushTrace(base, m);
  }

  // ---------------------------------------------------------------- the vector

  class Vector<T> {
    const buffer: array<Slot<T>>          // buffer_
    var elements: array?<Slot<T>>         // null after free() has given a heap block back
    var onHeap: bool                      // allocation_.ptr != nullptr
    var count: nat
    var capacity: nat
    ghost var liveBlocks: int             // heap blocks allocated and not freed
    ghost var moved: nat

    /** Exactly the slots below `count` are constructed, and at most one heap block is live. A vector has left its
        inline buffer exactly when its capacity exceeds that buffer. */
    ghost predicate Valid()
      reads this, elements, buffer
    {
      && elements != null
      && elements.Length == capacity && count <= capacity
      && (forall i :: 0 <= i < capacity ==> (elements[i].Live? <==> i < count))
      && (if onHeap then elements != buffer && AllRaw(buffer) else elements == buffer)
      && (onHeap <==> capacity > buffer.Length)
      && liveBlocks == if onHeap then 1 else 0
    }

    /** What `free()` leaves behind: nothing constructed, no storage at all where there was a heap block, and `count`
        and `capacity` as they were. */
    ghost predicate Freed()
      reads this, buffer
    {
      && AllRaw(buffer) && count <= capacity && buffer.Length <= capacity
      && elements == (if capacity > buffer.Length then null else buffer)
      && !onHeap && liveBlocks == 0
    }

    ghost predicate AllRaw(a: array<Slot<T>>)
      reads a
    {
      forall i :: 0 <= i < a.Length ==> a[i].Raw?
    }

    ghost function Contents(): seq<T>
      requires Valid()
      reads this, elements, buffer
    {
      seq(count, i requires 0 <= i < count && Valid() reads this, elements, buffer => elements[i].value)
    }

    ghost function CostSoFar(): Cost
      reads this
    {
      Cost(count, capacity, moved)
    }

    constructor (base: nat)
      ensures Valid() && Contents() == [] && CostSoFar() == PushMany(base, 0)
      ensures fresh(elements) && elements == buffer
    {
      buffer := new Slot<T>[base](_ => Raw);
      elements := buffer;
      onHeap, count, capacity := false, 0, base;
      liveBlocks, moved := 0, 0;
    }

    /** `free()` destroys the elements and gives the heap block back. It leaves `count` and `capacity` as they were,
        and no storage at all where there was a heap block. */
    method Free()
      requires elements == null ==> count == 0 && !onHeap
      requires elements != null ==> elements.Length == capacity && count <= capacity
      requires elements != null ==> forall i :: 0 <= i < capacity ==> (elements[i].Live? <==> i < count)
      modifies this`liveBlocks, this`onHeap, this`elements, elements
      ensures old(elements) != null ==> AllRaw(old(elements))
      ensures elements == if old(onHeap) then null else old(elements)
      ensures !onHeap && liveBlocks == old(liveBlocks) - if old(onHeap) then 1 else 0
    {
      for i := 0 to count
        invariant onHeap == old(onHeap) && liveBlocks == old(liveBlocks) && elements == old(elements)
        invariant elements != null ==> forall k :: 0 <= k < capacity ==> (elements[k].Live? <==> i <= k < count)
      {
        elements[i] := Raw;
      }
      if onHeap {
        liveBlocks := liveBlocks - 1;
        onHeap := false;
        elements := null;
      }
    }

    /** The copy loop of `reserve`. It is undefined at the first element that is not there to be moved. */
    method MoveInto(grown: array<Slot<T>>) returns (defined: bool)
      requires elements != null ==> elements.Length == capacity
      requires grown != elements && count <= capacity && count <= grown.Length && AllRaw(grown)
      modifies grown, this`moved
      ensures defined <==> count == 0 || (elements != null && forall k :: 0 <= k < count ==> elements[k].Live?)
      ensures defined ==> forall k :: 0 <= k < grown.Length ==> (grown[k].Live? <==> k < count)
      ensures defined ==> forall k :: 0 <= k < count ==> grown[k] == elements[k]
      ensures defined ==> moved == old(moved) + count
    {
      for i := 0 to count
        invariant moved == old(moved) + i
        invariant i == 0 || elements != null
        invariant forall k :: 0 <= k < grown.Length ==> (grown[k].Live? <==> k < i)
        invariant forall k :: 0 <= k < i ==> elements[k].Live? && grown[k] == elements[k]
      {
        if elements == null || elements[i].Raw? {
          return false;
        }
        grown[i] := Live(elements[i].value);
        moved := moved + 1;
      }
      return true;
    }

    /** `reserve(n)`. On a vector in order: same contents, capacity at least `n`; elements move only when the capacity
        was too small. Right after `free()`: defined exactly when there is no need to grow, or nothing to move. */
    method Reserve(n: nat) returns (defined: bool)
      requires Valid() || Freed()
      modifies this`elements, this`onHeap, this`capacity, this`liveBlocks, this`moved, elements
      ensures old(Valid()) ==> defined && Valid() && Contents() == old(if Valid() then Contents() else [])
      ensures old(Freed()) ==> (defined <==> n <= old(capacity) || count == 0)
      ensures n <= old(capacity) ==> capacity == old(capacity) && moved == old(moved) && elements == old(elements)
      ensures n <= old(capacity) ==> onHeap == old(onHeap) && liveBlocks == old(liveBlocks)
      ensures n <= old(capacity) && old(Freed()) ==> Freed()
      ensures n > old(capacity) && defined ==>
                Valid() && capacity == Grown(n) && moved == old(moved) + count && fresh(elements)
    {
      if n <= capacity {
        return true;
      }
      var larger := if n * 2 > 8 then n * 2 else 8;
      var grown := new Slot<T>[larger](_ => Raw);
      assert Freed() && elements != null && count > 0 ==> elements[0].Raw?;
      defined := MoveInto(grown);
      if defined {
        liveBlocks := liveBlocks + 1;
        Free();
        capacity := larger;
        elements := grown;
        onHeap := true;
      }
    }

    method PushBack(x: T)
      requires Valid()
      modifies this, elements
      ensures Valid()
      ensures Contents() == old(Contents()) + [x]
      ensures CostSoFar() == PushCost(old(CostSoFar()))
      ensures elements == old(elements) || fresh(elements)
    {
      var defined := Reserve(count + 1);
      elements[count] := Live(x);
      count := count + 1;
    }

    method PopBack()
      requires Valid() && count > 0
      modifies this`count, elements
      ensures Valid()
      ensures Contents() == old(Contents())[..old(count) - 1]
      ensures capacity == old(capacity) && elements == old(elements)
    {
      count := count - 1;
      elements[count] := Raw;
    }

    /** The first loop of `resize`. */
    method FillTo(n: nat, default: T)
      requires Valid() && n <= capacity
      modifies this`count, elements
      ensures Valid() && count == if n > old(count) then n else old(count)
      ensures Contents() == old(Contents()) + seq(count - old(count), _ => default)
    {
      ghost var was := Contents();
      while count < n
        invariant Valid() && |was| <= count && (count <= n || count == |was|)
        invariant forall k :: 0 <= k < |was| ==> elements[k].value == was[k]
        invariant forall k :: |was| <= k < count ==> elements[k].value == default
      {
        elements[count] := Live(default);
        count := count + 1;
      }
    }

    /** The second loop of `resize`. */
    method TrimTo(n: nat)
      requires Valid()
      modifies this`count, elements
      ensures Valid() && count == if n < old(count) then n else old(count)
      ensures Contents() == old(Contents())[..count]
    {
      ghost var was := Contents();
      while n < count
        invariant Valid() && count <= |was| && (n <= count || count == |was|)
        invariant forall k :: 0 <= k < count ==> elements[k].value == was[k]
      {
        count := count - 1;
        elements[count] := Raw;
      }
    }

    /** `resize(n)`: cut to `n` elements, or filled up to `n` with default values. */
    method Resize(n: nat, default: T)
      requires Valid()
      modifies this, elements
      ensures Valid() && count == n
      ensures Contents() == if n <= old(count) then old(Contents())[..n]
                            else old(Contents()) + seq(n - old(count), _ => default)
      ensures capacity == if n <= old(capacity) then old(capacity) else Grown(n)
      ensures elements == old(elements) || fresh(elements)
    {
      var defined := Reserve(n);
      FillTo(n, default);
      TrimTo(n);
    }

    /** The copy loop of `operator=`. It is undefined at the first element when there is no storage. */
    method CopyFrom(other: seq<T>) returns (defined: bool)
      requires elements != null ==> |other| <= elements.Length && AllRaw(elements)
      modifies this`count, elements
      ensures count == |other|
      ensures defined <==> elements != null || other == []
      ensures elements != null ==> forall k :: 0 <= k < elements.Length ==> (elements[k].Live? <==> k < count)
      ensures elements != null ==> forall k :: 0 <= k < count ==> elements[k].value == other[k]
    {
      count := |other|;
      for i := 0 to count
        invariant count == |other| && (elements != null || i == 0)
        invariant elements != null ==> forall k :: 0 <= k < elements.Length ==> (elements[k].Live? <==> k < i)
        invariant elements != null ==> forall k :: 0 <= k < i ==> elements[k].value == other[k]
      {
        if elements == null {
          return false;
        }
        elements[i] := Live(other[i]);
      }
      return true;
    }

    /** `operator=` from another vector, with `defined` false once it touches an element or a storage that is gone:
        `free()` runs first and leaves `count` and `capacity` standing, so `reserve` may go on to move what was just
        destroyed, and the copy may go to a block that was just given back. The assignment works exactly when it grows
        an empty vector, or does not grow one that never left its inline buffer. */
    method Assign(other: seq<T>) returns (defined: bool)
      requires Valid()
      modifies this, elements
      ensures defined && Valid()
         <==> if |other| > old(capacity) then old(count) == 0 else old(capacity) == buffer.Length
      ensures defined && Valid() ==> Contents() == other
    {
      Free();
      assert Freed();
      defined := Reserve(|other|);
      if defined {
        assert elements != null ==> AllRaw(elements);
        defined := CopyFrom(other);
      }
    }
  }

  /** Two elements assigned to a vector that holds one in an inline buffer of one. */
  method AssignGoesWrong() returns (v: Vector<int>, defined: bool)
    ensures !(defined && v.Valid())
  {
    v := new Vector<int>(1);
    v.PushBack(7);
    defined := v.Assign([1, 2]);
  }

  /** And one element assigned to an empty vector that has grown before. */
  method AssignLosesStorage() returns (v: Vector<int>, defined: bool)
    ensures !(defined && v.Valid())
  {
    v := new Vector<int>(1);
    v.PushBack(7);
    v.PushBack(8);
    v.PopBack();
    v.PopBack();
    defined := v.Assign([1]);
  }
}
