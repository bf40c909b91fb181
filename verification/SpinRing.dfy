/** The ring of spinning workers (`spinning_workers_`, `next_spinning_worker_index_`) and the choice of a worker
    in `Scheduler::enqueue` (src/scheduler.cpp), each call taken as atomic. */
module SpinRing {
  const SLOTS: nat := 8
  const WRAP: nat := 0x1_0000_0000              // the index is a 32-bit unsigned integer
  const EMPTY: int := -1

  datatype Ring = Ring(slots: seq<int>, next: nat)

  function Start(): Ring { Ring([EMPTY, EMPTY, EMPTY, EMPTY, EMPTY, EMPTY, EMPTY, EMPTY], 0x8000000) }

  /** `onBeginSpinning(id)`. */
  function Push(r: Ring, id: int): Ring
    requires |r.slots| == SLOTS
  {
    Ring(r.slots[r.next % SLOTS := id], (r.next + 1) % WRAP)
  }

  /** The exchange at the top of `enqueue`'s loop. */
  function Pop(r: Ring): (Ring, int)
    requires |r.slots| == SLOTS
  {
    var next := (r.next + WRAP - 1) % WRAP;
    (Ring(r.slots[next % SLOTS := EMPTY], next), r.slots[next % SLOTS])
  }

  // ---------------------------------------------------------------- the stack behind the ring

  /** The slot `j` steps below the index. */
  function SlotBelow(next: nat, j: nat): nat
    requires j < SLOTS
  {
    (next + SLOTS - 1 - j) % SLOTS
  }

  /** The live slots are the `|stack|` slots just below the index, newest first; all others are empty. */
  ghost predicate Holds(r: Ring, stack: seq<int>) {
    && |r.slots| == SLOTS && r.next < WRAP && |stack| <= SLOTS
    && (forall j :: 0 <= j < |stack| ==> stack[j] >= 0)
    && (forall j :: 0 <= j < |stack| ==> r.slots[SlotBelow(r.next, j)] == stack[j])
    && (forall j :: |stack| <= j < SLOTS ==> r.slots[SlotBelow(r.next, j)] == EMPTY)
  }

  /** A stack of at most eight entries that forgets its oldest. */
  function PushStack(stack: seq<int>, id: int): seq<int> {
    if |stack| < SLOTS then [id] + stack else [id] + stack[..SLOTS - 1]
  }

  function PopStack(stack: seq<int>): (seq<int>, int) {
    if stack == [] then ([], EMPTY) else (stack[1..], stack[0])
  }

  /** Wrapping the 32-bit index does not disturb positions modulo eight. */
  lemma WrapKeepsSlot(x: nat)
    ensures (x % WRAP) % SLOTS == x % SLOTS
  {
    var q := x / WRAP;
    assert x == q * WRAP + x % WRAP;
    assert x == SLOTS * (q * 0x2000_0000) + x % WRAP;
    ModAdd(x % WRAP, q * 0x2000_0000);
  }

  lemma {:induction false} ModAdd(x: int, k: nat)
    ensures (SLOTS * k + x) % SLOTS == x % SLOTS
  {
    if k == 0 {
    } else {
      ModAdd(x, k - 1);
      assert SLOTS * k + x == SLOTS + (SLOTS * (k - 1) + x);
    }
  }

  lemma SameShift(a: nat, b: nat, c: nat)
    requires a % SLOTS == b % SLOTS
    ensures (a + c) % SLOTS == (b + c) % SLOTS
  {
    ModAdd(a % SLOTS + c, a / SLOTS);
    ModAdd(b % SLOTS + c, b / SLOTS);
  }

  /** Moving the index up by one moves every slot one step further below. */
  lemma SlotAfterPush(next: nat, j: nat)
    requires j < SLOTS
    ensures SlotBelow((next + 1) % WRAP, j) == if j == 0 then next % SLOTS else SlotBelow(next, j - 1)
  {
    WrapKeepsSlot(next + 1);
    SameShift((next + 1) % WRAP, next + 1, SLOTS - 1 - j);
    if j == 0 {
      ModAdd(next, 1);
    }
  }

  lemma SlotAfterPop(next: nat, j: nat)
    requires j < SLOTS && next < WRAP
    ensures SlotBelow((next + WRAP - 1) % WRAP, j)
         == if j + 1 < SLOTS then SlotBelow(next, j + 1) else SlotBelow(next, 0)
    ensures ((next + WRAP - 1) % WRAP) % SLOTS == SlotBelow(next, 0)
  {
    WrapKeepsSlot(next + WRAP - 1);
    assert next + WRAP - 1 == SLOTS * 0x1FFF_FFFF + (next + 7);
    ModAdd(next + 7, 0x1FFF_FFFF);
  }

  lemma SlotsDiffer(next: nat, i: nat, j: nat)
    requires i < SLOTS && j < SLOTS && i != j
    ensures SlotBelow(next, i) != SlotBelow(next, j)
  {
  }

  lemma PushHolds(r: Ring, stack: seq<int>, id: int)
    requires Holds(r, stack) && id >= 0
    ensures Holds(Push(r, id), PushStack(stack, id))
  {
    var r', stack' := Push(r, id), PushStack(stack, id);
    forall j | 0 <= j < SLOTS
      ensures r'.slots[SlotBelow(r'.next, j)] == if j < |stack'| then stack'[j] else EMPTY
    {
      SlotAfterPush(r.next, j);
      SlotAfterPush(r.next, 0);
      if j > 0 {
        SlotsDiffer((r.next + 1) % WRAP, 0, j);
      }
    }
  }

  lemma PopHolds(r: Ring, stack: seq<int>)
    requires Holds(r, stack)
    ensures Holds(Pop(r).0, PopStack(stack).0)
    ensures Pop(r).1 == PopStack(stack).1
  {
    var r', stack' := Pop(r).0, PopStack(stack).0;
    SlotAfterPop(r.next, 7);
    forall j | 0 <= j < SLOTS
      ensures r'.slots[SlotBelow(r'.next, j)] == if j < |stack'| then stack'[j] else EMPTY
    {
      SlotAfterPop(r.next, j);
      if j < 7 {
        SlotsDiffer(r.next, 0, j + 1);
      }
    }
  }

  // ---------------------------------------------------------------- runs

  datatype Op = BeginSpinning(id: nat) | TakeSpinning

  ghost function RunRing(ops: seq<Op>): (r: Ring)
    ensures |r.slots| == SLOTS
  {
    if ops == [] then Start()
    else
      var r := RunRing(ops[..|ops| - 1]);
      match ops[|ops| - 1]
      case BeginSpinning(id) => Push(r, id)
      case TakeSpinning => Pop(r).0
  }

  ghost function RunStack(ops: seq<Op>): seq<int> {
    if ops == [] then []
    else
      var stack := RunStack(ops[..|ops| - 1]);
      match ops[|ops| - 1]
      case BeginSpinning(id) => PushStack(stack, id)
      case TakeSpinning => PopStack(stack).0
  }

  /** Over every sequence of operations, however often pops run past empty and however often the index wraps,
      the ring is a LIFO stack bounded to eight entries that drops its oldest. */
  lemma {:induction false} RingIsStack(ops: seq<Op>)
    ensures Holds(RunRing(ops), RunStack(ops))
    ensures Pop(RunRing(ops)).1 == PopStack(RunStack(ops)).1
  {
    if ops == [] {
    } else {
      var last := |ops| - 1;
      RingIsStack(ops[..last]);
      match ops[last]
      case BeginSpinning(id) => PushHolds(RunRing(ops[..last]), RunStack(ops[..last]), id);
      case TakeSpinning => PopHolds(RunRing(ops[..last]), RunStack(ops[..last]));
    }
    PopHolds(RunRing(ops), RunStack(ops));
  }

  // ---------------------------------------------------------------- taking turns

  /** `n` turns of the round-robin index from `next` on. */
  function Turns(next: nat, count: nat, n: nat): (r: seq<nat>)
    requires count > 0
    ensures |r| == n
  {
    if n == 0 then [] else Turns(next, count, n - 1) + [(next + n - 1) % count]
  }

  lemma {:induction false} TurnAt(next: nat, count: nat, n: nat, k: nat)
    requires count > 0 && k < n
    ensures Turns(next, count, n)[k] == (next + k) % count
  {
    if k == n - 1 {
    } else {
      TurnAt(next, count, n - 1, k);
    }
  }

  /** The remainder of a sum, when the summand is small. */
  lemma ModStep(x: nat, k: nat, c: nat)
    requires c > 0 && k < c
    ensures (x + k) % c == if x % c + k < c then x % c + k else x % c + k - c
  {
    var q, r := x / c, x % c;
    assert x + k == c * q + (r + k);
    if r + k < c {
      ModUnique(x + k, c, q, r + k);
    } else {
      assert x + k == c * (q + 1) + (r + k - c);
      ModUnique(x + k, c, q + 1, r + k - c);
    }
  }

  lemma ModUnique(x: nat, c: nat, q: nat, r: nat)
    requires c > 0 && x == c * q + r && r < c
    ensures x % c == r
  {
    var d := x / c - q;
    assert c * d == r - x % c;
    SmallMultiple(c, d);
  }

  lemma SmallMultiple(c: nat, d: int)
    requires c > 0 && -(c as int) < c * d < c
    ensures d == 0
  {
  }

  /** `count` turns in a row serve every worker exactly once. */
  lemma EveryoneGetsATurn(next: nat, count: nat, worker: nat)
    requires worker < count
    ensures exists k :: 0 <= k < count && Turns(next, count, count)[k] == worker
    ensures forall k, l :: 0 <= k < l < count ==> Turns(next, count, count)[k] != Turns(next, count, count)[l]
  {
    var r := next % count;
    var k := if r <= worker then worker - r else worker + count - r;
    TurnAt(next, count, count, k);
    ModStep(next, k, count);
    forall a, b | 0 <= a < b < count ensures Turns(next, count, count)[a] != Turns(next, count, count)[b] {
      TurnAt(next, count, count, a);
      TurnAt(next, count, count, b);
      ModStep(next, a, count);
      ModStep(next, b, count);
    }
  }

  // ---------------------------------------------------------------- choosing a worker

  class WorkerChooser {
    const count: nat
    var ring: array<int>
    var next: nat
    var nextEnqueue: nat
    ghost var stack: seq<int>

    ghost predicate Valid()
      reads this, ring
    {
      && 0 < count && ring.Length == SLOTS && nextEnqueue < WRAP
      && Holds(Ring(ring[..], next), stack)
      && (forall j :: 0 <= j < |stack| ==> stack[j] < count)
    }

    constructor (count: nat)
      requires count > 0
      ensures Valid() && this.count == count && stack == [] && nextEnqueue == 0 && fresh(ring)
    {
      this.count := count;
      ring := new int[SLOTS](_ => EMPTY);
      next, nextEnqueue := 0x8000000, 0;
      stack := [];
    }

    /** `onBeginSpinning`. */
    method BeginSpin(id: nat)
      requires Valid() && id < count
      modifies this, ring
      ensures Valid() && ring == old(ring)
      ensures stack == PushStack(old(stack), id) && nextEnqueue == old(nextEnqueue)
    {
      PushHolds(Ring(ring[..], next), stack, id);
      ghost var pushed := Push(Ring(ring[..], next), id);
      stack := PushStack(stack, id);
      ring[next % SLOTS] := id;
      next := (next + 1) % WRAP;
      assert ring[..] == pushed.slots;
    }

    /** One turn of the loop in `enqueue`: the most recent spinner, or the next worker in turn; in every case
        an existing worker. */
    method Choose() returns (worker: int)
      requires Valid()
      modifies this, ring
      ensures Valid() && ring == old(ring)
      ensures 0 <= worker < count
      ensures old(stack) != [] ==> worker == old(stack)[0] && stack == old(stack)[1..]
      ensures old(stack) == [] ==> worker == old(nextEnqueue) % count && stack == []
      ensures nextEnqueue == if old(stack) == [] then (old(nextEnqueue) + 1) % WRAP else old(nextEnqueue)
    {
      PopHolds(Ring(ring[..], next), stack);
      ghost var popped := Pop(Ring(ring[..], next));
      next := (next + WRAP - 1) % WRAP;
      worker := ring[next % SLOTS];
      ring[next % SLOTS] := EMPTY;
      assert ring[..] == popped.0.slots;
      stack := PopStack(stack).0;
      if worker < 0 {
        worker := nextEnqueue % count;
        nextEnqueue := (nextEnqueue + 1) % WRAP;
      }
    }

    /** `n` submissions in a row while nobody spins, away from the wrap of the index. */
    method ChooseInTurn(n: nat) returns (workers: seq<int>)
      requires Valid() && stack == [] && nextEnqueue + n < WRAP
      modifies this, ring
      ensures Valid() && ring == old(ring) && stack == [] && nextEnqueue == old(nextEnqueue) + n
      ensures workers == Turns(old(nextEnqueue), count, n)
    {
      workers := [];
      for k := 0 to n
        invariant Valid() && ring == old(ring) && stack == [] && nextEnqueue == old(nextEnqueue) + k
        invariant workers == Turns(old(nextEnqueue), count, k)
      {
        var worker := Choose();
        workers := workers + [worker];
      }
    }
  }
}
