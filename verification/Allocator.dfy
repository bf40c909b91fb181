/** `alignUp` and `DefaultAllocator` (include/marl/memory.hpp, src/memory.cpp): where the user's bytes, the saved base
    pointer and the guard pages lie inside the block obtained from `malloc` or `mmap`, and how `free` finds
    its way back. */
module Allocator {
  import opened Wrappers

  const WORD: nat := 8       // sizeof(void *)

  /** `Allocation::Request` without its usage tag. An alignment of zero would make `allocate` divide by zero. */
  datatype Request = Request(size: nat, alignment: nat, guards: bool)

  datatype Block = Block(base: nat, length: nat)

  function AlignUp(val: nat, alignment: nat): (r: nat)
    requires alignment > 0
    ensures r % alignment == 0 && val <= r < val + alignment
    ensures val % alignment == 0 ==> r == val
  {
    AlignUpFacts(val, alignment);
    alignment * ((val + alignment - 1) / alignment)
  }

  lemma AlignUpFacts(val: nat, alignment: nat)
    requires alignment > 0
    ensures var r := alignment * ((val + alignment - 1) / alignment);
            r % alignment == 0 && val <= r < val + alignment && (val % alignment == 0 ==> r == val)
  {
    var q, rem := (val + alignment - 1) / alignment, (val + alignment - 1) % alignment;
    assert val + alignment - 1 == alignment * q + rem;
    MultipleMod(alignment, q);
    if val % alignment == 0 {
      var k := val / alignment;
      assert val == alignment * k;
      assert alignment * q <= alignment * k + alignment - 1 < alignment * (k + 1);
      SameQuotient(alignment, q, k);
    }
  }

  lemma {:induction false} MultipleMod(a: nat, q: nat)
    requires a > 0
    ensures (a * q) % a == 0
  {
    if q == 0 {
    } else {
      MultipleMod(a, q - 1);
      assert a * q == a * (q - 1) + a;
      AddOne(a * (q - 1), a);
    }
  }

  lemma AddOne(x: nat, a: nat)
    requires a > 0 && x % a == 0
    ensures (x + a) % a == 0
  {
    assert x + a == a * (x / a + 1) + 0;
    Unique(x + a, a, x / a + 1, 0);
  }

  /** Quotient and remainder are unique. */
  lemma Unique(x: nat, a: nat, q: int, r: nat)
    requires a > 0 && x == a * q + r && r < a
    ensures x / a == q && x % a == r
  {
    var d := x / a - q;
    assert a * d == r - x % a;
    Between(a, d);
  }

  /** A multiple of `a` strictly between `-a` and `a` is zero. */
  lemma Between(a: nat, d: int)
    requires a > 0 && -(a as int) < a * d < a
    ensures d == 0
  {
  }

  lemma SameQuotient(a: nat, q: nat, k: nat)
    requires a > 0 && a * k <= a * q < a * (k + 1)
    ensures q == k
  {
    assert a * (q - k) == a * q - a * k;
    Between(a, q - k);
  }

  /** No aligned address lies between `val` and `alignUp(val)`. */
  lemma AlignUpLeast(val: nat, alignment: nat, other: nat)
    requires alignment > 0 && other % alignment == 0 && val <= other
    ensures AlignUp(val, alignment) <= other
  {
    var r := AlignUp(val, alignment);
    var d := r / alignment - other / alignment;
    assert r - other == alignment * d;
    if other < r {
      Between(alignment, d);
    }
  }

  // ---------------------------------------------------------------- layout

  function Pages(size: nat, page: nat): nat
    requires page > 0
  {
    (size + page - 1) / page
  }

  /** What is asked of `mmap` or `malloc`. */
  function BlockLength(r: Request, page: nat): nat
    requires page > 0
  {
    if r.guards then (Pages(r.size, page) + 2) * page
    else if r.alignment > 1 then r.size + r.alignment + WORD
    else r.size
  }

  /** What the caller gets. */
  function UserPointer(r: Request, base: nat, page: nat): nat
    requires page > 0
  {
    if r.guards then base + page
    else if r.alignment > 1 then AlignUp(base, r.alignment)
    else base
  }

  predicate SavesBase(r: Request) { !r.guards && r.alignment > 1 }

  ghost predicate Inside(lo: nat, length: nat, b: Block) {
    b.base <= lo && lo + length <= b.base + b.length
  }

  ghost predicate Separate(lo: nat, n: nat, other: nat, m: nat) {
    lo + n <= other || other + m <= lo
  }

  /** User range, saved base and guard pages lie inside the block and apart from each other. */
  lemma LayoutFits(r: Request, base: nat, page: nat)
    requires page > 0 && r.alignment > 0
    ensures var b, u := Block(base, BlockLength(r, page)), UserPointer(r, base, page);
            && Inside(u, r.size, b)
            && (SavesBase(r) ==> Inside(u + r.size, WORD, b) && Separate(u, r.size, u + r.size, WORD))
            && (r.guards ==>
                  var high := u + Pages(r.size, page) * page;
                  && Inside(base, page, b) && Inside(high, page, b)
                  && Separate(u, r.size, base, page) && Separate(u, r.size, high, page)
                  && u == base + page && high < u + r.size + page && high + page == base + b.length)
  {
    if r.guards {
      var n := Pages(r.size, page);
      assert (n + 2) * page == n * page + page + page;
      assert r.size + page - 1 == page * n + (r.size + page - 1) % page;
    }
  }

  /** No less would do: a plain block is the user range, and an aligned one has a single byte to spare when `malloc`
      returns the worst address. (Guarded blocks are tight by `LayoutFits`: the low guard ends where the user range
      begins, the high one begins within a page of its end and closes the block.) */
  lemma NothingToSpare(r: Request, page: nat)
    requires page > 0 && r.alignment > 0 && !r.guards
    ensures r.alignment == 1 ==> BlockLength(r, page) == r.size
    ensures r.alignment > 1 ==> UserPointer(r, 1, page) + r.size + WORD + 1 == 1 + BlockLength(r, page)
  {
    if r.alignment > 1 {
      AlignUpLeast(1, r.alignment, r.alignment);
      var u := AlignUp(1, r.alignment);
      if u < r.alignment {
        Unique(u, r.alignment, 0, u);
        assert false;
      }
    }
  }

  /** The result is aligned, provided `mmap` is page-aligned and the alignment divides a page. */
  lemma ResultAligned(r: Request, base: nat, page: nat)
    requires page > 0 && r.alignment > 0
    requires r.guards ==> base % page == 0 && page % r.alignment == 0
    ensures UserPointer(r, base, page) % r.alignment == 0
  {
    if r.guards {
      var k, m := base / page, page / r.alignment;
      assert base + page == page * (k + 1) && page == r.alignment * m;
      assert base + page == r.alignment * (m * (k + 1));
      MultipleMod(r.alignment, m * (k + 1));
    }
  }

  // ---------------------------------------------------------------- the allocator at work

  /** A byte of memory: user data, or one byte of a saved pointer. */
  datatype Byte = Data(value: nat) | PointerByte(target: nat, index: nat)

  type Memory = map<nat, Byte>

  /** `memcpy` of a pointer into memory and back. */
  function StorePointer(mem: Memory, at: nat, target: nat): Memory {
    mem[at := PointerByte(target, 0)][at + 1 := PointerByte(target, 1)]
       [at + 2 := PointerByte(target, 2)][at + 3 := PointerByte(target, 3)]
       [at + 4 := PointerByte(target, 4)][at + 5 := PointerByte(target, 5)]
       [at + 6 := PointerByte(target, 6)][at + 7 := PointerByte(target, 7)]
  }

  predicate HoldsByte(mem: Memory, at: nat, target: nat, k: nat) {
    at + k in mem && mem[at + k] == PointerByte(target, k)
  }

  predicate HoldsPointer(mem: Memory, at: nat, target: nat) {
    forall k: nat :: k < WORD ==> HoldsByte(mem, at, target, k)
  }

  function LoadPointer(mem: Memory, at: nat): Option<nat> {
    if at in mem && mem[at].PointerByte? && HoldsPointer(mem, at, mem[at].target) then Some(mem[at].target) else None
  }

  lemma LoadStored(mem: Memory, at: nat, target: nat)
    requires HoldsPointer(mem, at, target)
    ensures LoadPointer(mem, at) == Some(target)
  {
    assert HoldsByte(mem, at, target, 0);
  }

  lemma StoreHolds(mem: Memory, at: nat, target: nat)
    ensures HoldsPointer(StorePointer(mem, at, target), at, target)
  {
  }

  /** Storing a pointer touches eight bytes and no others. */
  lemma StoreElsewhere(mem: Memory, at: nat, target: nat, x: nat)
    requires !(at <= x < at + WORD)
    ensures x in StorePointer(mem, at, target) <==> x in mem
    ensures x in mem ==> StorePointer(mem, at, target)[x] == mem[x]
  {
  }

  datatype Allocation = Allocation(request: Request, base: nat)

  ghost predicate BlocksApart(a: Block, b: Block) {
    a.base != b.base && Separate(a.base, a.length, b.base, b.length)
  }

  ghost function BlockOf(a: Allocation, page: nat): Block
    requires page > 0
  {
    Block(a.base, BlockLength(a.request, page))
  }

  /** The pointer belongs to the allocation, and the base it came from can still be found. */
  ghost predicate Intact(mem: Memory, p: nat, a: Allocation, page: nat)
    requires page > 0
  {
    && a.request.alignment > 0
    && p == UserPointer(a.request, a.base, page)
    && (SavesBase(a.request) ==> HoldsPointer(mem, p + a.request.size, a.base))
  }

  lemma FarStoreKeeps(mem: Memory, p: nat, a: Allocation, page: nat, at: nat, target: nat, b: Block)
    requires page > 0 && Intact(mem, p, a, page) && BlocksApart(BlockOf(a, page), b) && Inside(at, WORD, b)
    ensures Intact(StorePointer(mem, at, target), p, a, page)
  {
    if SavesBase(a.request) {
      LayoutFits(a.request, a.base, page);
      var slot := p + a.request.size;
      forall k: nat | k < WORD ensures HoldsByte(StorePointer(mem, at, target), slot, a.base, k) {
        assert HoldsByte(mem, slot, a.base, k);
        StoreElsewhere(mem, at, target, slot + k);
      }
    }
  }

  /** A write outside an allocation's saved base leaves it intact. */
  lemma WriteKeeps(mem: Memory, p: nat, a: Allocation, page: nat, x: nat, v: Byte)
    requires page > 0 && Intact(mem, p, a, page)
    requires SavesBase(a.request) ==> !(p + a.request.size <= x < p + a.request.size + WORD)
    ensures Intact(mem[x := v], p, a, page)
  {
    if SavesBase(a.request) {
      var slot := p + a.request.size;
      var after := mem[x := v];
      forall k: nat | k < WORD ensures HoldsByte(after, slot, a.base, k) {
        assert HoldsByte(mem, slot, a.base, k);
      }
    }
  }

  /** Allocations in separate blocks have different user pointers. */
  lemma PointersDiffer(a: Allocation, b: Allocation, page: nat)
    requires page > 0 && a.request.alignment > 0 && b.request.alignment > 0
    requires BlocksApart(BlockOf(a, page), BlockOf(b, page))
    ensures UserPointer(a.request, a.base, page) != UserPointer(b.request, b.base, page)
  {
    LayoutFits(a.request, a.base, page);
    LayoutFits(b.request, b.base, page);
  }

  type Live = map<nat, Allocation>     // by user pointer

  ghost predicate AllIntact(mem: Memory, live: Live, page: nat)
    requires page > 0
  {
    forall p :: p in live ==> Intact(mem, p, live[p], page)
  }

  ghost predicate ApartFrom(live: Live, page: nat, b: Block)
    requires page > 0
  {
    forall p :: p in live ==> BlocksApart(BlockOf(live[p], page), b)
  }

  ghost predicate AllApart(live: Live, page: nat)
    requires page > 0
  {
    forall p, q :: p in live && q in live && p != q ==> BlocksApart(BlockOf(live[p], page), BlockOf(live[q], page))
  }

  ghost predicate Owned(b: Block, live: Live, page: nat)
    requires page > 0
  {
    exists p :: p in live && BlockOf(live[p], page) == b
  }

  /** The system's blocks are exactly those of the live allocations. */
  ghost predicate NoLeak(blocks: set<Block>, live: Live, page: nat)
    requires page > 0
  {
    && (forall p :: p in live ==> BlockOf(live[p], page) in blocks)
    && (forall b :: b in blocks ==> Owned(b, live, page))
  }

  lemma NewKeepsIntact(mem: Memory, live: Live, page: nat, a: Allocation)
    requires page > 0 && a.request.alignment > 0 && AllIntact(mem, live, page)
    requires ApartFrom(live, page, BlockOf(a, page))
    ensures var u := UserPointer(a.request, a.base, page);
            var after := if SavesBase(a.request) then StorePointer(mem, u + a.request.size, a.base) else mem;
            AllIntact(after, live[u := a], page)
  {
    var u := UserPointer(a.request, a.base, page);
    if SavesBase(a.request) {
      var slot := u + a.request.size;
      LayoutFits(a.request, a.base, page);
      StoreHolds(mem, slot, a.base);
      forall p | p in live ensures Intact(StorePointer(mem, slot, a.base), p, live[p], page) {
        FarStoreKeeps(mem, p, live[p], page, slot, a.base, BlockOf(a, page));
      }
    }
  }

  lemma NewPointer(mem: Memory, live: Live, page: nat, a: Allocation)
    requires page > 0 && a.request.alignment > 0 && AllIntact(mem, live, page)
    requires ApartFrom(live, page, BlockOf(a, page))
    ensures UserPointer(a.request, a.base, page) !in live
  {
    var u := UserPointer(a.request, a.base, page);
    if u in live {
      assert Intact(mem, u, live[u], page);
      PointersDiffer(live[u], a, page);
      assert false;
    }
  }

  lemma NewKeepsBlocks(blocks: set<Block>, live: Live, page: nat, u: nat, a: Allocation)
    requires page > 0 && AllApart(live, page) && NoLeak(blocks, live, page)
    requires u !in live && ApartFrom(live, page, BlockOf(a, page))
    ensures AllApart(live[u := a], page) && NoLeak(blocks + {BlockOf(a, page)}, live[u := a], page)
  {
    var after := live[u := a];
    forall b | b in blocks + {BlockOf(a, page)} ensures Owned(b, after, page) {
      if b == BlockOf(a, page) {
        assert after[u] == a;
      } else {
        var p :| p in live && BlockOf(live[p], page) == b;
        assert after[p] == live[p];
      }
    }
    forall p, q | p in after && q in after && p != q
      ensures BlocksApart(BlockOf(after[p], page), BlockOf(after[q], page))
    {
    }
  }

  /** Where `free` looks for the block of a user pointer. */
  function FoundBase(mem: Memory, p: nat, r: Request, page: nat): Option<nat>
    requires page > 0
  {
    if r.guards then if page <= p then Some(p - page) else None
    else if r.alignment > 1 then LoadPointer(mem, p + r.size)
    else Some(p)
  }

  lemma BaseIsFound(mem: Memory, p: nat, a: Allocation, page: nat)
    requires page > 0 && Intact(mem, p, a, page)
    ensures FoundBase(mem, p, a.request, page) == Some(a.base)
  {
    if SavesBase(a.request) {
      LoadStored(mem, p + a.request.size, a.base);
    }
  }

  lemma GoneKeepsBlocks(blocks: set<Block>, live: Live, page: nat, u: nat)
    requires page > 0 && u in live && AllApart(live, page) && NoLeak(blocks, live, page)
    ensures NoLeak(blocks - {BlockOf(live[u], page)}, live - {u}, page)
  {
    var after := live - {u};
    forall b | b in blocks - {BlockOf(live[u], page)} ensures Owned(b, after, page) {
      var p :| p in live && BlockOf(live[p], page) == b;
      assert p in after && after[p] == live[p];
    }
    forall p | p in after ensures BlockOf(after[p], page) in blocks - {BlockOf(live[u], page)} {
      assert BlocksApart(BlockOf(live[p], page), BlockOf(live[u], page));
    }
  }

  /** All of `Valid` on values, so that the methods need not look inside. */
  ghost predicate Sound(mem: Memory, blocks: set<Block>, live: Live, page: nat) {
    && page > 0
    && AllIntact(mem, live, page)
    && AllApart(live, page)
    && NoLeak(blocks, live, page)
  }

  lemma FreeIsSound(mem: Memory, blocks: set<Block>, live: Live, page: nat, p: nat)
    requires Sound(mem, blocks, live, page) && p in live
    ensures FoundBase(mem, p, live[p].request, page) == Some(live[p].base)
    ensures Sound(mem, blocks - {BlockOf(live[p], page)}, live - {p}, page)
  {
    BaseIsFound(mem, p, live[p], page);
    GoneKeepsBlocks(blocks, live, page, p);
    var after := live - {p};
    assert AllIntact(mem, after, page);
    forall x, y | x in after && y in after && x != y
      ensures BlocksApart(BlockOf(after[x], page), BlockOf(after[y], page))
    {
      assert BlocksApart(BlockOf(live[x], page), BlockOf(live[y], page));
    }
  }

  // ---------------------------------------------------------------- freeing through `Deleter`

  /** The request `Deleter` puts together for `free`: it leaves the alignment at zero. */
  function DeleterRequest(size: nat): Request {
    Request(size, 0, false)
  }

  /** Given it, `free` looks no further than the user pointer, which is the base exactly when that was aligned. */
  lemma DeleterFindsAligned(mem: Memory, r: Request, base: nat, page: nat)
    requires page > 0 && r.alignment > 0 && !r.guards
    ensures var u := UserPointer(r, base, page);
            && FoundBase(mem, u, DeleterRequest(r.size), page) == Some(u)
            && (u == base <==> base % r.alignment == 0)
  {
    if r.alignment == 1 {
      assert base == 1 * base + 0;
      Unique(base, 1, base, 0);
    }
  }

  /** With a `malloc` that promises multiples of `granule` and nothing more, `Deleter` frees the right block whatever
      `malloc` returned if and only if the alignment of the type divides `granule`. */
  lemma DeleterFindsBase(mem: Memory, r: Request, granule: nat, page: nat)
    requires page > 0 && granule > 0 && r.alignment > 0 && !r.guards
    ensures (forall base: nat :: base % granule == 0 ==>
               FoundBase(mem, UserPointer(r, base, page), DeleterRequest(r.size), page) == Some(base))
       <==> granule % r.alignment == 0
  {
    if granule % r.alignment == 0 {
      forall base: nat | base % granule == 0
        ensures FoundBase(mem, UserPointer(r, base, page), DeleterRequest(r.size), page) == Some(base)
      {
        MultipleOfMultiple(base, granule, r.alignment);
        DeleterFindsAligned(mem, r, base, page);
      }
    } else {
      assert granule == granule * 1 + 0;
      Unique(granule, granule, 1, 0);
      DeleterFindsAligned(mem, r, granule, page);
      assert FoundBase(mem, UserPointer(r, granule, page), DeleterRequest(r.size), page) != Some(granule);
    }
  }

  lemma MultipleOfMultiple(x: nat, b: nat, a: nat)
    requires a > 0 && b > 0 && b % a == 0 && x % b == 0
    ensures x % a == 0
  {
    var k, m := x / b, b / a;
    assert x == b * k && b == a * m;
    assert x == a * (m * k);
    MultipleMod(a, m * k);
  }

  /** When it goes wrong, it goes wrong for good: what reaches the system's `free` is the start of no live block. */
  lemma DeleterMissesAll(mem: Memory, blocks: set<Block>, live: Live, page: nat, p: nat, b: Block)
    requires Sound(mem, blocks, live, page) && p in live && b in blocks
    requires !live[p].request.guards && live[p].base % live[p].request.alignment != 0
    ensures FoundBase(mem, p, DeleterRequest(live[p].request.size), page) == Some(p)
    ensures b.base != p
  {
    var a := live[p];
    assert Intact(mem, p, a, page);
    DeleterFindsAligned(mem, a.request, a.base, page);
    LayoutFits(a.request, a.base, page);
    assert Owned(b, live, page);
    var q :| q in live && BlockOf(live[q], page) == b;
    assert q != p ==> BlocksApart(BlockOf(live[q], page), BlockOf(a, page));
  }

  /** Concretely: one object of alignment 64 for which `malloc` returned address 16. */
  lemma OverAlignedDelete(size: nat, page: nat)
    requires page > 0
    ensures var r := Request(size, 64, false);
            var live: Live := map[64 := Allocation(r, 16)];
            var blocks := {Block(16, BlockLength(r, page))};
            exists mem: Memory ::
              && Sound(mem, blocks, live, page)
              && FoundBase(mem, 64, DeleterRequest(size), page) == Some(64)
              && forall b :: b in blocks ==> b.base != 64
  {
    var r := Request(size, 64, false);
    var a := Allocation(r, 16);
    var none: Live := map[];
    assert UserPointer(r, 16, page) == 64;
    NewKeepsIntact(map[], none, page, a);
    NewKeepsBlocks({}, none, page, 64, a);
    var mem := StorePointer(map[], 64 + size, 16);
    var live: Live := map[64 := a];
    var blocks := {Block(16, BlockLength(r, page))};
    assert none[64 := a] == live && {} + {BlockOf(a, page)} == blocks;
    assert Sound(mem, blocks, live, page);
    DeleterMissesAll(mem, blocks, live, page, 64, Block(16, BlockLength(r, page)));
  }

  class DefaultAllocator {
    const page: nat
    var mem: Memory
    var blocks: set<Block>     // what malloc and mmap have handed out and not got back
    ghost var live: Live

    ghost predicate Valid()
      reads this
    {
      Sound(mem, blocks, live, page)
    }

    constructor (page: nat)
      requires page > 0
      ensures Valid() && this.page == page && live == map[] && blocks == {}
    {
      this.page := page;
      mem, blocks, live := map[], {}, map[];
    }

    /** `allocate`; `base` is what the system returned for a block of the computed length. */
    method Allocate(r: Request, base: nat) returns (u: nat)
      requires Valid() && r.alignment > 0
      requires ApartFrom(live, page, Block(base, BlockLength(r, page)))
      modifies this
      ensures Valid()
      ensures u == UserPointer(r, base, page) && u !in old(live)
      ensures !r.guards || (base % page == 0 && page % r.alignment == 0) ==> u % r.alignment == 0
      ensures live == old(live)[u := Allocation(r, base)]
      ensures blocks == old(blocks) + {Block(base, BlockLength(r, page))}
    {
      ghost var a := Allocation(r, base);
      NewPointer(mem, live, page, a);
      NewKeepsIntact(mem, live, page, a);
      u := UserPointer(r, base, page);
      if !r.guards || (base % page == 0 && page % r.alignment == 0) {
        ResultAligned(r, base, page);
      }
      NewKeepsBlocks(blocks, live, page, u, a);
      if SavesBase(r) {
        mem := StorePointer(mem, u + r.size, base);
      }
      blocks := blocks + {Block(base, BlockLength(r, page))};
      live := live[u := a];
    }

    /** The owner of `p` writes one byte of its range: no saved base pointer is disturbed. */
    method Write(p: nat, offset: nat, value: nat)
      requires Valid() && p in live && offset < live[p].request.size
      modifies this`mem
      ensures Valid()
      ensures mem == old(mem)[p + offset := Data(value)]
    {
      forall q | q in live ensures Intact(mem[p + offset := Data(value)], q, live[q], page) {
        assert Intact(mem, p, live[p], page) && Intact(mem, q, live[q], page);
        LayoutFits(live[p].request, live[p].base, page);
        LayoutFits(live[q].request, live[q].base, page);
        WriteKeeps(mem, q, live[q], page, p + offset, Data(value));
      }
      mem := mem[p + offset := Data(value)];
    }

    /** `free` with the request of the allocation gives back exactly the block it came from: the original base and,
        for guarded memory, the original number of pages. */
    method Free(p: nat, r: Request) returns (returned: Block)
      requires Valid() && p in live && live[p].request == r
      modifies this
      ensures Valid()
      ensures returned == BlockOf(old(live)[p], page)
      ensures live == old(live) - {p} && blocks == old(blocks) - {returned}
    {
      FreeIsSound(mem, blocks, live, page, p);
      returned := Block(FoundBase(mem, p, r, page).value, BlockLength(r, page));
      blocks := blocks - {returned};
      live := live - {p};
    }
  }
}
