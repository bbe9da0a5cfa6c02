/** The two routing adapters, any number of them, over one pool and the heap behind it. */
module PoolAdapters {
  import opened Common
  import opened Sizes
  import opened Memory
  import opened Slots
  import opened Heap
  import opened PoolImages
  import opened MemoryPools
  import opened PoolLifetime
  import opened PoolHandles

  const MAX_ALIGN: nat := 16

  /** The size of a type. */
  type extent = x: int | 0 < x <= SIZE_MAX witness 1

  /** `PoolAllocator<T>::allocate(n)`, with the size and alignment of `T`, or
      `PoolMemoryResource::do_allocate(bytes, alignment)`. */
  datatype Request =
    | Elements(n: size, elementSize: extent, alignment: size)
    | Storage(bytes: size, alignment: size)

  /** routes_to_pool of either adapter. */
  predicate RoutesToPool(r: Request, blockSize: size) {
    match r
    case Elements(n, elementSize, alignment) => n == 1 && elementSize <= blockSize && alignment <= MAX_ALIGN
    case Storage(bytes, alignment) => bytes <= blockSize && alignment <= MAX_ALIGN
  }

  /** The bytes a request needs, in true arithmetic. */
  function Needed(r: Request): nat {
    match r
    case Elements(n, elementSize, _) => n * elementSize
    case Storage(bytes, _) => bytes
  }

  /** The region a request outside the pool takes: even an empty one is a region of its own. */
  function RegionBytes(r: Request): nat {
    if Needed(r) == 0 then 1 else Needed(r)
  }

  // ---- Who produced what -------------------------------------------------------------------

  /** The requests that have not been given back, by address. */
  type Loans = map<nat, Request>

  predicate Pooled(loans: Loans, blockSize: size, p: nat) {
    p in loans && RoutesToPool(loans[p], blockSize)
  }

  ghost predicate SlotSide(chunks: seq<Chunk>, stride: nat, free: seq<Slot>, blockSize: size, loans: Loans, s: Slot)
    requires IsSlot(chunks, s)
  {
    s !in free <==> Pooled(loans, blockSize, Addr(chunks, stride, s))
  }

  /** The slots out of the pool are exactly the outstanding requests it was eligible for. */
  ghost predicate PoolSide(chunks: seq<Chunk>, stride: nat, free: seq<Slot>, blockSize: size, loans: Loans) {
    && NoDup(free)
    && (forall s {:trigger SlotSide(chunks, stride, free, blockSize, loans, s)} ::
          IsSlot(chunks, s) ==> SlotSide(chunks, stride, free, blockSize, loans, s))
    && (forall p {:trigger Pooled(loans, blockSize, p)} :: Pooled(loans, blockSize, p) ==> IsSlotAddress(chunks, stride, p))
  }

  /** The regions the outstanding requests for the heap took. */
  function HeapSide(loans: Loans, blockSize: size): Regions {
    map p | p in loans && !RoutesToPool(loans[p], blockSize) :: RegionBytes(loans[p])
  }

  ghost predicate HeapBalanced(rest: Regions, base: Regions, more: Regions) {
    more.Keys !! base.Keys && rest == base + more
  }

  /** Pool and heap together account for every outstanding request, each where it came from. */
  ghost predicate Balanced(pool: MemoryPool, base: Regions, loans: Loans)
    reads pool, pool.heap
  {
    && pool.Valid() && PoolSide(pool.chunks, pool.Stride(), pool.free, pool.blockSize, loans)
    && HeapBalanced(pool.Rest(), base, HeapSide(loans, pool.blockSize))
  }

  /** A slot that is not ready to be vended was out before; one that is was free, or is new. */
  lemma StillOut(chunks: seq<Chunk>, chunks': seq<Chunk>, v: View, factor: nat, s: Slot)
    requires v.counts == Counts(chunks) && chunks <= chunks' && Counts(chunks') == Ready(v, factor).counts
    requires IsSlot(chunks', s)
    ensures s !in Ready(v, factor).free <==> IsSlot(chunks, s) && s !in v.free
  {
    assert |chunks'| == |Ready(v, factor).counts|;
    if v.free == [] && factor >= 2 {
      assert |chunks'| == |chunks| + 1 && Counts(chunks')[|chunks|] == chunks'[|chunks|].count;
      if s.chunk == |chunks| {
        assert Ready(v, factor).free[s.index] == s;
      }
    }
  }

  /** The slot vended becomes the only new loan. */
  lemma VendedSide(chunks: seq<Chunk>, chunks': seq<Chunk>, stride: nat, v: View, factor: nat, blockSize: size, loans: Loans, r: Request)
    requires PoolSide(chunks, stride, v.free, blockSize, loans) && v.counts == Counts(chunks) && chunks <= chunks'
    requires ChunksOk(chunks', stride) && Counts(chunks') == Ready(v, factor).counts && RoutesToPool(r, blockSize)
    requires Ready(v, factor).free != [] && IsSlot(chunks', Ready(v, factor).free[0])
    ensures var ready := Ready(v, factor).free;
      var p := Addr(chunks', stride, ready[0]);
      && !Pooled(loans, blockSize, p)
      && PoolSide(chunks', stride, ready[1..], blockSize, loans[p := r])
  {
    var ready := Ready(v, factor).free;
    var p, more := Addr(chunks', stride, ready[0]), loans[Addr(chunks', stride, ready[0]) := r];
    assert ready == [ready[0]] + ready[1..] && NoDup(ready);
    forall s | IsSlot(chunks', s)
      ensures s !in ready <==> Pooled(loans, blockSize, Addr(chunks', stride, s))
    {
      StillOut(chunks, chunks', v, factor, s);
      OldLoan(chunks, chunks', stride, v.free, blockSize, loans, s);
    }
    forall s | IsSlot(chunks', s)
      ensures SlotSide(chunks', stride, ready[1..], blockSize, more, s)
    {
      if s != ready[0] {
        SlotsApart(chunks', stride, s, ready[0]);
      }
    }
    forall q | Pooled(more, blockSize, q)
      ensures IsSlotAddress(chunks', stride, q)
    {
      if q != p {
        assert Pooled(loans, blockSize, q);
        AddrStable(chunks, chunks', stride, SlotAt(chunks, stride, q));
      }
    }
  }

  /** What is lent by the pool is a slot it had when it was lent. */
  lemma OldLoan(chunks: seq<Chunk>, chunks': seq<Chunk>, stride: nat, free: seq<Slot>, blockSize: size, loans: Loans, s: Slot)
    requires PoolSide(chunks, stride, free, blockSize, loans) && chunks <= chunks' && ChunksOk(chunks', stride) && IsSlot(chunks', s)
    ensures Pooled(loans, blockSize, Addr(chunks', stride, s)) <==> IsSlot(chunks, s) && s !in free
  {
    var p := Addr(chunks', stride, s);
    if Pooled(loans, blockSize, p) {
      var t := SlotAt(chunks, stride, p);
      AddrStable(chunks, chunks', stride, t);
      SlotAddressUnique(chunks', stride, s, t);
    }
    if IsSlot(chunks, s) {
      assert SlotSide(chunks, stride, free, blockSize, loans, s);
    }
  }

  lemma ReturnedSide(chunks: seq<Chunk>, stride: nat, free: seq<Slot>, blockSize: size, loans: Loans, p: nat)
    requires PoolSide(chunks, stride, free, blockSize, loans) && ChunksOk(chunks, stride) && Pooled(loans, blockSize, p)
    ensures var s := SlotAt(chunks, stride, p);
      s !in free && PoolSide(chunks, stride, [s] + free, blockSize, loans - {p})
  {
    var s0 := SlotAt(chunks, stride, p);
    assert SlotSide(chunks, stride, free, blockSize, loans, s0);
    forall s | IsSlot(chunks, s)
      ensures SlotSide(chunks, stride, [s0] + free, blockSize, loans - {p}, s)
    {
      assert SlotSide(chunks, stride, free, blockSize, loans, s);
      if s != s0 {
        SlotsApart(chunks, stride, s, s0);
      }
    }
    forall q | Pooled(loans - {p}, blockSize, q)
      ensures IsSlotAddress(chunks, stride, q)
    {
      assert Pooled(loans, blockSize, q);
    }
  }

  /** Lending or taking back a region of the heap is nothing to the pool. */
  lemma SameSide(chunks: seq<Chunk>, stride: nat, free: seq<Slot>, blockSize: size, loans: Loans, loans': Loans)
    requires PoolSide(chunks, stride, free, blockSize, loans)
    requires forall p :: Pooled(loans', blockSize, p) <==> Pooled(loans, blockSize, p)
    ensures PoolSide(chunks, stride, free, blockSize, loans')
  {
    forall s | IsSlot(chunks, s)
      ensures SlotSide(chunks, stride, free, blockSize, loans', s)
    {
      assert SlotSide(chunks, stride, free, blockSize, loans, s);
    }
  }

  // ---- The books ---------------------------------------------------------------------------

  /** A pool, its heap, and what was lent from either. */
  datatype Books = Books(image: Image, loans: Loans)

  /** What a request comes to. An eligible one fails exactly if the pool has no slot and cannot grow; another
      exactly if its bytes overflow or the heap refuses. */
  ghost function Lending(k: Terms, blockSize: size, b: Books, r: Request): Books {
    if RoutesToPool(r, blockSize) then
      Books(PoppedImage(k, b.image),
            if PrimedImage(k, b.image).free == [] then b.loans else b.loans[VendedAddress(k, b.image) := r])
    else
      var (p, t) := FallbackAnswer(k.oracle, b.image.clock, b.image.regions, r);
      if p == 0 then b.(image := b.image.(clock := t))
      else Books(b.image.(clock := t, regions := b.image.regions[p := RegionBytes(r)]), b.loans[p := r])
  }

  /** What giving back comes to, of what is lent: to the pool or to the heap, as it was routed. */
  ghost function Returning(k: Terms, blockSize: size, b: Books, p: nat): Books {
    if p !in b.loans then b
    else if RoutesToPool(b.loans[p], blockSize) then Books(PushedImage(k, b.image, p), b.loans - {p})
    else Books(b.image.(regions := b.image.regions - {p}), b.loans - {p})
  }

  /** What the containers over the pool do: ask for storage, or give back what they were given. */
  datatype Deed = Ask(request: Request) | GiveBack(p: size)

  /** The books after the first `n` deeds. */
  ghost function BooksOf(k: Terms, blockSize: size, b: Books, deeds: seq<Deed>, n: nat): Books
    requires n <= |deeds|
  {
    if n == 0 then b else
      var before := BooksOf(k, blockSize, b, deeds, n - 1);
      match deeds[n - 1]
      case Ask(r) => Lending(k, blockSize, before, r)
      case GiveBack(p) => Returning(k, blockSize, before, p)
  }

  /** No slot of the pool is at the address of a region that is not the pool's. */
  lemma RegionIsNoSlot(pool: MemoryPool, p: nat)
    requires pool.Valid() && p in pool.Rest()
    ensures !IsSlotAddress(pool.chunks, pool.Stride(), p)
  {
    if IsSlotAddress(pool.chunks, pool.Stride(), p) {
      assert RegionMapped(pool.heap.regions, pool.heap.mem, p);
      SlotClear(pool, SlotAt(pool.chunks, pool.Stride(), p), p);
    }
  }

  // ---- What is lent is large enough --------------------------------------------------------

  /** The bytes of a loan are in a slot that is out, or in a region that is not the pool's. */
  ghost predicate Houses(pool: MemoryPool, p: nat, n: nat)
    reads pool, pool.heap
  {
    || (pool.Holds(p) && p % POOL_ALIGNMENT == 0 && n <= pool.blockSize <= pool.Stride())
    || (p in pool.Rest() && n <= pool.Rest()[p])
  }

  ghost predicate LoansApart(loans: Loans, p: nat, q: nat)
    requires p in loans && q in loans
  {
    Disjoint(p, Needed(loans[p]), q, Needed(loans[q]))
  }

  /** Every loan has the bytes it was asked for, and no two share one. */
  ghost predicate Served(pool: MemoryPool, loans: Loans)
    reads pool, pool.heap
  {
    && (forall p :: p in loans ==> Houses(pool, p, Needed(loans[p])) && Mapped(pool.heap.mem, p, Needed(loans[p])))
    && (forall p, q {:trigger LoansApart(loans, p, q)} :: p in loans && q in loans && p != q ==> LoansApart(loans, p, q))
  }

  /** What the pool is eligible for fits into one of its blocks. */
  lemma FitsBlock(r: Request, blockSize: size)
    ensures RoutesToPool(r, blockSize) ==> Needed(r) <= blockSize
    ensures Needed(r) <= RegionBytes(r)
  {
    if r.Elements? && r.n == 1 {
      assert r.n * r.elementSize == r.elementSize;
    }
  }

  lemma LoanHoused(pool: MemoryPool, base: Regions, loans: Loans, p: nat)
    requires Balanced(pool, base, loans) && p in loans
    ensures Houses(pool, p, Needed(loans[p])) && Mapped(pool.heap.mem, p, Needed(loans[p]))
    ensures RoutesToPool(loans[p], pool.blockSize) ==> pool.Holds(p)
    ensures !RoutesToPool(loans[p], pool.blockSize) ==> p in pool.Rest() && pool.Rest()[p] == RegionBytes(loans[p])
  {
    FitsBlock(loans[p], pool.blockSize);
    pool.Basics();
    hide MemoryPool.Valid;
    if RoutesToPool(loans[p], pool.blockSize) {
      assert Pooled(loans, pool.blockSize, p);
      var s := SlotAt(pool.chunks, pool.Stride(), p);
      assert SlotSide(pool.chunks, pool.Stride(), pool.free, pool.blockSize, loans, s);
      SlotInChunk(pool.chunks, pool.Stride(), s);
      SlotMapped(pool.chunks, pool.Stride(), pool.heap.mem, s);
    } else {
      assert p in HeapSide(loans, pool.blockSize);
      assert RegionMapped(pool.heap.regions, pool.heap.mem, p);
    }
  }

  lemma BothApart(pool: MemoryPool, base: Regions, loans: Loans, p: nat, q: nat)
    requires Balanced(pool, base, loans) && p in loans && q in loans && p != q
    requires RoutesToPool(loans[q], pool.blockSize) ==> RoutesToPool(loans[p], pool.blockSize)
    ensures LoansApart(loans, p, q)
  {
    hide Balanced, MemoryPool.Valid;
    LoanHoused(pool, base, loans, p);
    LoanHoused(pool, base, loans, q);
    FitsBlock(loans[p], pool.blockSize);
    FitsBlock(loans[q], pool.blockSize);
    StillValid(pool, base, loans);
    if RoutesToPool(loans[q], pool.blockSize) {
      SlotsApart(pool.chunks, pool.Stride(), SlotAt(pool.chunks, pool.Stride(), p), SlotAt(pool.chunks, pool.Stride(), q));
    } else if RoutesToPool(loans[p], pool.blockSize) {
      SlotClear(pool, SlotAt(pool.chunks, pool.Stride(), p), q);
    } else {
      assert RegionsApart(pool.heap.regions, p, q);
    }
  }

  lemma StillValid(pool: MemoryPool, base: Regions, loans: Loans)
    requires Balanced(pool, base, loans)
    ensures pool.Valid() && ChunksOk(pool.chunks, pool.Stride()) && LayoutOk(pool.Lay())
    ensures HeapOk(pool.heap.regions, pool.heap.mem)
  {
    pool.Basics();
  }

  /** As long as pool and heap are balanced, every loan has its bytes to itself. */
  lemma LoansServed(pool: MemoryPool, base: Regions, loans: Loans)
    requires Balanced(pool, base, loans)
    ensures Served(pool, loans)
  {
    hide Balanced, Houses, LoansApart;
    forall p | p in loans
      ensures Houses(pool, p, Needed(loans[p])) && Mapped(pool.heap.mem, p, Needed(loans[p]))
    {
      LoanHoused(pool, base, loans, p);
    }
    forall p, q | p in loans && q in loans && p != q
      ensures LoansApart(loans, p, q)
    {
      if RoutesToPool(loans[q], pool.blockSize) ==> RoutesToPool(loans[p], pool.blockSize) {
        BothApart(pool, base, loans, p, q);
      } else {
        BothApart(pool, base, loans, q, p);
        ApartBothWays(loans, p, q);
      }
    }
  }

  lemma ApartBothWays(loans: Loans, p: nat, q: nat)
    requires p in loans && q in loans && LoansApart(loans, q, p)
    ensures LoansApart(loans, p, q)
  {
  }

  // ---- The adapters ------------------------------------------------------------------------

  /** What the fallback returns and when the next request is made: nothing is asked of the heap if the bytes
      overflow. */
  ghost function FallbackAnswer(oracle: Oracle, t: nat, regions: Regions, r: Request): (nat, nat) {
    if Needed(r) > SIZE_MAX then (0, t) else (oracle(t, regions, RegionBytes(r)), t + 1)
  }

  /** The fallback: `::operator new` of the bytes, unless their number overflows. */
  method AllocateFallback(heap: Heap, r: Request) returns (p: nat)
    requires heap.Valid()
    modifies heap
    ensures heap.Valid() && Kept(old(heap.mem), heap.mem)
    ensures p == 0 ==> heap.regions == old(heap.regions) && heap.mem == old(heap.mem)
    ensures p != 0 ==> p !in old(heap.regions) && heap.regions == old(heap.regions)[p := RegionBytes(r)]
    ensures (p, heap.clock) == old(FallbackAnswer(heap.oracle, heap.clock, heap.regions, r))
  {
    if r.Elements? {
      FallbackGuardExact(r.n, r.elementSize);
      if r.n > SIZE_MAX / r.elementSize {
        return 0;
      }
    }
    p := heap.OperatorNew(RegionBytes(r));
  }

  /** The guard of allocate_fallback refuses just the counts whose bytes do not fit. */
  lemma FallbackGuardExact(n: size, elementSize: size)
    requires elementSize > 0
    ensures n > SIZE_MAX / elementSize <==> n * elementSize > SIZE_MAX
    ensures n * elementSize >= 0
  {
    OverflowGuardExact(n, elementSize);
    if n == 0 {
      assert n * elementSize == 0;
    }
  }

  /** allocate, of either adapter. The pool serves what it can, and is not helped out by the heap. */
  method Allocate(pool: MemoryPool, r: Request, ghost base: Regions, ghost loans: Loans) returns (p: nat)
    requires Balanced(pool, base, loans)
    modifies pool, pool.heap
    ensures p == 0 ==> Balanced(pool, base, loans)
    ensures p != 0 ==> p !in loans && Balanced(pool, base, loans[p := r])
    ensures p != 0 ==> Served(pool, loans[p := r])
    ensures p != 0 && r.Elements? && r.n == 1 && r.elementSize <= pool.blockSize && r.alignment <= 16 ==> pool.Holds(p)
    ensures p != 0 && r.Storage? && r.bytes <= pool.blockSize && r.alignment <= 16 ==> pool.Holds(p)
    ensures p != 0 && ((r.Elements? && r.n != 1) || Needed(r) > pool.blockSize || r.alignment > 16) ==>
      p in pool.Rest() && pool.Rest()[p] == if Needed(r) == 0 then 1 else Needed(r)
    ensures p == 0 <==>
      if RoutesToPool(r, pool.blockSize) then old(pool.free) == [] && !old(pool.CanGrow())
      else old(FallbackAnswer(pool.heap.oracle, pool.heap.clock, pool.heap.regions, r)).0 == 0
    ensures pool.Terms() == old(pool.Terms())
    ensures Books(pool.Image(), if p == 0 then loans else loans[p := r])
      == Lending(pool.Terms(), pool.blockSize, Books(old(pool.Image()), loans), r)
  {
    hide MemoryPool.Valid, HeapOk, PoolSide, Balanced, Served, MemoryPool.Holds, MemoryPool.CanGrow;
    FitsBlock(r, pool.blockSize);
    if RoutesToPool(r, pool.blockSize) {
      p := AllocatePooled(pool, r, base, loans);
    } else {
      p := AllocateElsewhere(pool, r, base, loans);
    }
    if p != 0 {
      LoansServed(pool, base, loans[p := r]);
      LoanHoused(pool, base, loans[p := r], p);
    }
  }

  method AllocatePooled(pool: MemoryPool, r: Request, ghost base: Regions, ghost loans: Loans) returns (p: nat)
    requires Balanced(pool, base, loans) && RoutesToPool(r, pool.blockSize)
    modifies pool, pool.heap
    ensures p == 0 ==> Balanced(pool, base, loans)
    ensures p != 0 ==> p !in loans && Balanced(pool, base, loans[p := r]) && IsSlotAddress(pool.chunks, pool.Stride(), p)
    ensures p == 0 <==> old(pool.free) == [] && !old(pool.CanGrow())
    ensures p == 0 <==> PrimedImage(pool.Terms(), old(pool.Image())).free == []
    ensures pool.Terms() == old(pool.Terms()) && p == VendedAddress(pool.Terms(), old(pool.Image()))
    ensures pool.Image() == PoppedImage(pool.Terms(), old(pool.Image()))
  {
    hide MemoryPool.Valid, HeapOk, PoolSide, ChunksOk, PrimedImage, PoppedImage, VendedAddress, KeptBut, MemoryPool.CanGrow;
    hide RestSpared, MemoryPool.Rest, AllSlots, LayoutOk;
    ghost var chunks, v, f := pool.chunks, pool.Now(), pool.growFactor;
    p := PoolHandles.Allocate(pool);
    pool.Basics();
    if p != 0 {
      VendedSide(chunks, pool.chunks, pool.Stride(), v, f, pool.blockSize, loans, r);
      if p in pool.Rest() {
        RegionIsNoSlot(pool, p);
      }
      assert HeapSide(loans[p := r], pool.blockSize) == HeapSide(loans, pool.blockSize);
    }
  }

  method AllocateElsewhere(pool: MemoryPool, r: Request, ghost base: Regions, ghost loans: Loans) returns (p: nat)
    requires Balanced(pool, base, loans) && !RoutesToPool(r, pool.blockSize)
    modifies pool.heap
    ensures p == 0 ==> Balanced(pool, base, loans)
    ensures p != 0 ==> p !in loans && Balanced(pool, base, loans[p := r]) && p in pool.Rest() && pool.Rest()[p] == RegionBytes(r)
    ensures (p, pool.heap.clock) == old(FallbackAnswer(pool.heap.oracle, pool.heap.clock, pool.heap.regions, r))
    ensures pool.heap.regions == if p == 0 then old(pool.heap.regions) else old(pool.heap.regions)[p := RegionBytes(r)]
  {
    hide MemoryPool.Valid, HeapOk, PoolSide, ChunksOk, HeapBalanced;
    ghost var rest := pool.Rest();
    p := AcquireElsewhere(pool, r);
    if p != 0 {
      RegionIsNoSlot(pool, p);
      Lent(pool.chunks, pool.Stride(), pool.free, pool.blockSize, loans, rest, base, p, r);
    }
  }

  /** A region for the request, and the pool none the wiser. */
  method AcquireElsewhere(pool: MemoryPool, r: Request) returns (p: nat)
    requires pool.Valid()
    modifies pool.heap
    ensures pool.Valid() && (p == 0 ==> pool.Rest() == old(pool.Rest()))
    ensures p != 0 ==> p !in old(pool.Rest()) && pool.Rest() == old(pool.Rest())[p := RegionBytes(r)]
    ensures (p, pool.heap.clock) == old(FallbackAnswer(pool.heap.oracle, pool.heap.clock, pool.heap.regions, r))
    ensures pool.heap.regions == if p == 0 then old(pool.heap.regions) else old(pool.heap.regions)[p := RegionBytes(r)]
  {
    hide MemoryPool.Valid, HeapOk;
    pool.Basics();
    p := AllocateFallback(pool.heap, r);
    AddedElsewhere(pool.Regions(), old(pool.heap.regions), pool.heap.regions, old(pool.heap.mem), pool.heap.mem);
    Undisturbed(pool);
  }

  lemma Lent(chunks: seq<Chunk>, stride: nat, free: seq<Slot>, blockSize: size, loans: Loans, rest: Regions, base: Regions, p: nat, r: Request)
    requires PoolSide(chunks, stride, free, blockSize, loans) && HeapBalanced(rest, base, HeapSide(loans, blockSize))
    requires !IsSlotAddress(chunks, stride, p) && p !in rest && !RoutesToPool(r, blockSize)
    ensures p !in loans && PoolSide(chunks, stride, free, blockSize, loans[p := r])
    ensures HeapBalanced(rest[p := RegionBytes(r)], base, HeapSide(loans[p := r], blockSize))
  {
    assert p in loans ==> !Pooled(loans, blockSize, p);
    assert p in loans ==> p in HeapSide(loans, blockSize);
    SameSide(chunks, stride, free, blockSize, loans, loans[p := r]);
    assert HeapSide(loans[p := r], blockSize) == HeapSide(loans, blockSize)[p := RegionBytes(r)];
  }

  lemma TakenBack(chunks: seq<Chunk>, stride: nat, free: seq<Slot>, blockSize: size, loans: Loans, rest: Regions, base: Regions, p: nat)
    requires PoolSide(chunks, stride, free, blockSize, loans) && HeapBalanced(rest, base, HeapSide(loans, blockSize))
    requires p in loans && !RoutesToPool(loans[p], blockSize)
    ensures p in rest && PoolSide(chunks, stride, free, blockSize, loans - {p})
    ensures HeapBalanced(rest - {p}, base, HeapSide(loans - {p}, blockSize))
  {
    assert p in HeapSide(loans, blockSize);
    SameSide(chunks, stride, free, blockSize, loans, loans - {p});
    assert HeapSide(loans - {p}, blockSize) == HeapSide(loans, blockSize) - {p};
  }

  /** deallocate, of either adapter, with the request that produced `p`. */
  method Deallocate(pool: MemoryPool, p: size, r: Request, ghost base: Regions, ghost loans: Loans)
    requires Balanced(pool, base, loans) && p in loans && loans[p] == r
    modifies pool, pool.heap
    ensures Balanced(pool, base, loans - {p}) && pool.Terms() == old(pool.Terms())
    ensures Books(pool.Image(), loans - {p}) == Returning(pool.Terms(), pool.blockSize, Books(old(pool.Image()), loans), p)
  {
    hide MemoryPool.Valid, HeapOk, PoolSide, ChunksOk, HeapBalanced;
    if RoutesToPool(r, pool.blockSize) {
      DeallocatePooled(pool, p, base, loans);
    } else {
      TakenBack(pool.chunks, pool.Stride(), pool.free, pool.blockSize, loans, pool.Rest(), base, p);
      ReleaseElsewhere(pool, p);
    }
  }

  method DeallocatePooled(pool: MemoryPool, p: size, ghost base: Regions, ghost loans: Loans)
    requires Balanced(pool, base, loans) && Pooled(loans, pool.blockSize, p)
    modifies pool, pool.heap
    ensures Balanced(pool, base, loans - {p}) && pool.Terms() == old(pool.Terms())
    ensures pool.Image() == PushedImage(pool.Terms(), old(pool.Image()), p)
  {
    hide MemoryPool.Valid, HeapOk, ChunksOk, PushedImage;
    pool.Basics();
    ReturnedSide(pool.chunks, pool.Stride(), pool.free, pool.blockSize, loans, p);
    PoolHandles.Deallocate(pool, p);
    assert HeapSide(loans - {p}, pool.blockSize) == HeapSide(loans, pool.blockSize);
  }

  method ReleaseElsewhere(pool: MemoryPool, p: nat)
    requires pool.Valid() && p in pool.Rest()
    modifies pool.heap`regions, pool.heap`mem
    ensures pool.Valid() && pool.Rest() == old(pool.Rest()) - {p} && pool.heap.regions == old(pool.heap.regions) - {p}
  {
    hide MemoryPool.Valid, HeapOk;
    ghost var m := pool.heap.mem;
    pool.Basics();
    pool.heap.OperatorDelete(p);
    StillThere(pool.heap, m);
    SparedByRelease(pool.Regions(), old(pool.heap.regions), pool.heap.regions, m, pool.heap.mem);
    Undisturbed(pool);
  }

  lemma SparedByRelease(rs: set<nat>, r: Regions, r': Regions, m: Bytes, m': Bytes)
    requires RestSpared(r', m, m') && forall a :: a in rs && a in r ==> a in r' && r'[a] == r[a]
    ensures Spared(rs, r, r', m, m')
  {
    forall a | a in rs
      ensures RegionSpared(a, r, r', m, m')
    {
    }
  }

  // ---- Runs --------------------------------------------------------------------------------

  /** Over any run of requests and returns through any adapters, whatever their element types: what is lent is
      what the deeds come to, the slots out of the pool are exactly the outstanding requests it was eligible
      for, and the regions added to the heap, apart from the pool's own growth, are exactly the others; and each loan
      has the bytes it was asked for to itself. */
  method RunAdapters(pool: MemoryPool, deeds: seq<Deed>) returns (loans: Loans)
    requires pool.Valid() && pool.live == 0
    modifies pool, pool.heap
    ensures Balanced(pool, old(pool.Rest()), loans) && Served(pool, loans)
    ensures Books(pool.Image(), loans)
      == BooksOf(old(pool.Terms()), pool.blockSize, Books(old(pool.Image()), map[]), deeds, |deeds|)
  {
    hide MemoryPool.Valid;
    loans := map[];
    ghost var base, k, b := pool.Rest(), pool.Terms(), Books(pool.Image(), map[]);
    NothingLent(pool, base);
    for i := 0 to |deeds|
      invariant Balanced(pool, base, loans) && pool.Terms() == k
      invariant Books(pool.Image(), loans) == BooksOf(k, pool.blockSize, b, deeds, i)
    {
      hide Balanced, Lending, MemoryPool.CanGrow;
      if deeds[i].Ask? {
        var p := Allocate(pool, deeds[i].request, base, loans);
        if p != 0 {
          loans := loans[p := deeds[i].request];
        }
      } else if deeds[i].p in loans {
        Deallocate(pool, deeds[i].p, loans[deeds[i].p], base, loans);
        loans := loans - {deeds[i].p};
      }
    }
    LoansServed(pool, base, loans);
  }

  lemma NothingLent(pool: MemoryPool, base: Regions)
    requires pool.Valid() && pool.live == 0 && base == pool.Rest()
    ensures Balanced(pool, base, map[])
  {
    var none: Loans := map[];
    assert HeapSide(none, pool.blockSize) == map[];
    forall s | IsSlot(pool.chunks, s)
      ensures SlotSide(pool.chunks, pool.Stride(), pool.free, pool.blockSize, none, s)
    {
      pool.SomeLive(s);
    }
  }

  lemma AddedElsewhere(rs: set<nat>, r: Regions, r': Regions, m: Bytes, m': Bytes)
    requires Kept(m, m') && forall a :: a in r && a in rs ==> a in r' && r'[a] == r[a]
    ensures Spared(rs, r, r', m, m')
  {
    forall a | a in rs
      ensures RegionSpared(a, r, r', m, m')
    {
    }
  }
}
