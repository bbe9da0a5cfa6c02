/** Creating and destroying pools, and what they cost the heap. */
module PoolLifetime {
  import opened Arithmetic
  import opened Sizes
  import opened Memory
  import opened Slots
  import opened Heap
  import opened PoolImages
  import opened MemoryPools

  /** A request the entry check lets through: in true arithmetic its bytes fit in `size_t`. */
  ghost predicate Acceptable(hardened: bool, blockSize: size, blockCount: size) {
    IsValidBlockSize(blockSize) && blockCount > 0 && SlotStride(hardened, blockSize) * blockCount <= SIZE_MAX
  }

  /** The heap grants what a creation asks for. */
  ghost predicate CanCreate(heap: Heap, hardened: bool, blockSize: size, blockCount: size)
    reads heap
  {
    && Acceptable(hardened, blockSize, blockCount)
    && Grants(heap.oracle, heap.clock, heap.regions, SlotBytes(blockCount, SlotStride(hardened, blockSize)), POOL_STRUCT_BYTES)
  }

  /** The bytes of a pool's slots, and of its struct. */
  function SlotsBytes(hardened: bool, blockSize: size, blockCount: size): nat {
    (blockSize + if hardened then 16 else 0) * blockCount
  }

  /** The heap grants storage for the slots and then for the struct. */
  ghost predicate GrantsPool(heap: Heap, hardened: bool, blockSize: size, blockCount: size)
    reads heap
  {
    Grants(heap.oracle, heap.clock, heap.regions, SlotsBytes(hardened, blockSize, blockCount), 64)
  }

  /** What can be created: blocks of a positive multiple of 16 bytes, one at least, whose bytes the heap grants,
      and the struct's. */
  lemma CanCreateIff(heap: Heap, hardened: bool, blockSize: size, blockCount: size)
    ensures CanCreate(heap, hardened, blockSize, blockCount)
      <==> (exists k: nat :: k >= 1 && Multiple(blockSize, 16, k)) && blockCount >= 1
           && SlotsBytes(hardened, blockSize, blockCount) <= SIZE_MAX && GrantsPool(heap, hardened, blockSize, blockCount)
  {
    ValidBlockSizes(blockSize);
    if IsValidBlockSize(blockSize) && blockCount >= 1 {
      StrideShape(hardened, blockSize);
      var stride := SlotStride(hardened, blockSize);
      SlotBytesProduct(blockCount, stride);
      assert stride * blockCount == blockCount * stride;
      if hardened && blockSize + POOL_ALIGNMENT > SIZE_MAX {
        SaturatedNeverCreated(heap, blockSize, blockCount);
        MulMonotone(1, blockCount, blockSize + 16);
      }
    }
  }

  /** A granted request leaves room for the guard word: the saturated stride never gets this far. */
  lemma GrantedLayout(hardened: bool, blockSize: size, blockCount: size, regions: Regions, base: nat)
    requires Acceptable(hardened, blockSize, blockCount)
    requires FreshRegion(regions, base, SlotBytes(blockCount, SlotStride(hardened, blockSize)))
    ensures LayoutOk(Layout(hardened, blockSize, SlotStride(hardened, blockSize)))
    ensures SlotStride(hardened, blockSize) >= POOL_ALIGNMENT
  {
    var stride := SlotStride(hardened, blockSize);
    StrideShape(hardened, blockSize);
    SlotBytesProduct(blockCount, stride);
    MulMonotone(1, blockCount, stride);
    assert stride * blockCount == blockCount * stride;
  }

  /** The saturated stride can only ever be refused: by the product guard for two blocks or more, by
      the heap for one. */
  lemma SaturatedNeverCreated(heap: Heap, blockSize: size, blockCount: size)
    requires IsValidBlockSize(blockSize) && blockSize + POOL_ALIGNMENT > SIZE_MAX
    ensures !CanCreate(heap, true, blockSize, blockCount)
  {
    StrideShape(true, blockSize);
    SlotBytesProduct(blockCount, SIZE_MAX);
    if blockCount >= 2 {
      MulMonotone(2, blockCount, SIZE_MAX);
    } else if blockCount == 1 {
      NoRoomForEverything(heap.regions, heap.oracle(heap.clock, heap.regions, SIZE_MAX));
    }
  }

  /** The first chunk, just seeded, is a pool with all its slots free in address order. */
  lemma Created(l: Layout, mem: Bytes, c: Chunk)
    requires LayoutOk(l) && l.stride > 0 && ChunkOk(c, l.stride) && Mapped(mem, c.base, SlotBytes(c.count, l.stride))
    requires SeededTo(l, mem, c, c.count)
    ensures SlotsValid(l, [c], mem, c.base, ChunkSlots(0, c.count)) && Marked(l, [c], mem, ChunkSlots(0, c.count), {})
      && Stomps(l, [c], mem, ChunkSlots(0, c.count), {})
  {
    var free := ChunkSlots(0, c.count);
    assert [] + [c] == [c];
    ChunkSpells(l, [], mem, c);
    assert ChunkMapped([c][0], l.stride, mem);
    if l.hardened {
      forall t | IsSlot([c], t)
        ensures StampSays(l, [c], mem, free, t) && MarkSays(l, [c], mem, free, {}, t) && StompSays(l, [c], mem, free, {}, t)
      {
        assert Seeded(l, mem, c, t.index) && free[t.index] == t;
      }
    }
  }

  lemma CreatedSizes(counts: seq<nat>, count: size, stride: size)
    requires counts == [count] && count > 0 && stride > 0 && count * stride <= SIZE_MAX
    ensures Total(counts) == count && Bounded(count, stride)
  {
    AtMostQuotient(count, stride);
    var none: seq<nat> := [];
    assert counts[..0] == none;
    assert Total(none) == 0;
  }

  /** The two requests of an acceptable creation, as the heap answers them. */
  ghost function Creation(oracle: Oracle, t: nat, regions: Regions, hardened: bool, blockSize: size, blockCount: size): (nat, nat, Regions) {
    if Acceptable(hardened, blockSize, blockCount)
    then Acquired(oracle, t, regions, SlotBytes(blockCount, SlotStride(hardened, blockSize)), POOL_STRUCT_BYTES)
    else (0, t, regions)
  }

  ghost function BackingOf(pool: MemoryPool?): nat {
    if pool == null then 0 else pool.backing
  }

  /** memory_pool_create. Null exactly if the request is not acceptable or the heap refuses, and then
      the heap is as it was. A new pool vends its slots in address order and owns two regions. */
  method Create(heap: Heap, hardened: bool, blockSize: size, blockCount: size) returns (pool: MemoryPool?)
    requires heap.Valid()
    modifies heap
    ensures heap.Valid() && (pool != null <==> old(CanCreate(heap, hardened, blockSize, blockCount)))
    ensures pool != null <==>
      (&& (exists k: nat :: k >= 1 && Multiple(blockSize, 16, k)) && blockCount >= 1
       && SlotsBytes(hardened, blockSize, blockCount) <= SIZE_MAX && old(GrantsPool(heap, hardened, blockSize, blockCount)))
    ensures (BackingOf(pool), heap.clock, heap.regions) == old(Creation(heap.oracle, heap.clock, heap.regions, hardened, blockSize, blockCount))
    ensures pool == null ==> heap.regions == old(heap.regions) && heap.mem == old(heap.mem)
    ensures pool != null ==> fresh(pool) && pool.Valid() && New(pool, heap, hardened, blockSize, blockCount)
    ensures pool != null ==> Owns(pool, old(heap.regions), heap.regions)
    ensures Kept(old(heap.mem), heap.mem)
  {
    CanCreateIff(heap, hardened, blockSize, blockCount);
    if !IsValidBlockSize(blockSize) || blockCount == 0 {
      return null;
    }
    var stride := SlotStride(hardened, blockSize);
    OverflowGuardExact(stride, blockCount);
    if WouldOverflowProduct(stride, blockCount) {
      return null;
    }
    SlotBytesProduct(blockCount, stride);
    pool := Build(heap, hardened, blockSize, blockCount);
  }

  method Build(heap: Heap, hardened: bool, blockSize: size, blockCount: size) returns (pool: MemoryPool?)
    requires heap.Valid() && Acceptable(hardened, blockSize, blockCount)
    modifies heap
    ensures heap.Valid() && (pool != null <==> old(CanCreate(heap, hardened, blockSize, blockCount)))
    ensures (BackingOf(pool), heap.clock, heap.regions) == old(Creation(heap.oracle, heap.clock, heap.regions, hardened, blockSize, blockCount))
    ensures pool == null ==> heap.regions == old(heap.regions) && heap.mem == old(heap.mem)
    ensures pool != null ==> fresh(pool) && pool.Valid() && New(pool, heap, hardened, blockSize, blockCount)
    ensures pool != null ==> Owns(pool, old(heap.regions), heap.regions)
    ensures Kept(old(heap.mem), heap.mem)
  {
    hide MemoryPool.Valid, HeapOk, Acquired, Grants;
    var stride := SlotStride(hardened, blockSize);
    SlotBytesProduct(blockCount, stride);
    assert stride * blockCount == blockCount * stride;
    var base, addr := MemoryPool.AcquireTwo(heap, Mul(stride, blockCount), POOL_STRUCT_BYTES);
    if base == 0 {
      return null;
    }
    GrantedLayout(hardened, blockSize, blockCount, old(heap.regions), base);
    pool := Install(heap, hardened, addr, base, blockSize, blockCount);
    NewIsValid(pool);
  }

  /** What a creation makes. */
  ghost predicate New(pool: MemoryPool, heap: Heap, hardened: bool, blockSize: size, blockCount: size)
    reads pool
  {
    && pool.heap == heap && pool.hardened == hardened && pool.blockSize == blockSize && pool.blockCount == blockCount
    && pool.chunks == [Chunk(pool.backing, blockCount)] && pool.free == ChunkSlots(0, blockCount)
    && pool.head == pool.backing && pool.overflow == Nil && pool.growFactor == 0 && pool.growCount == 0
    && pool.reports == [] && pool.tainted == {} == pool.stomped && pool.live == 0 && pool.peak == 0
  }

  /** The regions the pool has to give back are just those added to the heap. */
  ghost predicate Owns(pool: MemoryPool, before: Regions, after: Regions)
    reads pool
  {
    pool.Regions() !! before.Keys && pool.Regions() <= after.Keys && after - pool.Regions() == before
  }

  lemma NewIsValid(pool: MemoryPool)
    requires New(pool, pool.heap, pool.hardened, pool.blockSize, pool.blockCount) && pool.heap.Valid()
    requires LayoutOk(pool.Lay()) && pool.Stride() >= POOL_ALIGNMENT && ChunkOk(Chunk(pool.backing, pool.blockCount), pool.Stride())
    requires pool.blockCount * pool.Stride() <= SIZE_MAX && pool.self != pool.backing
    requires pool.self in pool.heap.regions && pool.heap.regions[pool.self] == POOL_STRUCT_BYTES
    requires pool.backing in pool.heap.regions
    requires pool.heap.regions[pool.backing] == SlotBytes(pool.blockCount, pool.Stride())
    requires Mapped(pool.heap.mem, pool.backing, SlotBytes(pool.blockCount, pool.Stride()))
    requires SeededTo(pool.Lay(), pool.heap.mem, Chunk(pool.backing, pool.blockCount), pool.blockCount)
    ensures pool.Valid()
  {
    Created(pool.Lay(), pool.heap.mem, Chunk(pool.backing, pool.blockCount));
    assert Counts(pool.chunks) == [pool.blockCount];
    CreatedSizes(Counts(pool.chunks), pool.blockCount, pool.Stride());
  }

  method Install(heap: Heap, hardened: bool, addr: nat, base: nat, blockSize: size, blockCount: size) returns (pool: MemoryPool)
    requires heap.Valid() && LayoutOk(Layout(hardened, blockSize, SlotStride(hardened, blockSize)))
    requires SlotStride(hardened, blockSize) >= POOL_ALIGNMENT && ChunkOk(Chunk(base, blockCount), SlotStride(hardened, blockSize))
    requires Mapped(heap.mem, base, SlotBytes(blockCount, SlotStride(hardened, blockSize)))
    modifies heap`mem
    ensures fresh(pool) && New(pool, heap, hardened, blockSize, blockCount) && pool.self == addr && pool.backing == base
    ensures heap.Valid() && OnlyBytes(old(heap.mem), heap.mem, base, SlotBytes(blockCount, pool.Stride()))
    ensures SeededTo(pool.Lay(), heap.mem, Chunk(base, blockCount), blockCount)
  {
    pool := new MemoryPool(heap, hardened, addr, base, blockSize, blockCount);
    pool.InitializeFreeList(base, blockCount);
    WriteKeeps(heap.regions, old(heap.mem), heap.mem);
  }

  /** memory_pool_create_dynamic. */
  method CreateDynamic(heap: Heap, hardened: bool, blockSize: size, blockCount: size, factor: size) returns (pool: MemoryPool?)
    requires heap.Valid()
    modifies heap
    ensures heap.Valid() && (pool != null <==> factor >= 2 && old(CanCreate(heap, hardened, blockSize, blockCount)))
    ensures pool != null <==>
      (&& factor >= 2 && (exists k: nat :: k >= 1 && Multiple(blockSize, 16, k)) && blockCount >= 1
       && SlotsBytes(hardened, blockSize, blockCount) <= SIZE_MAX && old(GrantsPool(heap, hardened, blockSize, blockCount)))
    ensures factor < 2 ==> heap.clock == old(heap.clock)
    ensures factor >= 2 ==> (BackingOf(pool), heap.clock, heap.regions) == old(Creation(heap.oracle, heap.clock, heap.regions, hardened, blockSize, blockCount))
    ensures pool != null ==> pool.chunks == [Chunk(pool.backing, blockCount)] && pool.growCount == 0
    ensures pool == null ==> heap.regions == old(heap.regions) && heap.mem == old(heap.mem)
    ensures pool != null ==> fresh(pool) && pool.Valid() && pool.heap == heap && pool.hardened == hardened
    ensures pool != null ==> pool.blockSize == blockSize && pool.Now() == View([blockCount], ChunkSlots(0, blockCount))
    ensures pool != null ==> pool.growFactor == factor && pool.reports == [] && pool.tainted == {} == pool.stomped && pool.live == 0 == pool.peak
    ensures pool != null ==> Owns(pool, old(heap.regions), heap.regions)
    ensures Kept(old(heap.mem), heap.mem)
  {
    if factor < 2 {
      return null;
    }
    pool := Create(heap, hardened, blockSize, blockCount);
    if pool != null {
      assert Counts(pool.chunks) == [blockCount];
      pool.growFactor := factor;
    }
  }

  // ---- What a pool costs -------------------------------------------------------------------

  lemma {:induction false} Pow2Exceeds(n: nat)
    ensures n >= 61 ==> Pow(2, n) > SIZE_MAX / 8
    decreases n
  {
    if n == 61 {
      Pow2Of61();
    } else if n > 61 {
      Pow2Exceeds(n - 1);
    }
  }

  lemma Pow2Of61()
    ensures Pow(2, 61) == 0x2000_0000_0000_0000
  {
    PowSum(1, 1);
    PowSum(2, 2);
    PowSum(4, 4);
    PowSum(8, 8);
    PowSum(16, 16);
    PowSum(32, 16);
    PowSum(48, 8);
    PowSum(56, 4);
    PowSum(60, 1);
    assert Pow(2, 1) == 2 * Pow(2, 0);
  }

  lemma {:induction false} PowSum(a: nat, b: nat)
    ensures Pow(2, a + b) == Pow(2, a) * Pow(2, b)
    decreases a
  {
    if a > 0 {
      PowSum(a - 1, b);
      assert 2 * (Pow(2, a - 1) * Pow(2, b)) == 2 * Pow(2, a - 1) * Pow(2, b);
    }
  }

  /** In every state of every pool: capacity is the first count times the factor to the number of
      growths; the growths are logarithmic in it, so that a range check passes over at most 61 chunks;
      and it is no more than what was asked for, or the factor times the most blocks ever out. */
  lemma Capacity(pool: MemoryPool)
    requires pool.Valid()
    ensures var total := Total(Counts(pool.chunks));
      && total == pool.blockCount * Pow(pool.growFactor, pool.growCount) && Pow(2, pool.growCount) <= total
      && pool.growCount == |pool.chunks| - 1 <= 60
      && (total <= pool.blockCount || total <= pool.growFactor * pool.peak)
      && |pool.free| + pool.live == total
  {
    var counts := Counts(pool.chunks);
    pool.TotalFits();
    GeometricTotal(counts, pool.growFactor);
    if pool.growFactor >= 2 {
      GrowthsLogarithmic(counts, pool.growFactor);
    }
    Pow2Exceeds(pool.growCount);
  }

  /** When an exhausted pool can grow: it is dynamic, the bytes of the slots it would add fit in `size_t`, and the heap
      grants them and a descriptor. */
  lemma CanGrowIff(pool: MemoryPool)
    requires pool.Valid()
    ensures var total, stride := Total(Counts(pool.chunks)), pool.blockSize + if pool.hardened then 16 else 0;
      pool.CanGrow() <==> (&& pool.growFactor != 0 && GrowthBytes(total, pool.growFactor, stride) <= SIZE_MAX
                           && Grants(pool.heap.oracle, pool.heap.clock, pool.heap.regions, GrowthBytes(total, pool.growFactor, stride), 24))
  {
    FactorAndStride(pool);
    hide MemoryPool.Valid, Grants;
    if pool.growFactor >= 2 {
      SlotBytesProduct(Added(Total(Counts(pool.chunks)), pool.growFactor), pool.Stride());
    }
  }

  /** What a growth of a pool of `total` slots asks of the heap. */
  function GrowthBytes(total: nat, factor: nat, stride: nat): nat
    requires factor >= 1
  {
    total * (factor - 1) * stride
  }

  lemma FactorAndStride(pool: MemoryPool)
    requires pool.Valid()
    ensures pool.Stride() == pool.blockSize + (if pool.hardened then 16 else 0)
    ensures pool.growFactor >= 2 || pool.growFactor == 0
    ensures pool.growFactor >= 2 ==> Added(Total(Counts(pool.chunks)), pool.growFactor) >= 0
  {
    FactorOk(pool);
    hide MemoryPool.Valid, Geometric, Bounded;
    StrideShape(pool.hardened, pool.blockSize);
    if pool.growFactor >= 2 {
      MulMonotone(0, Total(Counts(pool.chunks)), pool.growFactor - 1);
    }
  }

  lemma FactorOk(pool: MemoryPool)
    requires pool.SizesOk()
    ensures LayoutOk(pool.Lay()) && (pool.growFactor >= 2 || pool.growFactor == 0)
  {
  }

  lemma FewChunks(pool: MemoryPool)
    requires pool.Valid()
    ensures Lists(pool.overflow, pool.chunks) && 1 <= |pool.chunks| <= 61 && pool.growCount == |pool.chunks| - 1
  {
    Capacity(pool);
  }

  /** memory_pool_metadata_bytes: the struct and a descriptor for each growth. The sum never wraps. */
  method MetadataBytes(pool: MemoryPool?) returns (total: size)
    requires pool != null ==> pool.Valid()
    ensures pool == null ==> total == 0
    ensures pool != null ==> total == 64 + 24 * pool.growCount
  {
    if pool == null {
      return 0;
    }
    hide MemoryPool.Valid;
    FewChunks(pool);
    total := POOL_STRUCT_BYTES;
    var chunk := pool.overflow;
    ghost var k := |pool.chunks|;
    assert pool.chunks[..k] == pool.chunks;
    while chunk.Cons?
      invariant 1 <= k <= |pool.chunks| && Lists(chunk, pool.chunks[..k])
      invariant total == POOL_STRUCT_BYTES + CHUNK_BYTES * (|pool.chunks| - k)
      decreases chunk
    {
      assert pool.chunks[..k][..k - 1] == pool.chunks[..k - 1];
      total := Add(total, CHUNK_BYTES);
      chunk := chunk.next;
      k := k - 1;
    }
  }

  // ---- Many pools on one heap --------------------------------------------------------------

  lemma {:induction false} ChunkOwned(list: ChunkList, chunks: seq<Chunk>, k: nat)
    requires Lists(list, chunks) && 0 < k < |chunks|
    ensures chunks[k].base in DescriptorAddrs(list)
    decreases list
  {
    match list {
      case Nil =>
      case Cons(_, _, _, next) =>
        if k < |chunks| - 1 {
          ChunkOwned(next, chunks[..|chunks| - 1], k);
        }
    }
  }

  /** The regions of `rs` are still there, with the bytes they had. */
  ghost predicate Spared(rs: set<nat>, r: Regions, r': Regions, m: Bytes, m': Bytes) {
    forall a {:trigger RegionSpared(a, r, r', m, m')} :: a in rs ==> RegionSpared(a, r, r', m, m')
  }

  ghost predicate RegionSpared(a: nat, r: Regions, r': Regions, m: Bytes, m': Bytes) {
    a in r ==> a in r' && r'[a] == r[a] && Agree(m, m', a, a + r[a])
  }

  lemma ChunksSpared(self: nat, backing: nat, count: size, stride: size, list: ChunkList, chunks: seq<Chunk>,
                     r: Regions, r': Regions, m: Bytes, m': Bytes)
    requires ListValid(self, backing, count, stride, list, chunks, r)
    requires Spared({self, backing} + DescriptorAddrs(list), r, r', m, m')
    ensures ListValid(self, backing, count, stride, list, chunks, r') && ChunksAgree(chunks, stride, m, m')
  {
    assert RegionSpared(self, r, r', m, m') && RegionSpared(backing, r, r', m, m');
    forall a | a in DescriptorAddrs(list)
      ensures a in r ==> a in r' && r'[a] == r[a]
    {
      assert RegionSpared(a, r, r', m, m');
    }
    OwnedKept(list, r, r', stride);
    forall k | 0 <= k < |chunks|
      ensures ChunkAgrees(chunks[k], stride, m, m')
    {
      ChunkRegions(list, chunks, r, stride, k);
      if k > 0 {
        ChunkOwned(list, chunks, k);
      }
      assert RegionSpared(chunks[k].base, r, r', m, m');
    }
  }

  /** A pool stays valid whatever happens to the rest of the heap. */
  twostate lemma Undisturbed(pool: MemoryPool)
    requires old(pool.Valid()) && pool.heap.Valid() && unchanged(pool)
    requires Spared(pool.Regions(), old(pool.heap.regions), pool.heap.regions, old(pool.heap.mem), pool.heap.mem)
    ensures pool.Valid()
  {
    ChunksSpared(pool.self, pool.backing, pool.blockCount, pool.Stride(), pool.overflow, pool.chunks,
                 old(pool.heap.regions), pool.heap.regions, old(pool.heap.mem), pool.heap.mem);
    SlotsUndisturbed(pool.Lay(), pool.chunks, old(pool.heap.mem), pool.heap.mem, pool.head, pool.free,
                     pool.tainted, pool.stomped);
  }

  // ---- Destruction -------------------------------------------------------------------------

  method ReleaseChunks(heap: Heap, list: ChunkList, ghost stride: nat)
    requires heap.Valid() && Owned(list, heap.regions, stride)
    modifies heap`regions, heap`mem
    ensures heap.Valid() && heap.regions == old(heap.regions) - DescriptorAddrs(list) && Kept(heap.mem, old(heap.mem))
  {
    var chunk := list;
    ghost var gone: set<nat> := {};
    while chunk.Cons?
      invariant heap.Valid() && Owned(chunk, heap.regions, stride) && Kept(heap.mem, old(heap.mem))
      invariant heap.regions == old(heap.regions) - gone && gone + DescriptorAddrs(chunk) == DescriptorAddrs(list)
      decreases chunk
    {
      var next := chunk.next;
      ghost var r := heap.regions;
      heap.OperatorDelete(chunk.backing);
      heap.OperatorDelete(chunk.addr);
      OwnedKept(next, r, heap.regions, stride);
      gone := gone + {chunk.addr, chunk.backing};
      chunk := next;
    }
  }

  /** memory_pool_destroy: the heap is left with exactly the regions that were not the pool's. */
  method Destroy(pool: MemoryPool?)
    requires pool != null ==> pool.Valid()
    modifies if pool == null then {} else {pool.heap}
    ensures pool != null ==> pool.heap.Valid() && pool.heap.regions == old(pool.Rest()) && Kept(pool.heap.mem, old(pool.heap.mem))
    ensures pool != null ==> pool.heap.clock == old(pool.heap.clock)
  {
    if pool == null {
      return;
    }
    ReleaseChunks(pool.heap, pool.overflow, pool.Stride());
    pool.heap.OperatorDelete(pool.backing);
    pool.heap.OperatorDelete(pool.self);
  }
}
