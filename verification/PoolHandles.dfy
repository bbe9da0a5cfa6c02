/** Many `Pool` objects over one heap: construction, moves, use and destruction. */
module PoolHandles {
  import opened Sizes
  import opened Memory
  import opened Slots
  import opened Heap
  import opened PoolImages
  import opened MemoryPools
  import opened PoolLifetime
  import opened FreeLists

  /** The bytes of the regions `rest` are as they were. */
  ghost predicate RestSpared(rest: Regions, m: Bytes, m': Bytes) {
    forall a :: a in rest ==> Agree(m, m', a, a + rest[a])
  }

  lemma SparedSame(rest: Regions, m: Bytes)
    ensures RestSpared(rest, m, m)
  {
  }

  lemma SparedThen(rest: Regions, m: Bytes, m1: Bytes, m2: Bytes)
    requires RestSpared(rest, m, m1) && RestSpared(rest, m1, m2)
    ensures RestSpared(rest, m, m2)
  {
    forall a | a in rest
      ensures Agree(m, m2, a, a + rest[a])
    {
      assert Agree(m, m1, a, a + rest[a]) && Agree(m1, m2, a, a + rest[a]);
    }
  }

  /** The slots of a pool are inside its own regions. */
  lemma SlotClear(pool: MemoryPool, s: Slot, r: nat)
    requires pool.Valid() && IsSlot(pool.chunks, s) && r in pool.Rest()
    ensures Disjoint(pool.AddrOf(s), pool.Stride(), r, pool.heap.regions[r])
  {
    var c, regions := pool.chunks[s.chunk], pool.heap.regions;
    SlotInChunk(pool.chunks, pool.Stride(), s);
    ChunkRegions(pool.overflow, pool.chunks, regions, pool.Stride(), s.chunk);
    if s.chunk > 0 {
      ChunkOwned(pool.overflow, pool.chunks, s.chunk);
    }
    assert c.base in pool.Regions() && r != c.base;
    assert RegionsApart(regions, r, c.base);
  }

  lemma WriteConfined(pool: MemoryPool, s: Slot, m: Bytes, m': Bytes, at: nat, n: nat)
    requires pool.Valid() && IsSlot(pool.chunks, s) && KeptBut(m, m', at, n)
    requires n > 0 ==> pool.AddrOf(s) <= at && at + n <= pool.AddrOf(s) + pool.Stride()
    ensures RestSpared(pool.Rest(), m, m')
  {
    var rest := pool.Rest();
    forall a | a in rest
      ensures Agree(m, m', a, a + rest[a])
    {
      SlotClear(pool, s, a);
    }
  }

  /** An allocation touches no other region, apart from what the heap grants. */
  method Allocate(pool: MemoryPool) returns (p: nat)
    requires pool.Valid()
    modifies pool, pool.heap
    ensures pool.Valid() && pool.Rest() == old(pool.Rest())
    ensures RestSpared(pool.Rest(), old(pool.heap.mem), pool.heap.mem)
    ensures p == 0 ==> pool.Unchanged() && pool.growCount == old(pool.growCount)
    ensures p != 0 ==> pool.Popped(p, Ready(old(pool.Now()), pool.growFactor))
    ensures KeptBut(old(pool.heap.mem), pool.heap.mem, p + pool.blockSize, if pool.hardened && p != 0 then GUARD_BYTES else 0)
    ensures old(pool.chunks) <= pool.chunks && pool.growFactor == old(pool.growFactor)
    ensures old(pool.growCount) <= pool.growCount <= old(pool.growCount) + 1
    ensures pool.Image() == PoppedImage(pool.Terms(), old(pool.Image())) && p == VendedAddress(pool.Terms(), old(pool.Image()))
    ensures p == 0 <==> PrimedImage(pool.Terms(), old(pool.Image())).free == []
    ensures p == 0 <==> old(pool.free) == [] && !old(pool.CanGrow())
  {
    hide MemoryPool.Valid;
    pool.Basics();
    p := MemoryPool.Alloc(pool);
    pool.Basics();
    assert |pool.Now().counts| == |pool.chunks| && |old(pool.Now()).counts| == |old(pool.chunks)|;
    if p != 0 {
      WriteConfined(pool, Ready(old(pool.Now()), pool.growFactor).free[0], old(pool.heap.mem), pool.heap.mem,
                    p + pool.blockSize, if pool.hardened then GUARD_BYTES else 0);
    }
  }

  /** A free touches no other region. */
  method Deallocate(pool: MemoryPool, p: size)
    requires pool.Valid() && pool.MayFree(p)
    modifies pool, pool.heap
    ensures pool.Freed(p) && pool.Rest() == old(pool.Rest()) && pool.Image() == PushedImage(pool.Terms(), old(pool.Image()), p)
    ensures RestSpared(pool.Rest(), old(pool.heap.mem), pool.heap.mem)
  {
    hide MemoryPool.Valid;
    MemoryPool.Free(pool, p);
    if IsSlotAddress(pool.chunks, pool.Stride(), p) {
      WriteConfined(pool, SlotAt(pool.chunks, pool.Stride(), p), old(pool.heap.mem), pool.heap.mem, p, pool.Stride());
    }
  }

  lemma NewOwned(mine: set<nat>, r: Regions, r': Regions)
    requires mine !! r.Keys && mine <= r'.Keys && r' - mine == r
    ensures mine == r'.Keys - r.Keys
  {
    forall a
      ensures a in mine <==> a in r'.Keys - r.Keys
    {
      assert a in r' - mine <==> a in r;
    }
  }

  /** What a pool owns more after an allocation is what the heap has more. */
  lemma OwnedGrown(k: Terms, im: Image, r: Regions, r': Regions, mine: set<nat>, mine': set<nat>)
    requires im.regions == r && PoppedImage(k, im).regions == r' && mine <= r.Keys && mine' <= r'.Keys
    requires r' - mine' == r - mine
    ensures mine' == mine + (r'.Keys - r.Keys)
  {
    forall a
      ensures a in mine' <==> a in mine + (r'.Keys - r.Keys)
    {
      assert a in r' - mine' <==> a in r - mine;
      assert a in r ==> a in r';
    }
  }

  // ---- Who owns which region ---------------------------------------------------------------

  ghost function Union(owned: seq<set<nat>>): set<nat> {
    set i: nat, r: nat | i < |owned| && r in owned[i] :: r
  }

  ghost predicate OwnedOk(owned: seq<set<nat>>, regions: Regions, base: Regions) {
    && (forall i :: 0 <= i < |owned| ==> owned[i] <= regions.Keys)
    && (forall i, j :: 0 <= i < j < |owned| ==> owned[i] !! owned[j])
    && regions - Union(owned) == base
  }

  /** What one owner did to the heap, if it left the regions that were not its own alone, is nobody
      else's concern. */
  lemma OwnerChanged(owned: seq<set<nat>>, i: nat, mine: set<nat>, r: Regions, r': Regions, base: Regions)
    requires OwnedOk(owned, r, base) && i < |owned| && mine <= r'.Keys && r' - mine == r - owned[i]
    ensures OwnedOk(owned[i := mine], r', base)
  {
    var more := owned[i := mine];
    forall k | 0 <= k < |owned| && k != i
      ensures owned[k] <= (r - owned[i]).Keys && owned[k] !! mine && owned[k] <= r'.Keys
    {
      assert owned[k] !! owned[i];
    }
    assert (r' - Union(more)).Keys == base.Keys by { UnionChanged(owned, i, mine, r, r'); }
    forall a | a in base
      ensures (r' - Union(more))[a] == base[a]
    {
      assert a in r' - mine;
    }
  }

  /** What spares all regions but one owner's spares those that are nobody's. */
  lemma NobodysSpared(owned: seq<set<nat>>, i: nat, r: Regions, base: Regions, m: Bytes, m': Bytes)
    requires OwnedOk(owned, r, base) && i < |owned| && RestSpared(r - owned[i], m, m')
    ensures RestSpared(base, m, m')
  {
    forall a | a in base
      ensures Agree(m, m', a, a + base[a])
    {
      assert a in r - Union(owned) && a !in owned[i];
      assert a in r - owned[i];
    }
  }

  lemma UnionMember(owned: seq<set<nat>>, i: nat, mine: set<nat>, a: nat)
    requires i < |owned| && forall k :: 0 <= k < |owned| && k != i ==> owned[k] !! owned[i]
    ensures a in Union(owned[i := mine]) <==> a in mine || (a in Union(owned) && a !in owned[i])
  {
    var more := owned[i := mine];
    if k :| 0 <= k < |more| && a in more[k] {
      assert k != i ==> a in owned[k];
    }
    if a in mine {
      assert a in more[i];
    }
    if k :| 0 <= k < |owned| && a in owned[k] {
      assert k != i ==> a in more[k];
    }
  }

  lemma UnionChanged(owned: seq<set<nat>>, i: nat, mine: set<nat>, r: Regions, r': Regions)
    requires i < |owned| && r' - mine == r - owned[i]
    requires forall k :: 0 <= k < |owned| && k != i ==> owned[k] !! owned[i] && owned[k] !! mine
    ensures (r' - Union(owned[i := mine])).Keys == (r - Union(owned)).Keys
  {
    var more := owned[i := mine];
    forall a
      ensures a in r' && a !in Union(more) <==> a in r && a !in Union(owned)
    {
      assert a in r' - mine <==> a in r - owned[i];
      assert a in owned[i] ==> a in Union(owned);
      UnionMember(owned, i, mine, a);
    }
  }

  lemma OthersSpared(rs: set<nat>, mine: set<nat>, mine': set<nat>, r: Regions, r': Regions, m: Bytes, m': Bytes)
    requires rs !! mine && r' - mine' == r - mine && RestSpared(r - mine, m, m')
    ensures Spared(rs, r, r', m, m')
  {
    forall a | a in rs
      ensures RegionSpared(a, r, r', m, m')
    {
      if a in r {
        assert a in r - mine;
        assert a in r' - mine';
      }
    }
  }

  /** What is still a region after a release still has its bytes. */
  lemma StillThere(heap: Heap, m: Bytes)
    requires heap.Valid() && Kept(heap.mem, m)
    ensures RestSpared(heap.regions, m, heap.mem)
  {
    forall a | a in heap.regions
      ensures Agree(m, heap.mem, a, a + heap.regions[a])
    {
      assert RegionMapped(heap.regions, heap.mem, a);
    }
  }

  lemma OwnedMoved(owned: seq<set<nat>>, i: nat, j: nat, r: Regions, base: Regions)
    requires OwnedOk(owned, r, base) && i < |owned| && j < |owned| && i != j && owned[i] == {}
    ensures OwnedOk(owned[i := owned[j]][j := {}], r, base)
  {
    var more := owned[i := owned[j]][j := {}];
    forall a
      ensures a in Union(more) <==> a in Union(owned)
    {
      if k :| 0 <= k < |owned| && a in owned[k] {
        assert a in more[if k == j then i else k];
      }
      if k :| 0 <= k < |more| && a in more[k] {
        assert a in owned[if k == i then j else k];
      }
    }
    assert Union(more) == Union(owned);
  }

  // ---- The course of many pools ------------------------------------------------------------

  /** What a program may do with its `Pool` objects, by number: construct one (a fixed pool for factor
      0), move one to another or to itself, allocate, free any address, destroy. */
  datatype Command =
    | Make(i: nat, hardened: bool, blockSize: size, blockCount: size, factor: size)
    | Move(to: nat, from: nat)
    | Acquire(i: nat)
    | Release(i: nat, p: size)
    | End(i: nat)

  /** What an object holds: nothing, or a pool, with the regions it has to give back. */
  datatype Share = Nothing | Share(chunks: seq<Chunk>, free: seq<Slot>, factor: nat, stride: nat, mine: set<nat>)

  /** All objects, and the heap. */
  datatype Course = Course(pools: seq<Share>, clock: nat, regions: Regions)

  ghost function Made(oracle: Oracle, w: Course, c: Command): Course
    requires c.Make? && c.i < |w.pools|
  {
    if w.pools[c.i] != Nothing || c.factor == 1 then w else
      var (base, t, r) := Creation(oracle, w.clock, w.regions, c.hardened, c.blockSize, c.blockCount);
      if base == 0 then w.(clock := t)
      else Course(w.pools[c.i := NewShare(base, c, r.Keys - w.regions.Keys)], t, r)
  }

  ghost function NewShare(base: nat, c: Command, mine: set<nat>): Share
    requires c.Make?
  {
    Share([Chunk(base, c.blockCount)], ChunkSlots(0, c.blockCount), c.factor, SlotStride(c.hardened, c.blockSize), mine)
  }

  ghost function Ended(w: Course, i: nat): Course
    requires i < |w.pools|
  {
    if w.pools[i] == Nothing then w else Course(w.pools[i := Nothing], w.clock, w.regions - w.pools[i].mine)
  }

  ghost function Moved(w: Course, to: nat, from: nat): Course
    requires to < |w.pools| && from < |w.pools|
  {
    if to == from then w else
      var after := Ended(w, to);
      after.(pools := after.pools[to := after.pools[from]][from := Nothing])
  }

  ghost function TermsOf(oracle: Oracle, h: Share): Terms
    requires h.Share?
  {
    Terms(oracle, h.factor, h.stride)
  }

  ghost function ImageIn(w: Course, h: Share): Image
    requires h.Share?
  {
    Image(h.chunks, h.free, w.clock, w.regions)
  }

  /** An allocation; the regions a growth adds are the pool's to give back. */
  ghost function Taken(oracle: Oracle, w: Course, i: nat): Course
    requires i < |w.pools|
  {
    var h := w.pools[i];
    if h == Nothing then w else
      var im := PoppedImage(TermsOf(oracle, h), ImageIn(w, h));
      var h' := h.(chunks := im.chunks, free := im.free, mine := h.mine + (im.regions.Keys - w.regions.Keys));
      Course(w.pools[i := h'], im.clock, im.regions)
  }

  ghost function GivenBack(oracle: Oracle, w: Course, i: nat, p: nat): Course
    requires i < |w.pools|
  {
    var h := w.pools[i];
    if h == Nothing then w
    else w.(pools := w.pools[i := h.(free := PushedImage(TermsOf(oracle, h), ImageIn(w, h), p).free)])
  }

  /** What one command comes to; one that names no object comes to nothing. */
  ghost function Commanded(oracle: Oracle, w: Course, c: Command): Course {
    var n := |w.pools|;
    match c
    case Make(i, _, _, _, _) => if i < n then Made(oracle, w, c) else w
    case Move(to, from) => if to < n && from < n then Moved(w, to, from) else w
    case Acquire(i) => if i < n then Taken(oracle, w, i) else w
    case Release(i, p) => if i < n then GivenBack(oracle, w, i, p) else w
    case End(i) => if i < n then Ended(w, i) else w
  }

  /** The course of the first `k` commands. */
  ghost function CourseAfter(oracle: Oracle, w: Course, commands: seq<Command>, k: nat): Course
    requires k <= |commands|
  {
    if k == 0 then w else Commanded(oracle, CourseAfter(oracle, w, commands, k - 1), commands[k - 1])
  }

  /** `n` objects that hold nothing. */
  ghost function Empty(n: nat, clock: nat, regions: Regions): Course {
    Course(seq(n, i requires 0 <= i < n => Nothing), clock, regions)
  }

  // ---- Pool objects ------------------------------------------------------------------------

  ghost function HeldBy(pool: MemoryPool?, mine: set<nat>): Share
    reads if pool == null then {} else {pool}
  {
    if pool == null then Nothing else Share(pool.chunks, pool.free, pool.growFactor, pool.Stride(), mine)
  }

  /** A handle holds a valid pool whose regions are `mine`, or nothing. */
  ghost predicate Holds(heap: Heap, pool: MemoryPool?, mine: set<nat>, share: Share)
    reads heap, if pool == null then {} else {pool}
  {
    && share == HeldBy(pool, mine)
    && if pool == null then mine == {} else pool.heap == heap && pool.Valid() && mine == pool.Regions()
  }

  /** Any number of `Pool` objects over one heap. A `Pool` is nothing but its `handle_`, so object `i`
      is entry `i` of `handles`; null is a moved-from one. */
  class Owners {
    const heap: Heap
    var handles: seq<MemoryPool?>
    /** The regions each object has to give back. */
    ghost var owned: seq<set<nat>>
    /** What each object holds. */
    ghost var shares: seq<Share>
    /** The heap without any of them. */
    ghost const base: Regions

    constructor (heap: Heap, n: nat)
      requires heap.Valid()
      ensures this.heap == heap && Valid() && base == heap.regions
      ensures |handles| == n && forall i :: 0 <= i < n ==> handles[i] == null
      ensures Standing() == Empty(n, heap.clock, heap.regions)
    {
      this.heap, this.base := heap, heap.regions;
      handles := seq(n, i requires 0 <= i < n => null);
      owned := seq(n, i requires 0 <= i < n => {});
      shares := seq(n, i requires 0 <= i < n => Nothing);
    }

    ghost predicate HandleOk(i: nat)
      requires i < |handles| == |owned| == |shares|
      reads this, heap, if handles[i] == null then {} else {handles[i]}
    {
      Holds(heap, handles[i], owned[i], shares[i])
    }

    /** What the objects and the heap are. */
    ghost function Standing(): Course
      reads this, heap
    {
      Course(shares, heap.clock, heap.regions)
    }

    /** Every object's pool is valid, no two share a region, and all others are those of `base`. */
    ghost predicate Valid()
      reads this, heap, set i | 0 <= i < |handles| && handles[i] != null :: handles[i]
    {
      && heap.Valid() && |owned| == |handles| == |shares| && OwnedOk(owned, heap.regions, base)
      && forall i {:trigger HandleOk(i)} :: 0 <= i < |handles| ==> HandleOk(i)
    }

    /** What happened to object `i` alone keeps the invariant of the others. */
    twostate lemma Settled(i: nat)
      requires old(Valid()) && heap.Valid() && i < |handles| == |owned| == |shares| && |handles| == |old(handles)|
      requires handles == old(handles)[i := handles[i]] && owned == old(owned)[i := owned[i]]
      requires shares == old(shares)[i := shares[i]]
      requires owned[i] <= heap.regions.Keys && heap.regions - owned[i] == old(heap.regions) - old(owned)[i]
      requires RestSpared(old(heap.regions) - old(owned)[i], old(heap.mem), heap.mem)
      requires forall k :: 0 <= k < |handles| && k != i && handles[k] != null ==> unchanged(handles[k])
      requires HandleOk(i)
      ensures Valid() && RestSpared(base, old(heap.mem), heap.mem)
    {
      hide MemoryPool.Valid, HeapOk, Spared, RestSpared;
      NobodysSpared(old(owned), i, old(heap.regions), base, old(heap.mem), heap.mem);
      OwnerChanged(old(owned), i, owned[i], old(heap.regions), heap.regions, base);
      forall k | 0 <= k < |handles|
        ensures HandleOk(k)
      {
        if k != i {
          assert old(HandleOk(k));
          OthersSpared(owned[k], old(owned)[i], owned[i], old(heap.regions), heap.regions, old(heap.mem), heap.mem);
          OtherKept(k);
        }
      }
    }

    twostate lemma OtherKept(k: nat)
      requires k < |handles| == |owned| == |shares| && |old(handles)| == |handles| && |old(owned)| == |owned| && |old(shares)| == |shares|
      requires handles[k] == old(handles)[k] && owned[k] == old(owned)[k] && shares[k] == old(shares)[k]
      requires old(HandleOk(k)) && heap.Valid()
      requires handles[k] != null ==> unchanged(handles[k])
      requires Spared(owned[k], old(heap.regions), heap.regions, old(heap.mem), heap.mem)
      ensures HandleOk(k)
    {
      if handles[k] != null {
        Undisturbed(handles[k]);
      }
    }

    lemma AsMany()
      requires Valid()
      ensures |Standing().pools| == |handles| == |shares|
    {
    }

    lemma OthersDiffer(i: nat)
      requires Valid() && i < |handles| && handles[i] != null
      ensures forall k :: 0 <= k < |handles| && k != i ==> handles[k] != handles[i]
      ensures handles[i].heap == heap && handles[i].Valid() && owned[i] == handles[i].Regions()
      ensures shares[i] == HeldBy(handles[i], owned[i])
    {
      assert HandleOk(i);
      forall k | 0 <= k < |handles| && k != i
        ensures handles[k] != handles[i]
      {
        assert HandleOk(k);
        assert handles[i].self in owned[i];
      }
    }

    /** try_allocate of object `i`. */
    method AllocateAt(i: nat) returns (p: nat)
      requires Valid() && i < |handles|
      modifies heap, handles, this`owned, this`shares
      ensures Valid() && Standing() == Taken(heap.oracle, old(Standing()), i)
      ensures RestSpared(base, old(heap.mem), heap.mem)
      ensures handles[i] == null ==> p == 0
      ensures handles[i] != null ==> (p == 0 <==> old(handles[i].free) == [] && !old(handles[i].CanGrow()))
      ensures handles[i] != null && p != 0 ==> handles[i].Popped(p, Ready(old(handles[i].Now()), handles[i].growFactor))
    {
      hide MemoryPool.Valid, HeapOk, PrimedImage, PoppedImage, VendedAddress, KeptBut, MemoryPool.CanGrow;
      hide RestSpared, MemoryPool.Unchanged, MemoryPool.Popped, OwnedOk, Ready, GrownImage, DescriptorAddrs;
      var pool := handles[i];
      assert HandleOk(i);
      SparedSame(base, heap.mem);
      if pool == null {
        return 0;
      }
      OthersDiffer(i);
      ghost var r, mine := heap.regions, pool.Regions();
      pool.Basics();
      p := Allocate(pool);
      pool.Basics();
      OwnedGrown(pool.Terms(), old(pool.Image()), r, heap.regions, mine, pool.Regions());
      owned := owned[i := pool.Regions()];
      shares := shares[i := HeldBy(pool, pool.Regions())];
      Settled(i);
    }

    /** deallocate of object `i`. */
    method DeallocateAt(i: nat, p: size)
      requires Valid() && i < |handles| && (handles[i] != null ==> handles[i].MayFree(p))
      modifies heap, handles, this`shares
      ensures Valid() && (handles[i] != null ==> handles[i].Freed(p)) && Standing() == GivenBack(heap.oracle, old(Standing()), i, p)
      ensures RestSpared(base, old(heap.mem), heap.mem)
    {
      hide MemoryPool.Valid, HeapOk;
      var pool := handles[i];
      assert HandleOk(i);
      if pool == null {
        return;
      }
      OthersDiffer(i);
      Deallocate(pool, p);
      pool.Basics();
      assert owned == owned[i := owned[i]];
      shares := shares[i := HeldBy(pool, pool.Regions())];
      Settled(i);
    }

    /** The destructor of object `i`, which ends up holding nothing. */
    method Destruct(i: nat)
      requires Valid() && i < |handles|
      modifies this`handles, this`owned, this`shares, heap
      ensures Standing() == Ended(old(Standing()), i) && heap.clock == old(heap.clock)
      ensures RestSpared(base, old(heap.mem), heap.mem)
      ensures Valid() && handles == old(handles)[i := null] && owned == old(owned)[i := {}]
    {
      hide MemoryPool.Valid, HeapOk;
      if handles[i] != null {
        OthersDiffer(i);
        ghost var r, m := heap.regions, heap.mem;
        Destroy(handles[i]);
        StillThere(heap, m);
      } else {
        assert HandleOk(i);
        assert shares[i := Nothing] == shares;
      }
      handles := handles[i := null];
      owned := owned[i := {}];
      shares := shares[i := Nothing];
      Settled(i);
    }

    /** Move assignment of object `j` to object `i`; to itself it does nothing. */
    method MoveAssign(i: nat, j: nat)
      requires Valid() && i < |handles| && j < |handles|
      modifies this`handles, this`owned, this`shares, heap
      ensures Valid() && Standing() == Moved(old(Standing()), i, j)
      ensures RestSpared(base, old(heap.mem), heap.mem)
      ensures i == j ==> handles == old(handles) && heap.regions == old(heap.regions) && heap.mem == old(heap.mem)
      ensures i != j ==> handles == old(handles)[i := old(handles[j])][j := null]
    {
      hide MemoryPool.Valid, HeapOk;
      if i != j {
        Destruct(i);
        ghost var before, mine, held := handles, owned, shares;
        OwnedMoved(owned, i, j, heap.regions, base);
        forall k | 0 <= k < |handles|
          ensures Holds(heap, before[k], mine[k], held[k])
        {
          assert HandleOk(k);
        }
        handles := handles[i := handles[j]][j := null];
        owned := owned[i := owned[j]][j := {}];
        shares := shares[i := shares[j]][j := Nothing];
        forall k | 0 <= k < |handles|
          ensures HandleOk(k)
        {
          assert Holds(heap, before[if k == i then j else k], mine[if k == i then j else k], held[if k == i then j else k]);
        }
      }
    }

    /** Construct a pool in object `i`, which holds nothing. False is `std::bad_alloc`. */
    method Construct(i: nat, hardened: bool, blockSize: size, blockCount: size, factor: size) returns (ok: bool)
      requires Valid() && i < |handles| && handles[i] == null
      modifies this`handles, this`owned, this`shares, heap
      ensures Valid() && (ok <==> factor != 1 && old(CanCreate(heap, hardened, blockSize, blockCount)))
      ensures !ok ==> handles == old(handles) && heap.regions == old(heap.regions) && heap.mem == old(heap.mem)
      ensures |handles| == |old(handles)| && RestSpared(base, old(heap.mem), heap.mem)
      ensures Standing() == Made(heap.oracle, old(Standing()), Make(i, hardened, blockSize, blockCount, factor))
      ensures ok ==> handles == old(handles)[i := handles[i]] && handles[i] != null && fresh(handles[i])
      ensures ok ==> handles[i].Now() == View([blockCount], ChunkSlots(0, blockCount))
    {
      hide MemoryPool.Valid, HeapOk, Creation, CanCreate, RestSpared;
      assert HandleOk(i);
      assert old(heap.regions) - old(owned)[i] == old(heap.regions);
      var pool := Obtain(heap, hardened, blockSize, blockCount, factor);
      ok := pool != null;
      if ok {
        handles := handles[i := pool];
        owned := owned[i := pool.Regions()];
        shares := shares[i := HeldBy(pool, pool.Regions())];
        assert heap.regions - pool.Regions() == old(heap.regions);
      }
      Settled(i);
    }

    /** Whether a client may free `p` through object `i`, as the diagnostic walk tells. */
    method MayFreeAt(i: nat, p: size) returns (ok: bool)
      requires Valid() && i < |handles|
      modifies handles
      ensures Standing() == old(Standing()) && (!ok ==> GivenBack(heap.oracle, Standing(), i, p) == Standing())
      ensures Valid() && (ok <==> handles[i] == null || handles[i].MayFree(p))
    {
      hide MemoryPool.Valid, HeapOk;
      var pool := handles[i];
      if pool == null {
        return true;
      }
      OthersDiffer(i);
      assert HandleOk(i);
      ok := MayFreeNow(pool, p);
      assert owned == owned[i := owned[i]] && shares == shares[i := shares[i]];
      Settled(i);
    }

    /** The destructors of all objects. The heap is as it was before the first construction. */
    method DestructAll()
      requires Valid()
      modifies this`handles, this`owned, this`shares, heap
      ensures Valid() && heap.regions == base && heap.clock == old(heap.clock) && RestSpared(base, old(heap.mem), heap.mem)
    {
      for i := 0 to |handles|
        invariant Valid() && |handles| == |old(handles)| && heap.clock == old(heap.clock)
        invariant RestSpared(base, old(heap.mem), heap.mem)
        invariant forall k :: 0 <= k < i ==> handles[k] == null
      {
        ghost var m := heap.mem;
        Destruct(i);
        SparedThen(base, old(heap.mem), m, heap.mem);
      }
      forall k | 0 <= k < |handles|
        ensures owned[k] == {}
      {
        assert HandleOk(k);
      }
      assert Union(owned) == {} && heap.regions - {} == heap.regions;
    }
  }

  /** A fixed pool for factor 0, a dynamic one for any other. */
  method Obtain(heap: Heap, hardened: bool, blockSize: size, blockCount: size, factor: size) returns (pool: MemoryPool?)
    requires heap.Valid()
    modifies heap
    ensures heap.Valid() && RestSpared(old(heap.regions), old(heap.mem), heap.mem)
    ensures pool != null <==> factor != 1 && old(CanCreate(heap, hardened, blockSize, blockCount))
    ensures (BackingOf(pool), heap.clock, heap.regions)
      == if factor == 1 then (0, old(heap.clock), old(heap.regions)) else old(Creation(heap.oracle, heap.clock, heap.regions, hardened, blockSize, blockCount))
    ensures pool == null ==> heap.regions == old(heap.regions) && heap.mem == old(heap.mem)
    ensures pool != null ==> fresh(pool) && pool.Valid() && pool.heap == heap && Owns(pool, old(heap.regions), heap.regions)
    ensures pool != null ==> pool.blockSize == blockSize && pool.hardened == hardened
    ensures pool != null ==> pool.backing != 0 && pool.live == 0 && pool.peak == 0 && pool.growCount == 0
    ensures pool != null ==>
      && pool.Regions() == heap.regions.Keys - old(heap.regions).Keys && pool.Regions() <= heap.regions.Keys
      && HeldBy(pool, pool.Regions())
         == NewShare(pool.backing, Make(0, hardened, blockSize, blockCount, factor), pool.Regions())
    ensures pool != null ==> pool.Now() == View([blockCount], ChunkSlots(0, blockCount))
  {
    hide MemoryPool.Valid, HeapOk, Acquired;
    if factor == 0 {
      pool := Create(heap, hardened, blockSize, blockCount);
      assert pool != null ==> Counts(pool.chunks) == [blockCount];
    } else {
      pool := CreateDynamic(heap, hardened, blockSize, blockCount, factor);
    }
    RestGranted(old(heap.regions), old(heap.mem), heap.mem);
    if pool != null {
      NewOwned(pool.Regions(), old(heap.regions), heap.regions);
      pool.Basics();
      assert ChunkOk(pool.chunks[0], pool.Stride());
    }
  }

  lemma RestGranted(r: Regions, m: Bytes, m': Bytes)
    requires Kept(m, m')
    ensures RestSpared(r, m, m')
  {
  }

  // ---- Runs --------------------------------------------------------------------------------

  /** One command. */
  method Execute(owners: Owners, c: Command)
    requires owners.Valid()
    modifies owners, owners.heap, owners.handles
    ensures owners.Valid() && owners.Standing() == Commanded(owners.heap.oracle, old(owners.Standing()), c)
    ensures var w, w', n, f := old(owners.Standing()), owners.Standing(), |owners.handles|, owners.heap.oracle;
      && (c.Make? && c.i < n ==> w' == Made(f, w, c)) && (c.Move? && c.to < n && c.from < n ==> w' == Moved(w, c.to, c.from))
      && (c.Acquire? && c.i < n ==> w' == Taken(f, w, c.i)) && (c.Release? && c.i < n ==> w' == GivenBack(f, w, c.i, c.p))
      && (c.End? && c.i < n ==> w' == Ended(w, c.i))
    ensures |owners.handles| == |old(owners.handles)| && RestSpared(owners.base, old(owners.heap.mem), owners.heap.mem)
    ensures forall k :: 0 <= k < |owners.handles| && owners.handles[k] != null ==>
      owners.handles[k] in old(owners.handles) || fresh(owners.handles[k])
  {
    hide Owners.Valid, Made, Ended, Moved, Taken, GivenBack;
    var n := |owners.handles|;
    owners.AsMany();
    if c.Make? && c.i < n {
      if owners.handles[c.i] == null {
        var _ := owners.Construct(c.i, c.hardened, c.blockSize, c.blockCount, c.factor);
      } else {
        Occupied(owners, c);
      }
    } else if c.Move? && c.to < n && c.from < n {
      owners.MoveAssign(c.to, c.from);
    } else if c.Acquire? && c.i < n {
      var _ := owners.AllocateAt(c.i);
    } else if c.Release? && c.i < n {
      var ok := owners.MayFreeAt(c.i, c.p);
      if ok {
        owners.DeallocateAt(c.i, c.p);
      }
    } else if c.End? && c.i < n {
      owners.Destruct(c.i);
    }
  }

  lemma Occupied(owners: Owners, c: Command)
    requires owners.Valid() && c.Make? && c.i < |owners.handles| == |owners.shares| && owners.handles[c.i] != null
    ensures Made(owners.heap.oracle, owners.Standing(), c) == owners.Standing()
  {
    assert owners.HandleOk(c.i);
  }

  /** Over any run of constructions, growths, moves, frees and destructions, in which each command comes to
      what it should, once the objects are gone the heap has exactly the regions it had, with the bytes that
      were in them: each backing, each chunk descriptor and each pool struct was released, and only once. The
      heap was asked just as often as the commands say. */
  method Run(heap: Heap, n: nat, commands: seq<Command>)
    requires heap.Valid()
    modifies heap
    ensures heap.Valid() && heap.regions == old(heap.regions) && RestSpared(heap.regions, old(heap.mem), heap.mem)
    ensures heap.clock == CourseAfter(heap.oracle, Empty(n, old(heap.clock), old(heap.regions)), commands, |commands|).clock
  {
    var owners := new Owners(heap, n);
    ghost var start := Empty(n, heap.clock, heap.regions);
    for k := 0 to |commands|
      invariant owners.Valid() && owners.heap == heap && fresh(owners) && owners.base == old(heap.regions)
      invariant forall i :: 0 <= i < |owners.handles| && owners.handles[i] != null ==> fresh(owners.handles[i])
      invariant owners.Standing() == CourseAfter(heap.oracle, start, commands, k)
      invariant RestSpared(owners.base, old(heap.mem), heap.mem)
    {
      hide Owners.Valid, Commanded, RestSpared;
      ghost var m := heap.mem;
      Execute(owners, commands[k]);
      SparedThen(owners.base, old(heap.mem), m, heap.mem);
    }
    ghost var m := heap.mem;
    owners.DestructAll();
    SparedThen(owners.base, old(heap.mem), m, heap.mem);
  }
}
