/** The pool engine under the single-threaded policy, in the plain and the hardened build. */
module MemoryPools {
  import opened Common
  import opened Arithmetic
  import opened Sizes
  import opened Words
  import opened Memory
  import opened Slots
  import opened Heap
  import opened PoolImages

  const POOL_STRUCT_BYTES: nat := 64

  /** The list of overflow chunks. A descriptor is never changed once made, and `addr` is where it
      lives on the heap. */
  datatype ChunkList = Nil | Cons(addr: nat, backing: nat, count: size, next: ChunkList)

  /** The pool as its clients see it: how many slots each chunk has, and which are free, in the order
      they will be vended. It does not depend on the build. */
  datatype View = View(counts: seq<nat>, free: seq<Slot>)

  /** The view an allocation pops from: after a growth if the list was empty. */
  ghost function Ready(v: View, factor: nat): View {
    if v.free != [] || factor < 2 then v else
      var n := Added(Total(v.counts), factor);
      View(v.counts + [n], ChunkSlots(|v.counts|, n))
  }

  /** A pool that has something to pop is in the view it was to be ready in. */
  lemma PrimedIsReady(k: Terms, im: Image)
    ensures var r := PrimedImage(k, im);
      r.free != [] ==> View(Counts(r.chunks), r.free) == Ready(View(Counts(im.chunks), im.free), k.factor)
  {
    var r := PrimedImage(k, im);
    if im.free == [] && r.free != [] {
      CountsAppend(im.chunks, r.chunks[|im.chunks|]);
    }
  }

  /** What a free says of the guard it finds. */
  function GuardReport(p: nat, guard: nat): seq<Report> {
    if guard == GUARD_FREED then [DoubleFree(p)]
    else if guard != GUARD_ALLOCATED then [BufferOverflow(p)]
    else []
  }

  /** The same, by what the client did: it freed a free slot, or a slot whose guard it had changed. */
  function FreeReport(p: nat, isFree: bool, isTainted: bool): seq<Report> {
    if isFree then [DoubleFree(p)] else if isTainted then [BufferOverflow(p)] else []
  }

  /** What a pop says of the slot it takes: a link that is no slot address, a guard that does not say
      freed, a payload that is not poison. */
  function PopReport(p: nat, next: nat, guard: nat, poisoned: bool): seq<Report> {
    (if next != 0 && next % POOL_ALIGNMENT != 0 then [FreeListCorruption(p)] else [])
    + (if guard == GUARD_FREED then [] else [FreeListCorruption(p)])
    + (if poisoned then [] else [UseAfterFree(p)])
  }

  /** A word written over the link of a free slot is reported when the slot is popped exactly if it reveals
      to a non-null unaligned address. */
  lemma LinkWriteReportedIff(l: Layout, mem: Bytes, slot: nat, word: nat)
    requires LayoutOk(l) && l.hardened && Mapped(mem, slot, l.stride) && StampedFree(l, mem, slot) && word < WORD_LIMIT
    ensures var m', next := StoreWord(mem, slot, word), XorLink(slot, word);
      && Mapped(m', slot, l.stride) && Link(l, m', slot) == next
      && PopReport(slot, next, Guard(l, m', slot), Poisoned(l, m', slot))
         == if next != 0 && next % POOL_ALIGNMENT != 0 then [FreeListCorruption(slot)] else []
  {
    LoadStored(mem, slot, word);
    LoadAgrees(mem, StoreWord(mem, slot, word), slot + l.blockSize);
  }

  /** One that goes unreported: at 4096, where a null link is stored as 1, the word 33 reveals to 32. */
  lemma WrongLinkUnreported()
    ensures XorLink(4096, 1) == 0 && XorLink(4096, 33) == 32
    ensures PopReport(4096, XorLink(4096, 33), GUARD_FREED, true) == []
  {
    XorZero(0);
    XorZero(16);
    assert Xor(1, 1) == 0 + 2 * Xor(0, 0);
    assert Xor(1, 33) == 0 + 2 * Xor(0, 16);
  }

  /** The same of a slot whose link is sound, by what the client did: it changed the guard of the free slot, or
      wrote to its payload. */
  function PopFindings(p: nat, isStomped: bool, isTainted: bool): seq<Report> {
    (if isStomped then [FreeListCorruption(p)] else []) + (if isTainted then [UseAfterFree(p)] else [])
  }

  /** The list in memory is the chunks acquired after the first, newest first. */
  ghost predicate Lists(list: ChunkList, chunks: seq<Chunk>)
    decreases list
  {
    match list
    case Nil => |chunks| == 1
    case Cons(_, backing, count, next) =>
      && |chunks| > 1 && chunks[|chunks| - 1] == Chunk(backing, count)
      && Lists(next, chunks[..|chunks| - 1])
  }

  ghost function DescriptorAddrs(list: ChunkList): set<nat> {
    match list
    case Nil => {}
    case Cons(addr, backing, _, next) => {addr, backing} + DescriptorAddrs(next)
  }

  /** Every descriptor and backing is a heap region of its own. */
  ghost predicate Owned(list: ChunkList, regions: Regions, stride: nat) {
    match list
    case Nil => true
    case Cons(addr, backing, count, next) =>
      && addr != backing && addr !in DescriptorAddrs(next) && backing !in DescriptorAddrs(next)
      && addr in regions && regions[addr] == CHUNK_BYTES
      && backing in regions && regions[backing] == SlotBytes(count, stride)
      && Owned(next, regions, stride)
  }

  /** One chunk was appended, of `factor - 1` times the slots there were. */
  ghost predicate Grew(before: seq<Chunk>, after: seq<Chunk>, factor: nat) {
    && |after| == |before| + 1 && after[..|before|] == before
    && after[|before|].count == Added(Total(Counts(before)), factor)
  }

  /** Every mapped byte is still mapped and unchanged. */
  ghost predicate Kept(m: Bytes, m': Bytes) {
    forall i :: i in m ==> i in m' && m'[i] == m[i]
  }

  /** Mapped bytes outside the `n` at `a` are still mapped and unchanged. */
  ghost predicate KeptBut(m: Bytes, m': Bytes, a: nat, n: nat) {
    forall i :: i in m && !(a <= i < a + n) ==> i in m' && m'[i] == m[i]
  }

  lemma KeptThen(m: Bytes, m1: Bytes, m2: Bytes, a: nat, n: nat)
    requires Kept(m, m1) && KeptBut(m1, m2, a, n)
    ensures KeptBut(m, m2, a, n)
  {
  }

  /** The chunk list in memory names the chunks, and each of its parts is a heap region. */
  ghost predicate ListValid(self: nat, backing: nat, count: size, stride: nat, list: ChunkList, chunks: seq<Chunk>, regions: Regions) {
    && chunks != [] && chunks[0] == Chunk(backing, count)
    && Lists(list, chunks) && Owned(list, regions, stride)
    && self != backing && self !in DescriptorAddrs(list) && backing !in DescriptorAddrs(list)
    && self in regions && regions[self] == POOL_STRUCT_BYTES
    && backing in regions && regions[backing] == SlotBytes(count, stride)
  }

  lemma {:induction false} OwnedKept(list: ChunkList, r: Regions, r': Regions, stride: nat)
    requires Owned(list, r, stride)
    requires forall a :: a in DescriptorAddrs(list) && a in r ==> a in r' && r'[a] == r[a]
    ensures Owned(list, r', stride)
    decreases list
  {
    match list {
      case Nil =>
      case Cons(_, _, _, next) => OwnedKept(next, r, r', stride);
    }
  }

  lemma {:induction false} OwnedLive(list: ChunkList, r: Regions, stride: nat)
    requires Owned(list, r, stride)
    ensures DescriptorAddrs(list) <= r.Keys
    decreases list
  {
    match list {
      case Nil =>
      case Cons(_, _, _, next) => OwnedLive(next, r, stride);
    }
  }

  /** Every chunk's storage is a live region of exactly its size. */
  lemma {:induction false} ChunkRegions(list: ChunkList, chunks: seq<Chunk>, r: Regions, stride: nat, k: nat)
    requires Lists(list, chunks) && Owned(list, r, stride) && k < |chunks|
    requires chunks[0].base in r && r[chunks[0].base] == SlotBytes(chunks[0].count, stride)
    ensures chunks[k].base in r && r[chunks[k].base] == SlotBytes(chunks[k].count, stride)
    decreases list
  {
    match list {
      case Nil =>
      case Cons(_, _, _, next) =>
        if k < |chunks| - 1 {
          ChunkRegions(next, chunks[..|chunks| - 1], r, stride, k);
        }
    }
  }

  lemma ListGrown(self: nat, backing: nat, count: size, stride: nat, list: ChunkList, chunks: seq<Chunk>, r: Regions,
                  addr: nat, base: nat, n: size)
    requires ListValid(self, backing, count, stride, list, chunks, r)
    requires base !in r && addr !in r && addr != base
    ensures ListValid(self, backing, count, stride, Cons(addr, base, n, list), chunks + [Chunk(base, n)],
                      r[base := SlotBytes(n, stride)][addr := CHUNK_BYTES])
  {
    var r' := r[base := SlotBytes(n, stride)][addr := CHUNK_BYTES];
    OwnedLive(list, r, stride);
    OwnedKept(list, r, r', stride);
    var more := chunks + [Chunk(base, n)];
    assert more[..|more| - 1] == chunks;
  }

  /** A granted region is apart from every chunk, and leaves their bytes alone. */
  lemma GrantExtends(l: Layout, self: nat, backing: nat, count: size, list: ChunkList, chunks: seq<Chunk>, r: Regions,
                     m: Bytes, m': Bytes, base: nat, n: nat)
    requires ListValid(self, backing, count, l.stride, list, chunks, r) && ChunksOk(chunks, l.stride)
    requires n > 0 && FreshRegion(r, base, SlotBytes(n, l.stride)) && Mapped(m', base, SlotBytes(n, l.stride))
    requires Kept(m, m')
    ensures Extends(l, chunks, m, m', Chunk(base, n))
  {
    forall k | 0 <= k < |chunks|
      ensures Apart(chunks[k], Chunk(base, n), l.stride)
    {
      ChunkRegions(list, chunks, r, l.stride, k);
    }
    forall k | 0 <= k < |chunks|
      ensures Agree(m, m', chunks[k].base, End(chunks[k], l.stride))
    {
      assert Apart(chunks[k], Chunk(base, n), l.stride);
    }
  }

  /** Two regions were granted, for a backing of `n` slots and its descriptor, and no mapped byte
      changed. */
  ghost predicate ChunkAdded(r: Regions, r': Regions, m: Bytes, m': Bytes, stride: nat, base: nat, addr: nat, n: nat) {
    && n > 0 && base !in r && addr !in r && addr != base && FreshRegion(r, base, SlotBytes(n, stride))
    && r' == r[base := SlotBytes(n, stride)][addr := CHUNK_BYTES]
    && Mapped(m', base, SlotBytes(n, stride)) && Kept(m, m')
  }

  lemma SlotsJoin(l: Layout, self: nat, backing: nat, count: size, list: ChunkList, chunks: seq<Chunk>,
                  r: Regions, r': Regions, m: Bytes, m': Bytes, base: nat, addr: nat, n: nat,
                  tainted: set<Slot>, stomped: set<Slot>)
    requires SlotsValid(l, chunks, m, 0, []) && Marked(l, chunks, m, [], tainted) && Stomps(l, chunks, m, [], stomped)
    requires ListValid(self, backing, count, l.stride, list, chunks, r)
    requires ChunkAdded(r, r', m, m', l.stride, base, addr, n) && SeededTo(l, m', Chunk(base, n), n)
    ensures SlotsValid(l, chunks + [Chunk(base, n)], m', base, ChunkSlots(|chunks|, n))
    ensures Marked(l, chunks + [Chunk(base, n)], m', ChunkSlots(|chunks|, n), tainted)
    ensures Stomps(l, chunks + [Chunk(base, n)], m', ChunkSlots(|chunks|, n), stomped)
  {
    GrantExtends(l, self, backing, count, list, chunks, r, m, m', base, n);
    ChunkLinked(l, chunks, m, m', Chunk(base, n));
    MarksExtend(l, chunks, m, m', Chunk(base, n), tainted);
    StompsExtend(l, chunks, m, m', Chunk(base, n), stomped);
  }

  lemma {:induction false} TotalOfFront(chunks: seq<Chunk>, k: nat)
    requires 1 < k <= |chunks|
    ensures Total(Counts(chunks[..k])) == Total(Counts(chunks[..k - 1])) + chunks[k - 1].count
    ensures chunks[0].count <= Total(Counts(chunks[..k - 1]))
  {
    assert Counts(chunks[..k])[..k - 1] == Counts(chunks[..k - 1]);
    FirstCountAtMostTotal(Counts(chunks[..k - 1]));
  }

  lemma {:induction false} TotalOfFirst(chunks: seq<Chunk>)
    requires chunks != []
    ensures Total(Counts(chunks[..1])) == chunks[0].count
  {
    var counts := Counts(chunks[..1]);
    var none: seq<nat> := [];
    assert counts[..0] == none;
    assert Total(none) == 0;
    assert Total(counts) == Total(counts[..0]) + counts[0];
  }

  lemma {:induction false} FirstCountAtMostTotal(counts: seq<nat>)
    requires counts != []
    ensures counts[0] <= Total(counts)
    decreases |counts|
  {
    if |counts| > 1 {
      FirstCountAtMostTotal(counts[..|counts| - 1]);
    }
  }

  class MemoryPool {
    const heap: Heap
    const hardened: bool
    const self: nat
    const backing: nat
    const blockSize: size
    const blockCount: size
    var head: nat
    var overflow: ChunkList
    var growFactor: size
    var growCount: size
    /** What the installed handler was told; the handler returns. */
    var reports: seq<Report>
    /** Every chunk in order of acquisition, the free slots in list order, the number of slots out now
        and at most, and the slots a client did wrong by: free ones it wrote to, live ones whose guard
        it changed. */
    ghost var chunks: seq<Chunk>
    ghost var free: seq<Slot>
    ghost var live: nat
    ghost var peak: nat
    ghost var tainted: set<Slot>
    /** The free slots whose guard a client changed. */
    ghost var stomped: set<Slot>

    /** `new memory_pool{}` at `self` followed by the stores to its fields. */
    constructor (heap: Heap, hardened: bool, self: nat, backing: nat, blockSize: size, blockCount: size)
      ensures this.heap == heap && this.hardened == hardened && this.self == self && this.backing == backing
      ensures this.blockSize == blockSize && this.blockCount == blockCount && this.overflow == Nil && this.head == backing
      ensures growFactor == 0 && growCount == 0 && reports == [] && live == 0 && peak == 0
      ensures chunks == [Chunk(backing, blockCount)] && free == ChunkSlots(0, blockCount) && tainted == {} == stomped
    {
      this.heap, this.hardened, this.self, this.backing := heap, hardened, self, backing;
      this.blockSize, this.blockCount, this.overflow, this.head := blockSize, blockCount, Nil, backing;
      growFactor, growCount, reports, live, peak := 0, 0, [], 0, 0;
      chunks, free, tainted, stomped := [Chunk(backing, blockCount)], ChunkSlots(0, blockCount), {}, {};
    }

    ghost function Lay(): Layout {
      Layout(hardened, blockSize, SlotStride(hardened, blockSize))
    }

    function Stride(): size {
      SlotStride(hardened, blockSize)
    }

    ghost predicate SizesOk()
      reads this
    {
      && LayoutOk(Lay())
      && Geometric(Counts(chunks), growFactor) && (growFactor == 0 ==> |chunks| == 1)
      && (growFactor == 0 || growFactor >= 2)
      && Bounded(Total(Counts(chunks)), Stride())
      && |free| + live == Total(Counts(chunks)) && live <= peak
      && (Total(Counts(chunks)) <= blockCount || Total(Counts(chunks)) <= growFactor * peak)
      && growCount == |chunks| - 1
    }

    ghost predicate ListOk()
      reads this, heap
    {
      ListValid(self, backing, blockCount, Stride(), overflow, chunks, heap.regions)
    }

    ghost predicate SlotsOk()
      reads this, heap
    {
      && SlotsValid(Lay(), chunks, heap.mem, head, free)
      && Marked(Lay(), chunks, heap.mem, free, tainted) && Stomps(Lay(), chunks, heap.mem, free, stomped)
    }

    ghost predicate Valid()
      reads this, heap
    {
      heap.Valid() && SizesOk() && ListOk() && SlotsOk()
    }

    /** What clients need to know of a valid pool. */
    lemma Basics()
      requires Valid()
      ensures ChunksOk(chunks, Stride()) && AllSlots(chunks, free) && NoDup(free)
      ensures forall s :: s in tainted || s in stomped ==> IsSlot(chunks, s)
      ensures heap.Valid() && LayoutOk(Lay()) && |free| + live == Total(Counts(chunks))
      ensures ChunksMapped(chunks, Stride(), heap.mem)
      ensures Regions() <= heap.regions.Keys && growCount == |chunks| - 1
    {
      OwnedLive(overflow, heap.regions, Stride());
    }

    /** `p` is a block that is out of the pool. */
    ghost predicate Holds(p: nat)
      reads this
    {
      IsSlotAddress(chunks, Stride(), p) && SlotAt(chunks, Stride(), p) !in free
    }

    lemma NoNull()
      requires Valid()
      ensures !IsSlotAddress(chunks, Stride(), 0)
    {
      NullIsNoSlot();
    }

    /** The heap regions this pool has to give back. */
    ghost function Regions(): set<nat>
      reads this`overflow
    {
      {self, backing} + DescriptorAddrs(overflow)
    }

    /** The heap regions that are not this pool's. */
    ghost function Rest(): map<nat, nat>
      reads this`overflow, heap`regions
    {
      heap.regions - Regions()
    }

    ghost function AddrOf(s: Slot): nat
      reads this
      requires IsSlot(chunks, s)
    {
      Addr(chunks, Stride(), s)
    }

    // ---- hardening_detail ------------------------------------------------------------------

    /** Scan the payload beyond the link, as the source does, byte by byte. */
    method PayloadIsPoison(p: nat) returns (ok: bool)
      requires LayoutOk(Lay()) && Mapped(heap.mem, p, Stride())
      ensures ok <==> Poisoned(Lay(), heap.mem, p)
    {
      var n := if blockSize > POINTER_BYTES then blockSize - POINTER_BYTES else 0;
      var i := 0;
      while i < n
        invariant 0 <= i <= n
        invariant forall k :: p + POINTER_BYTES <= k < p + POINTER_BYTES + i ==> k in heap.mem && heap.mem[k] == POISON_BYTE
      {
        if heap.mem[p + POINTER_BYTES + i] != POISON_BYTE {
          return false;
        }
        i := i + 1;
      }
      return true;
    }

    method WriteGuard(p: nat, stamp: nat)
      requires hardened && LayoutOk(Lay()) && Mapped(heap.mem, p, Stride()) && stamp < WORD_LIMIT
      modifies heap`mem
      ensures OnlyBytes(old(heap.mem), heap.mem, p + blockSize, GUARD_BYTES)
      ensures OnlyBytes(old(heap.mem), heap.mem, p, Stride())
      ensures Mapped(heap.mem, p, Stride()) && Guard(Lay(), heap.mem, p) == stamp
      ensures Link(Lay(), heap.mem, p) == old(Link(Lay(), heap.mem, p))
      ensures Poisoned(Lay(), heap.mem, p) <==> old(Poisoned(Lay(), heap.mem, p))
    {
      GuardStored(Lay(), heap.mem, p, stamp);
      heap.mem := StoreWord(heap.mem, p + blockSize, stamp);
    }

    method PoisonPayload(p: nat)
      requires hardened && LayoutOk(Lay()) && Mapped(heap.mem, p, Stride())
      modifies heap`mem
      ensures OnlyBytes(old(heap.mem), heap.mem, p, Stride())
      ensures Mapped(heap.mem, p, Stride()) && Poisoned(Lay(), heap.mem, p)
      ensures Link(Lay(), heap.mem, p) == old(Link(Lay(), heap.mem, p))
      ensures Guard(Lay(), heap.mem, p) == old(Guard(Lay(), heap.mem, p))
    {
      PayloadPoisoned(Lay(), heap.mem, p);
      if blockSize > POINTER_BYTES {
        heap.mem := Fill(heap.mem, p + POINTER_BYTES, blockSize - POINTER_BYTES, POISON_BYTE);
      }
    }

    method OnAlloc(p: nat)
      requires hardened && LayoutOk(Lay()) && Mapped(heap.mem, p, Stride())
      modifies this`reports, heap`mem
      ensures reports == old(reports)
        + (if old(Guard(Lay(), heap.mem, p)) == GUARD_FREED then [] else [FreeListCorruption(p)])
        + (if old(Poisoned(Lay(), heap.mem, p)) then [] else [UseAfterFree(p)])
      ensures OnlyBytes(old(heap.mem), heap.mem, p + blockSize, GUARD_BYTES)
      ensures Mapped(heap.mem, p, Stride()) && Guard(Lay(), heap.mem, p) == GUARD_ALLOCATED
    {
      if LoadWord(heap.mem, p + blockSize) != GUARD_FREED {
        reports := reports + [FreeListCorruption(p)];
      }
      var ok := PayloadIsPoison(p);
      if !ok {
        reports := reports + [UseAfterFree(p)];
      }
      WriteGuard(p, GUARD_ALLOCATED);
    }

    /** The slot is poisoned and stamped whatever its guard said, and enqueued unless the guard said
        it was free already. */
    method OnFree(p: nat) returns (enqueue: bool)
      requires hardened && LayoutOk(Lay()) && Mapped(heap.mem, p, Stride())
      modifies this`reports, heap`mem
      ensures enqueue <==> old(Guard(Lay(), heap.mem, p)) != GUARD_FREED
      ensures reports == old(reports)
        + (if old(Guard(Lay(), heap.mem, p)) == GUARD_FREED then [DoubleFree(p)]
           else if old(Guard(Lay(), heap.mem, p)) != GUARD_ALLOCATED then [BufferOverflow(p)]
           else [])
      ensures OnlyBytes(old(heap.mem), heap.mem, p, Stride())
      ensures Mapped(heap.mem, p, Stride()) && StampedFree(Lay(), heap.mem, p)
      ensures Link(Lay(), heap.mem, p) == old(Link(Lay(), heap.mem, p))
    {
      var guard := LoadWord(heap.mem, p + blockSize);
      enqueue := true;
      if guard == GUARD_FREED {
        reports := reports + [DoubleFree(p)];
        enqueue := false;
      } else if guard != GUARD_ALLOCATED {
        reports := reports + [BufferOverflow(p)];
      }
      PoisonPayload(p);
      WriteGuard(p, GUARD_FREED);
    }

    // ---- Links -----------------------------------------------------------------------------

    /** read_next: reveal the link and report an unaligned one. */
    method ReadNext(p: nat) returns (next: nat)
      requires LayoutOk(Lay()) && Mapped(heap.mem, p, Stride())
      modifies this`reports
      ensures next == Link(Lay(), heap.mem, p)
      ensures reports == old(reports)
        + (if hardened && next != 0 && next % POOL_ALIGNMENT != 0 then [FreeListCorruption(p)] else [])
    {
      next := Encode(hardened, p, LoadWord(heap.mem, p));
      if hardened && next != 0 && next % POOL_ALIGNMENT != 0 {
        reports := reports + [FreeListCorruption(p)];
      }
    }

    method WriteNext(p: nat, next: nat)
      requires LayoutOk(Lay()) && Mapped(heap.mem, p, Stride()) && p < WORD_LIMIT && next < WORD_LIMIT
      modifies heap`mem
      ensures OnlyBytes(old(heap.mem), heap.mem, p, Stride())
      ensures Mapped(heap.mem, p, Stride()) && Link(Lay(), heap.mem, p) == next
      ensures LoadWord(heap.mem, p) == if hardened then Xor(p / 4096, next) else next
      ensures Poisoned(Lay(), heap.mem, p) <==> old(Poisoned(Lay(), heap.mem, p))
      ensures hardened ==> Guard(Lay(), heap.mem, p) == old(Guard(Lay(), heap.mem, p))
      ensures forall a :: a in heap.mem && !(p <= a < p + POINTER_BYTES) ==> heap.mem[a] == old(heap.mem)[a]
    {
      LinkStored(Lay(), heap.mem, p, next);
      heap.mem := StoreWord(heap.mem, p, Encode(hardened, p, next));
    }
  
    // ---- The single-threaded policy --------------------------------------------------------

    /** The pop of a non-empty list, as the program does it. In the plain build no byte of memory
        changes; in the hardened build only the guard of the popped slot does. */
    method TakeHead() returns (p: nat)
      requires LayoutOk(Lay()) && head != 0 && Mapped(heap.mem, head, Stride()) && free != []
      modifies this`head, this`reports, this`free, this`live, this`peak, this`tainted, this`stomped, heap`mem
      ensures p == old(head) && head == old(Link(Lay(), heap.mem, head))
      ensures reports == old(reports) + (if hardened then PopReport(p, head, old(Guard(Lay(), heap.mem, head)), old(Poisoned(Lay(), heap.mem, head))) else [])
      ensures OnlyBytes(old(heap.mem), heap.mem, p + blockSize, if hardened then GUARD_BYTES else 0)
      ensures Mapped(heap.mem, p, Stride()) && (hardened ==> Guard(Lay(), heap.mem, p) == GUARD_ALLOCATED)
      ensures free == old(free)[1..] && live == old(live) + 1 && peak == (if live > old(peak) then live else old(peak))
      ensures tainted == old(tainted) - {old(free)[0]} && stomped == old(stomped) - {old(free)[0]}
    {
      p := head;
      head := ReadNext(p);
      if hardened {
        OnAlloc(p);
      }
      tainted, stomped := tainted - {free[0]}, stomped - {free[0]};
      free := free[1..];
      live := live + 1;
      peak := if live > peak then live else peak;
    }

    /** PopKeeps for this pool. */
    twostate lemma HeadTaken()
      requires old(SlotsOk()) && old(head) != 0 && old(free) != []
      requires head == old(Addr2())
      requires chunks == old(chunks) && free == old(free)[1..]
      requires tainted == old(tainted) - {old(free)[0]} && stomped == old(stomped) - {old(free)[0]}
      requires OnlyBytes(old(heap.mem), heap.mem, old(head), Stride())
      requires hardened ==> Mapped(heap.mem, old(head), Stride()) && Guard(Lay(), heap.mem, old(head)) == GUARD_ALLOCATED
      ensures SlotsOk()
    {
      HeadSlot(Lay(), chunks, old(heap.mem), old(head), old(free));
      PopKeeps(Lay(), chunks, old(heap.mem), heap.mem, old(head), old(free));
      MarksMoved(Lay(), chunks, old(heap.mem), heap.mem, old(free)[0], old(free), free, old(tainted), tainted);
      StompsMoved(Lay(), chunks, old(heap.mem), heap.mem, old(free)[0], old(free), free, old(stomped), stomped);
    }

    /** The address of the second free slot, or null. */
    ghost function Addr2(): nat
      reads this
      requires AllSlots(chunks, free)
    {
      AddrAt(chunks, Stride(), free, 1)
    }

    // ---- Chunks ----------------------------------------------------------------------------

    /** One slot of a fresh chunk: its link, and in the hardened build its poison and stamp. */
    method SeedSlot(p: nat, next: nat)
      requires LayoutOk(Lay()) && Mapped(heap.mem, p, Stride()) && p < WORD_LIMIT && next < WORD_LIMIT
      modifies heap`mem
      ensures OnlyBytes(old(heap.mem), heap.mem, p, Stride())
      ensures Mapped(heap.mem, p, Stride()) && LinksTo(Lay(), heap.mem, p, next) && StampedFree(Lay(), heap.mem, p)
    {
      WriteNext(p, next);
      if hardened {
        PoisonPayload(p);
        WriteGuard(p, GUARD_FREED);
      }
    }

    method InitializeFreeList(base: size, count: size)
      requires LayoutOk(Lay()) && Stride() > 0 && ChunkOk(Chunk(base, count), Stride())
      requires Mapped(heap.mem, base, SlotBytes(count, Stride()))
      modifies heap`mem
      ensures OnlyBytes(old(heap.mem), heap.mem, base, SlotBytes(count, Stride()))
      ensures SeededTo(Lay(), heap.mem, Chunk(base, count), count)
    {
      var stride := Stride();
      ghost var c := Chunk(base, count);
      var i := 0;
      while i + 1 < count
        invariant 0 <= i < count
        invariant OnlyBytes(old(heap.mem), heap.mem, base, SlotBytes(c.count, stride))
        invariant SeededTo(Lay(), heap.mem, c, i)
      {
        SlotBytesProduct(i, stride);
        SlotBytesProduct(i + 1, stride);
        SeedNext(c, i, base + i * stride, base + (i + 1) * stride);
        i := i + 1;
      }
      SlotBytesProduct(i, stride);
      SeedNext(c, i, base + (count - 1) * stride, 0);
    }

    method SeedNext(ghost c: Chunk, ghost i: nat, p: nat, next: nat)
      requires LayoutOk(Lay()) && Stride() > 0 && ChunkOk(c, Stride()) && i < c.count
      requires Mapped(heap.mem, c.base, SlotBytes(c.count, Stride()))
      requires p == c.base + SlotBytes(i, Stride()) && next == NextInChunk(c, Stride(), i)
      requires SeededTo(Lay(), heap.mem, c, i)
      modifies heap`mem
      ensures OnlyBytes(old(heap.mem), heap.mem, c.base, SlotBytes(c.count, Stride()))
      ensures SeededTo(Lay(), heap.mem, c, i + 1)
    {
      ChunkSlotMapped(c, Stride(), heap.mem, i);
      SeedSlot(p, next);
      SeedingContinues(Lay(), c, old(heap.mem), heap.mem, i);
    }
  
    // ---- Growth ----------------------------------------------------------------------------

    /** The number of slots in all chunks, summed over the overflow list. */
    method TotalSlots() returns (total: size)
      requires chunks != [] && chunks[0].count == blockCount && Lists(overflow, chunks)
      requires Total(Counts(chunks)) <= SIZE_MAX
      ensures total == Total(Counts(chunks))
    {
      total := blockCount;
      var list := overflow;
      ghost var k := |chunks|;
      assert chunks[..k] == chunks;
      while list.Cons?
        invariant 1 <= k <= |chunks| && Lists(list, chunks[..k])
        invariant total + Total(Counts(chunks[..k])) == Total(Counts(chunks)) + blockCount
        decreases list
      {
        TotalOfFront(chunks, k);
        assert chunks[..k][..k - 1] == chunks[..k - 1];
        total := Add(total, list.count);
        list := list.next;
        k := k - 1;
      }
      TotalOfFirst(chunks);
    }

    /** The sum of the counts never comes near wrapping. */
    lemma TotalFits()
      requires SizesOk()
      ensures Total(Counts(chunks)) <= SIZE_MAX / 8 && Stride() >= POOL_ALIGNMENT
    {
      BoundedSmall(Total(Counts(chunks)), Stride());
    }
  
    /** Both allocations of a growth or a creation; if either fails nothing is kept. Null means failure. */
    static method AcquireTwo(heap: Heap, bytes: nat, structBytes: nat) returns (base: nat, addr: nat)
      requires heap.Valid() && bytes > 0 && structBytes > 0
      modifies heap
      ensures heap.Valid() && (base != 0 <==> old(Grants(heap.oracle, heap.clock, heap.regions, bytes, structBytes)))
      ensures (base, heap.clock, heap.regions) == old(Acquired(heap.oracle, heap.clock, heap.regions, bytes, structBytes))
      ensures base == 0 ==> heap.regions == old(heap.regions) && heap.mem == old(heap.mem)
      ensures base != 0 ==> addr != 0 && addr != base && base !in old(heap.regions) && addr !in old(heap.regions)
      ensures base != 0 ==> FreshRegion(old(heap.regions), base, bytes)
      ensures base != 0 ==> heap.regions == old(heap.regions)[base := bytes][addr := structBytes]
      ensures base != 0 ==> Mapped(heap.mem, base, bytes) && forall a :: base <= a < base + bytes ==> a !in old(heap.mem)
      ensures Kept(old(heap.mem), heap.mem)
    {
      base := heap.OperatorNew(bytes);
      addr := 0;
      if base != 0 {
        NothingMapped(old(heap.regions), old(heap.mem), base, bytes);
        addr := heap.OperatorNew(structBytes);
        if addr == 0 {
          GrantReleased(old(heap.regions), old(heap.mem), heap.mem, base, bytes);
          heap.OperatorDelete(base);
          base := 0;
        }
      }
    }
  
    /** Growing on exhaustion multiplies the total by the factor, and the total stays within the
        factor times the most slots ever out. */
    twostate lemma SizesGrow(n: nat)
      requires old(SizesOk()) && old(free) == [] && growFactor == old(growFactor) && growFactor >= 2
      requires n == Added(Total(Counts(old(chunks))), growFactor)
      requires Counts(chunks) == Counts(old(chunks)) + [n] && |free| == n && live == old(live) && peak == old(peak)
      requires growCount == |chunks| - 1
      requires Bounded(Total(Counts(old(chunks))) + n, Stride())
      ensures SizesOk()
    {
      var t := Total(Counts(old(chunks)));
      GeometricAppend(Counts(old(chunks)), growFactor, n);
      MulMonotone(t, peak, growFactor);
      assert t * growFactor == growFactor * t && peak * growFactor == growFactor * peak;
    }

    lemma GrowthsFit()
      requires SizesOk() && SlotsOk()
      ensures |chunks| <= SIZE_MAX
    {
      forall k | 0 <= k < |chunks|
        ensures Counts(chunks)[k] > 0
      {
        assert ChunkOk(chunks[k], Stride());
      }
      CountsAtMostTotal(Counts(chunks));
      TotalFits();
    }

    /** Seed the granted storage and link it in. */
    method LinkChunk(base: nat, addr: nat, n: size)
      requires LayoutOk(Lay()) && Stride() > 0 && ChunkOk(Chunk(base, n), Stride())
      requires Mapped(heap.mem, base, SlotBytes(n, Stride()))
      modifies this`overflow, this`head, this`growCount, heap`mem
      ensures overflow == Cons(addr, base, n, old(overflow)) && head == base && growCount == Add(old(growCount), 1)
      ensures OnlyBytes(old(heap.mem), heap.mem, base, SlotBytes(n, Stride()))
      ensures SeededTo(Lay(), heap.mem, Chunk(base, n), n)
    {
      InitializeFreeList(base, n);
      overflow := Cons(addr, base, n, overflow);
      head := base;
      growCount := Add(growCount, 1);
    }

    /** The size of the next chunk, by the two product guards; 0 when they refuse. They refuse exactly
        when its bytes do not fit in `size_t`. */
    method GrowthCount() returns (n: size)
      requires Stride() >= POOL_ALIGNMENT && growFactor >= 2
      requires chunks != [] && chunks[0].count == blockCount && Lists(overflow, chunks)
      requires 0 < Total(Counts(chunks)) <= SIZE_MAX && Bounded(Total(Counts(chunks)), Stride())
      ensures n == 0 <==> !GrowthFits(Total(Counts(chunks)), growFactor, Stride())
      ensures n != 0 ==> n == Added(Total(Counts(chunks)), growFactor) && SlotBytes(n, Stride()) <= SIZE_MAX
      ensures n != 0 ==> Mul(n, Stride()) == SlotBytes(n, Stride()) && Bounded(Total(Counts(chunks)) + n, Stride())
    {
      var total := TotalSlots();
      var stride := Stride();
      GrowthGuards(total, growFactor, stride);
      if WouldOverflowProduct(total, growFactor - 1) {
        return 0;
      }
      n := Mul(total, growFactor - 1);
      if n == 0 {
        return 0;
      }
      if WouldOverflowProduct(n, stride) {
        return 0;
      }
      SlotBytesProduct(n, stride);
    }

    /** Acquire, seed and link a chunk of `n` slots; `base` is null if an allocation fails. */
    method AddChunk(n: size) returns (base: nat, addr: nat)
      requires heap.Valid() && LayoutOk(Lay()) && Stride() > 0 && n > 0
      requires Mul(n, Stride()) == SlotBytes(n, Stride())
      modifies this`overflow, this`head, this`growCount, heap
      ensures heap.Valid()
      ensures base != 0 <==> old(Grants(heap.oracle, heap.clock, heap.regions, SlotBytes(n, Stride()), CHUNK_BYTES))
      ensures (base, heap.clock, heap.regions) == old(Acquired(heap.oracle, heap.clock, heap.regions, SlotBytes(n, Stride()), CHUNK_BYTES))
      ensures base == 0 ==> heap.regions == old(heap.regions) && heap.mem == old(heap.mem)
      ensures base == 0 ==> overflow == old(overflow) && head == old(head) && growCount == old(growCount)
      ensures base != 0 ==> ChunkAdded(old(heap.regions), heap.regions, old(heap.mem), heap.mem, Stride(), base, addr, n)
      ensures base != 0 ==> SeededTo(Lay(), heap.mem, Chunk(base, n), n)
      ensures base != 0 ==> overflow == Cons(addr, base, n, old(overflow)) && head == base && growCount == Add(old(growCount), 1)
    {
      base, addr := AcquireTwo(heap, Mul(n, Stride()), CHUNK_BYTES);
      if base != 0 {
        ghost var m := heap.mem;
        LinkChunk(base, addr, n);
        WriteKeeps(heap.regions, m, heap.mem);
      }
    }
  
    /** Everything AddChunk leaves behind keeps the invariant. */
    twostate lemma ChunkJoins()
      requires LayoutOk(Lay()) && old(SlotsOk()) && old(ListOk()) && old(SizesOk()) && old(head) == 0
      requires overflow.Cons? && overflow.next == old(overflow) && head == overflow.backing
      requires var (base, addr, n) := (overflow.backing, overflow.addr, overflow.count);
        && ChunkAdded(old(heap.regions), heap.regions, old(heap.mem), heap.mem, Stride(), base, addr, n)
        && SeededTo(Lay(), heap.mem, Chunk(base, n), n)
        && chunks == old(chunks) + [Chunk(base, n)] && free == ChunkSlots(|old(chunks)|, n)
        && n == Added(Total(Counts(old(chunks))), growFactor)
        && Bounded(Total(Counts(old(chunks))) + n, Stride())
      requires growFactor == old(growFactor) && growFactor >= 2 && growCount == old(growCount) + 1
      requires live == old(live) && peak == old(peak) && tainted == old(tainted) && stomped == old(stomped)
      ensures SlotsOk() && ListOk() && SizesOk()
    {
      var base, addr, n := overflow.backing, overflow.addr, overflow.count;
      HeadSlot(Lay(), old(chunks), old(heap.mem), old(head), old(free));
      SlotsJoin(Lay(), self, backing, blockCount, old(overflow), old(chunks), old(heap.regions), heap.regions,
                old(heap.mem), heap.mem, base, addr, n, tainted, stomped);
      ListGrown(self, backing, blockCount, Stride(), old(overflow), old(chunks), old(heap.regions), addr, base, n);
      CountsAppend(old(chunks), Chunk(base, n));
      SizesGrow(n);
    }

    lemma Exhausted()
      requires SlotsOk() && SizesOk() && head == 0
      ensures free == [] && growCount < SIZE_MAX && 0 < Total(Counts(chunks)) <= SIZE_MAX
      ensures LayoutOk(Lay()) && Stride() >= POOL_ALIGNMENT && Bounded(Total(Counts(chunks)), Stride())
    {
      TotalFits();
      HeadSlot(Lay(), chunks, heap.mem, head, free);
      GrowthsFit();
      assert ChunkOk(chunks[0], Stride());
      FirstCountAtMostTotal(Counts(chunks));
    }

    /** A growth would succeed: the pool is dynamic, the new chunk's bytes fit in `size_t`, and the heap
        grants both the storage and the descriptor. */
    ghost predicate CanGrow()
      reads this, heap
    {
      && growFactor >= 2 && GrowthFits(Total(Counts(chunks)), growFactor, Stride())
      && Grants(heap.oracle, heap.clock, heap.regions, SlotBytes(Added(Total(Counts(chunks)), growFactor), Stride()), CHUNK_BYTES)
    }

    ghost function Terms(): PoolImages.Terms
      reads this`growFactor
    {
      PoolImages.Terms(heap.oracle, growFactor, Stride())
    }

    /** What there is to this pool besides its bytes. */
    ghost function Image(): PoolImages.Image
      reads this`chunks, this`free, heap
    {
      PoolImages.Image(chunks, free, heap.clock, heap.regions)
    }

    /** The steps of grow_pool. `base` is null when the pool did not grow, and then nothing changed. */
    method GrowSteps() returns (base: nat, addr: nat, n: size)
      requires heap.Valid() && LayoutOk(Lay()) && Stride() >= POOL_ALIGNMENT && growFactor >= 2 && growCount < SIZE_MAX
      requires chunks != [] && chunks[0].count == blockCount && Lists(overflow, chunks)
      requires 0 < Total(Counts(chunks)) <= SIZE_MAX && Bounded(Total(Counts(chunks)), Stride())
      modifies this`overflow, this`head, this`growCount, heap
      ensures heap.Valid() && Kept(old(heap.mem), heap.mem) && Rest() == old(Rest())
      ensures base == 0 ==> heap.regions == old(heap.regions) && heap.mem == old(heap.mem)
      ensures base == 0 ==> overflow == old(overflow) && head == old(head) && growCount == old(growCount)
      ensures base != 0 <==> old(CanGrow())
      ensures GrownImage(Terms(), old(Image())) ==
        if base == 0 then Image()
        else PoolImages.Image(chunks + [Chunk(base, n)], ChunkSlots(|chunks|, n), heap.clock, heap.regions)
      ensures base != 0 ==> n == Added(Total(Counts(chunks)), growFactor) && Bounded(Total(Counts(chunks)) + n, Stride())
      ensures base != 0 ==> ChunkAdded(old(heap.regions), heap.regions, old(heap.mem), heap.mem, Stride(), base, addr, n)
      ensures base != 0 ==> SeededTo(Lay(), heap.mem, Chunk(base, n), n)
      ensures base != 0 ==> overflow == Cons(addr, base, n, old(overflow)) && head == base && growCount == old(growCount) + 1
    {
      base, addr := 0, 0;
      n := GrowthCount();
      if n != 0 {
        base, addr := AddChunk(n);
      }
    }

    /** grow_pool, on an exhausted dynamic pool: either nothing changed, or the total is multiplied
        by the factor and the new chunk's slots, in address order, are the free list. */
    method GrowPool() returns (ok: bool)
      requires heap.Valid() && SizesOk() && ListOk() && SlotsOk() && head == 0 && growFactor >= 2
      modifies this`overflow, this`head, this`growCount, this`chunks, this`free, heap
      ensures heap.Valid() && SizesOk() && ListOk() && SlotsOk() && (ok <==> old(CanGrow()))
      ensures Image() == GrownImage(Terms(), old(Image()))
      ensures !ok ==> heap.regions == old(heap.regions) && heap.mem == old(heap.mem) && chunks == old(chunks) && free == old(free)
      ensures Rest() == old(Rest())
      ensures ok ==> head != 0 && Grew(old(chunks), chunks, growFactor) && free == ChunkSlots(|old(chunks)|, chunks[|old(chunks)|].count)
      ensures Kept(old(heap.mem), heap.mem)
    {
      hide CanGrow, GrownImage;
      Exhausted();
      var base, addr, n := GrowSteps();
      if base == 0 {
        return false;
      }
      free := ChunkSlots(|chunks|, n);
      chunks := chunks + [Chunk(base, n)];
      ChunkJoins();
      return true;
    }
  
    // ---- The policy hooks ------------------------------------------------------------------

    ghost function Now(): View
      reads this
    {
      View(Counts(chunks), free)
    }

    twostate lemma PopSizes()
      requires old(SizesOk()) && old(free) != [] && free == old(free)[1..] && chunks == old(chunks)
      requires live == old(live) + 1 && peak == (if live > old(peak) then live else old(peak))
      requires growFactor == old(growFactor) && growCount == old(growCount)
      ensures SizesOk()
    {
      MulMonotone(old(peak), peak, growFactor);
      assert peak * growFactor == growFactor * peak && old(peak) * growFactor == growFactor * old(peak);
    }

    lemma HeadMapped()
      requires SlotsOk() && head != 0
      ensures free != [] && IsSlot(chunks, free[0]) && head == AddrOf(free[0]) && LayoutOk(Lay())
      ensures Mapped(heap.mem, head, Stride()) && Link(Lay(), heap.mem, head) == Addr2()
      ensures Addr2() % POOL_ALIGNMENT == 0
    {
      HeadSlot(Lay(), chunks, heap.mem, head, free);
    }

    /** What TakeHead leaves behind keeps the invariant. */
    twostate lemma HeadGone()
      requires old(heap.Valid()) && old(SizesOk()) && old(SlotsOk()) && old(head) != 0 && old(free) != []
      requires head == old(Addr2()) && chunks == old(chunks) && heap.regions == old(heap.regions)
      requires OnlyBytes(old(heap.mem), heap.mem, old(head), Stride())
      requires hardened ==> Mapped(heap.mem, old(head), Stride()) && Guard(Lay(), heap.mem, old(head)) == GUARD_ALLOCATED
      requires free == old(free)[1..] && live == old(live) + 1 && peak == (if live > old(peak) then live else old(peak))
      requires growFactor == old(growFactor) && growCount == old(growCount)
      requires tainted == old(tainted) - {old(free)[0]} && stomped == old(stomped) - {old(free)[0]}
      ensures heap.Valid() && SizesOk() && SlotsOk()
    {
      HeadTaken();
      PopSizes();
      WriteKeeps(heap.regions, old(heap.mem), heap.mem);
    }

    /** `p` is the slot the view vends next, and it is gone from the list. It is reported exactly for what a
        client did to it while it was free. */
    twostate predicate Popped(p: nat, ready: View)
      reads this
    {
      && ready.free != [] && Now() == View(ready.counts, ready.free[1..])
      && IsSlot(chunks, ready.free[0]) && p == AddrOf(ready.free[0])
      && live == old(live) + 1 && peak == (if live > old(peak) then live else old(peak))
      && tainted == old(tainted) - {ready.free[0]} && stomped == old(stomped) - {ready.free[0]}
      && reports == old(reports)
         + if hardened then PopFindings(p, ready.free[0] in old(stomped), ready.free[0] in old(tainted)) else []
    }

    /** A free slot is tainted exactly while its payload is not all poison, and stomped exactly while its
        guard does not say freed. */
    lemma TaintShows(s: Slot)
      requires SlotsOk() && s in free && hardened
      ensures IsSlot(chunks, s) && (s in tainted <==> !Poisoned(Lay(), heap.mem, AddrOf(s)))
      ensures LayoutOk(Lay()) && Mapped(heap.mem, AddrOf(s), Stride())
      ensures s in stomped <==> Guard(Lay(), heap.mem, AddrOf(s)) != GUARD_FREED
    {
      SlotMapped(chunks, Stride(), heap.mem, s);
      assert StompSays(Lay(), chunks, heap.mem, free, stomped, s);
      assert MarkSays(Lay(), chunks, heap.mem, free, tainted, s);
    }

    /** Pop a non-empty list. */
    method PopReady() returns (p: nat)
      requires Valid() && head != 0
      modifies this`head, this`reports, this`free, this`live, this`peak, this`tainted, this`stomped, heap`mem
      ensures Valid() && growFactor == old(growFactor) && Rest() == old(Rest())
      ensures Popped(p, old(Now())) && p == old(head) && heap.clock == old(heap.clock) && chunks == old(chunks)
      ensures KeptBut(old(heap.mem), heap.mem, p + blockSize, if hardened then GUARD_BYTES else 0)
    {
      hide SizesOk, SlotsOk, ListValid, HeapOk, OnlyBytes;
      HeadMapped();
      if hardened {
        TaintShows(free[0]);
      }
      p := TakeHead();
      HeadGone();
    }

    /** Not a thing changed. */
    twostate predicate Unchanged()
      reads this, heap
    {
      && chunks == old(chunks) && free == old(free) && live == old(live) && reports == old(reports)
      && tainted == old(tainted) && stomped == old(stomped) && peak == old(peak)
      && heap.regions == old(heap.regions) && heap.mem == old(heap.mem)
    }

    /** A growth moves the view to what the pop is ready to take from. */
    lemma GrewReady(before: View, chunks0: seq<Chunk>)
      requires before == View(Counts(chunks0), []) && growFactor >= 2 && Grew(chunks0, chunks, growFactor)
      requires free == ChunkSlots(|chunks0|, chunks[|chunks0|].count)
      ensures Now() == Ready(before, growFactor)
    {
      assert Counts(chunks) == Counts(chunks0) + [chunks[|chunks0|].count];
    }

    lemma HeadNull()
      requires SlotsOk()
      ensures head == 0 <==> free == []
    {
      HeadSlot(Lay(), chunks, heap.mem, head, free);
    }

    /** The exhausted path of pop_head: grow if the pool is dynamic. */
    method GrowReady() returns (ok: bool)
      requires Valid() && head == 0
      modifies this`overflow, this`head, this`growCount, this`chunks, this`free, heap
      ensures Valid() && (ok <==> old(CanGrow())) && old(chunks) <= chunks
      ensures Image() == GrownImage(Terms(), old(Image()))
      ensures ok ==> head != 0 && Now() == Ready(old(Now()), growFactor)
      ensures !ok ==> chunks == old(chunks) && free == old(free) && heap.regions == old(heap.regions) && heap.mem == old(heap.mem)
      ensures Kept(old(heap.mem), heap.mem) && old(free) == [] && Rest() == old(Rest())
    {
      HeadNull();
      if growFactor < 2 {
        return false;
      }
      ok := GrowPool();
      if ok {
        GrewReady(old(Now()), old(chunks));
      }
    }

    /** A pop of an exhausted pool: grow, and pop the first slot of the new chunk. */
    method GrowAndPop() returns (p: nat)
      requires Valid() && head == 0
      modifies this, heap
      ensures Valid() && growFactor == old(growFactor) && old(free) == [] && Rest() == old(Rest()) && old(chunks) <= chunks
      ensures p == 0 ==> Unchanged()
      ensures p != 0 ==> Popped(p, Ready(old(Now()), growFactor))
      ensures Image() == PoppedImage(Terms(), old(Image())) && p == VendedAddress(Terms(), old(Image()))
      ensures p == 0 <==> PrimedImage(Terms(), old(Image())).free == []
      ensures KeptBut(old(heap.mem), heap.mem, p + blockSize, if hardened && p != 0 then GUARD_BYTES else 0)
      ensures p != 0 <==> old(CanGrow())
    {
      hide Valid, CanGrow, GrownImage;
      var ok := GrowReady();
      assert growFactor == old(growFactor) && reports == old(reports) && live == old(live);
      assert tainted == old(tainted) && stomped == old(stomped);
      if !ok {
        return 0;
      }
      ghost var m := heap.mem;
      p := PopReady();
      KeptThen(old(heap.mem), m, heap.mem, p + blockSize, if hardened then GUARD_BYTES else 0);
    }

    /** pop_head. Null: the list was empty and nothing changed. Otherwise `p` is the slot the view was
        ready to vend; outside its guard no mapped byte changed; and the only possible report is a
        write to that slot while it was free. */
    method PopHead() returns (p: nat)
      requires Valid()
      modifies this, heap
      ensures Valid() && growFactor == old(growFactor) && Rest() == old(Rest()) && old(chunks) <= chunks
      ensures p == 0 ==> Unchanged()
      ensures p != 0 ==> Popped(p, Ready(old(Now()), growFactor))
      ensures Image() == PoppedImage(Terms(), old(Image())) && p == VendedAddress(Terms(), old(Image()))
      ensures p == 0 <==> PrimedImage(Terms(), old(Image())).free == []
      ensures KeptBut(old(heap.mem), heap.mem, p + blockSize, if hardened && p != 0 then GUARD_BYTES else 0)
      ensures old(free) != [] ==> p == old(head) != 0 && chunks == old(chunks) && heap.regions == old(heap.regions)
      ensures p == 0 <==> old(free) == [] && !old(CanGrow())
    {
      HeadNull();
      if head == 0 {
        p := GrowAndPop();
      } else {
        p := PopReady();
        assert growFactor == old(growFactor) && heap.regions == old(heap.regions) && chunks == old(chunks);
      }
    }

    /** push_head as the program does it. `s` is the slot at `p`. */
    method PutHead(p: nat, ghost s: Slot)
      requires LayoutOk(Lay()) && Mapped(heap.mem, p, Stride()) && p < WORD_LIMIT && head < WORD_LIMIT
      modifies this`head, this`reports, this`free, this`live, this`tainted, heap`mem
      ensures tainted == old(tainted) - {s}
      ensures OnlyBytes(old(heap.mem), heap.mem, p, Stride()) && Mapped(heap.mem, p, Stride())
      ensures StampedFree(Lay(), heap.mem, p)
      ensures reports == old(reports) + (if hardened then GuardReport(p, old(Guard(Lay(), heap.mem, p))) else [])
      ensures var dropped := hardened && old(Guard(Lay(), heap.mem, p)) == GUARD_FREED;
        if dropped then
          head == old(head) && Link(Lay(), heap.mem, p) == old(Link(Lay(), heap.mem, p)) && free == old(free) && live == old(live)
        else
          head == p && Link(Lay(), heap.mem, p) == old(head) && free == [s] + old(free)
          && live == (if old(live) > 0 then old(live) - 1 else 0)
    {
      tainted := tainted - {s};
      if hardened {
        var enqueue := OnFree(p);
        if !enqueue {
          return;
        }
      }
      WriteNext(p, head);
      head := p;
      free := [s] + free;
      live := if live > 0 then live - 1 else 0;
    }

    lemma SlotAtHand(s: Slot)
      requires SlotsOk() && IsSlot(chunks, s)
      ensures LayoutOk(Lay()) && Mapped(heap.mem, AddrOf(s), Stride()) && 0 < AddrOf(s) < WORD_LIMIT && head < WORD_LIMIT
      ensures hardened ==> (Guard(Lay(), heap.mem, AddrOf(s)) == GUARD_FREED <==> s in free && s !in stomped)
      ensures hardened && s !in free ==> s !in stomped
      ensures hardened && s !in free ==> (Guard(Lay(), heap.mem, AddrOf(s)) == GUARD_ALLOCATED <==> s !in tainted)
    {
      SlotMapped(chunks, Stride(), heap.mem, s);
      SlotInChunk(chunks, Stride(), s);
      if hardened {
        assert StampSays(Lay(), chunks, heap.mem, free, s) && MarkSays(Lay(), chunks, heap.mem, free, tainted, s);
        assert StompSays(Lay(), chunks, heap.mem, free, stomped, s);
      }
      HeadSlot(Lay(), chunks, heap.mem, head, free);
      if free != [] {
        SlotInChunk(chunks, Stride(), free[0]);
      }
    }

    /** A push of a slot that was live keeps the invariant. */
    twostate lemma SlotReturned(s: Slot)
      requires tainted == old(tainted) - {s} && stomped == old(stomped) && (hardened ==> s !in stomped)
      requires old(SlotsOk()) && IsSlot(chunks, s) && s !in old(free) && chunks == old(chunks) && free == [s] + old(free)
      requires head == AddrOf(s) && OnlyBytes(old(heap.mem), heap.mem, head, Stride())
      requires Mapped(heap.mem, head, Stride()) && Link(Lay(), heap.mem, head) == old(head)
      requires LayoutOk(Lay()) && StampedFree(Lay(), heap.mem, head)
      ensures SlotsOk()
    {
      PushKeeps(Lay(), chunks, old(heap.mem), heap.mem, old(head), old(free), s);
      MarksMoved(Lay(), chunks, old(heap.mem), heap.mem, s, old(free), free, old(tainted), tainted);
      StompsMoved(Lay(), chunks, old(heap.mem), heap.mem, s, old(free), free, old(stomped), stomped);
    }

    /** A dropped push, of a slot already free, keeps the invariant. */
    twostate lemma SlotKeptFree(s: Slot)
      requires tainted == old(tainted) - {s} && stomped == old(stomped) && s !in stomped
      requires old(SlotsOk()) && hardened && IsSlot(chunks, s) && s in old(free) && chunks == old(chunks) && free == old(free)
      requires head == old(head) && OnlyBytes(old(heap.mem), heap.mem, AddrOf(s), Stride())
      requires Mapped(old(heap.mem), AddrOf(s), Stride()) && Mapped(heap.mem, AddrOf(s), Stride())
      requires Link(Lay(), heap.mem, AddrOf(s)) == Link(Lay(), old(heap.mem), AddrOf(s))
      requires LayoutOk(Lay()) && StampedFree(Lay(), heap.mem, AddrOf(s))
      ensures SlotsOk()
    {
      assert StampSays(Lay(), chunks, old(heap.mem), old(free), s);
      ChangeKeeps(Lay(), chunks, old(heap.mem), heap.mem, head, free, s);
      MarksMoved(Lay(), chunks, old(heap.mem), heap.mem, s, old(free), free, old(tainted), tainted);
      StompsMoved(Lay(), chunks, old(heap.mem), heap.mem, s, old(free), free, old(stomped), stomped);
    }
  
    twostate lemma PushSizes()
      requires old(SizesOk()) && chunks == old(chunks) && peak == old(peak)
      requires growFactor == old(growFactor) && growCount == old(growCount)
      requires (free == old(free) && live == old(live)) || (|free| == |old(free)| + 1 && old(live) > 0 && live == old(live) - 1)
      ensures SizesOk()
    {
    }

    lemma SomeLive(s: Slot)
      requires SizesOk() && SlotsOk() && IsSlot(chunks, s)
      ensures s !in free ==> live > 0
    {
      if s !in free {
        SomeSlotLive(chunks, free, s);
      }
    }

    /** push_head of the slot at `p`. In the hardened build a slot that is already free is reported
        and dropped; in the plain build that is undefined, so the client must not do it. */
    method PushHead(p: nat)
      requires Valid() && IsSlotAddress(chunks, Stride(), p) && MayFree(p)
      modifies this`head, this`reports, this`free, this`live, this`tainted, heap`mem
      ensures Valid()
      ensures FreedSlot(p, SlotAt(chunks, Stride(), p))
    {
      hide SlotsValid, Marked, ListValid;
      ghost var s := SlotAt(chunks, Stride(), p);
      SlotAtHand(s);
      SomeLive(s);
      PutHead(p, s);
      assert FreedSlot(p, s);
      PushSizes();
      WriteKeeps(heap.regions, old(heap.mem), heap.mem);
      if s in old(free) {
        SlotKeptFree(s);
        assert Valid();
      } else {
        SlotReturned(s);
        assert Valid();
      }
    }

    // ---- The entry points ------------------------------------------------------------------

    method BlockInChunkOf(base: nat, count: size, p: size, ghost k: nat) returns (found: bool)
      requires Stride() > 0 && k < |chunks| && chunks[k] == Chunk(base, count) && ChunkOk(chunks[k], Stride())
      ensures found <==> InChunkSlots(chunks, Stride(), k, p)
    {
      RangeTestExact(chunks[k], Stride(), p);
      found := BlockInChunk(base, count, Stride(), p);
    }

    /** is_block_in_range: true for exactly the addresses of this pool's slots. */
    method IsBlockInRange(p: size) returns (found: bool)
      requires SlotsOk() && ListOk()
      ensures found <==> IsSlotAddress(chunks, Stride(), p)
    {
      SlotAddressInChunk(chunks, Stride(), p);
      assert ChunkOk(chunks[0], Stride());
      found := BlockInChunkOf(backing, blockCount, p, 0);
      if found {
        return;
      }
      var list := overflow;
      ghost var k := |chunks|;
      assert chunks[..k] == chunks;
      while list.Cons?
        invariant 1 <= k <= |chunks| && Lists(list, chunks[..k])
        invariant forall j :: k <= j < |chunks| ==> !InChunkSlots(chunks, Stride(), j, p)
        decreases list
      {
        assert chunks[..k][..k - 1] == chunks[..k - 1];
        assert ChunkOk(chunks[k - 1], Stride());
        found := BlockInChunkOf(list.backing, list.count, p, k - 1);
        if found {
          return;
        }
        list := list.next;
        k := k - 1;
      }
      return false;
    }


    /** memory_pool_alloc. */
    static method Alloc(pool: MemoryPool?) returns (p: nat)
      requires pool != null ==> pool.Valid()
      modifies if pool == null then {} else {pool, pool.heap}
      ensures pool == null ==> p == 0
      ensures pool != null ==> pool.Valid() && pool.growFactor == old(pool.growFactor)
      ensures pool != null ==> pool.Rest() == old(pool.Rest()) && old(pool.chunks) <= pool.chunks
      ensures pool != null && p == 0 ==> pool.Unchanged()
      ensures pool != null && p != 0 ==> pool.Popped(p, Ready(old(pool.Now()), pool.growFactor))
      ensures pool != null ==>
        pool.Image() == PoppedImage(pool.Terms(), old(pool.Image())) && p == VendedAddress(pool.Terms(), old(pool.Image()))
      ensures pool != null ==> (p == 0 <==> PrimedImage(pool.Terms(), old(pool.Image())).free == [])
      ensures pool != null ==>
        KeptBut(old(pool.heap.mem), pool.heap.mem, p + pool.blockSize, if pool.hardened && p != 0 then GUARD_BYTES else 0)
      ensures pool != null && old(pool.free) != [] ==> p == old(pool.head) != 0
      ensures pool != null && old(pool.free) != [] ==>
        pool.chunks == old(pool.chunks) && pool.heap.regions == old(pool.heap.regions)
      ensures pool != null ==> (p == 0 <==> old(pool.free) == [] && !old(pool.CanGrow()))
    {
      if pool == null {
        return 0;
      }
      p := pool.PopHead();
    }

    /** In the plain build the client must not free a slot that is free already, and in the hardened build not
        one whose guard, which would give that away, it has changed. */
    ghost predicate MayFree(p: nat)
      reads this
    {
      !IsSlotAddress(chunks, Stride(), p)
      || (var s := SlotAt(chunks, Stride(), p); s !in free || (hardened && s !in stomped))
    }

    /** Freeing the slot `s` at `p`: if live it becomes the head of the list; if free (hardened build)
        that is reported and the list stays as it was. */
    twostate predicate FreedSlot(p: nat, s: Slot)
      reads this, heap
    {
      && free == (if s in old(free) then old(free) else [s] + old(free))
      && live == (if s in old(free) then old(live) else old(live) - 1)
      && tainted == old(tainted) - {s} && stomped == old(stomped)
      && reports == old(reports) + (if hardened then FreeReport(p, s in old(free), s in old(tainted)) else [])
      && OnlyBytes(old(heap.mem), heap.mem, p, Stride())
    }

    /** What a free does. An address that is not a slot's changes nothing at all. */
    twostate predicate Freed(p: nat)
      reads this, heap
    {
      && Valid() && chunks == old(chunks) && heap.regions == old(heap.regions) && growFactor == old(growFactor)
      && overflow == old(overflow) && peak == old(peak)
      && (if IsSlotAddress(chunks, Stride(), p) then FreedSlot(p, SlotAt(chunks, Stride(), p))
          else free == old(free) && head == old(head) && live == old(live) && tainted == old(tainted) && stomped == old(stomped)
               && reports == old(reports) && heap.mem == old(heap.mem))
    }

    lemma NullIsNoSlot()
      requires SlotsOk()
      ensures !IsSlotAddress(chunks, Stride(), 0)
    {
      if IsSlotAddress(chunks, Stride(), 0) {
        SlotInChunk(chunks, Stride(), SlotAt(chunks, Stride(), 0));
      }
    }

    /** memory_pool_free. */
    static method Free(pool: MemoryPool?, p: size)
      requires pool != null ==> pool.Valid() && pool.MayFree(p)
      modifies if pool == null then {} else {pool, pool.heap}
      ensures pool != null ==> pool.Freed(p) && pool.Image() == PushedImage(pool.Terms(), old(pool.Image()), p)
    {
      hide SlotsValid, Marked, ListValid, HeapOk;
      if pool == null {
        return;
      }
      pool.NullIsNoSlot();
      if p == 0 {
        return;
      }
      var found := pool.IsBlockInRange(p);
      assert found <==> IsSlotAddress(pool.chunks, pool.Stride(), p);
      if !found {
        return;
      }
      pool.PushHead(p);
    }
  }
}
