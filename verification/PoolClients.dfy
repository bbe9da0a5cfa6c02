/** What clients of a pool may do to its memory, and what the hardened build makes of it over whole
    runs. */
module PoolClients {
  import opened Common
  import opened Sizes
  import opened Words
  import opened Memory
  import opened Slots
  import opened Heap
  import PoolImages
  import opened MemoryPools

  lemma ByteWritten(l: Layout, chunks: seq<Chunk>, m: Bytes, s: Slot, a: nat, b: byte)
    requires LayoutOk(l) && ChunksOk(chunks, l.stride) && ChunksMapped(chunks, l.stride, m) && IsSlot(chunks, s)
    requires Addr(chunks, l.stride, s) <= a < Addr(chunks, l.stride, s) + l.blockSize
    ensures var p, m' := Addr(chunks, l.stride, s), m[a := b];
      && OnlySlot(chunks, l.stride, m, m', s) && Mapped(m, p, l.stride) && Mapped(m', p, l.stride)
      && (l.hardened ==> Guard(l, m', p) == Guard(l, m, p))
      && (a >= p + POINTER_BYTES ==> Link(l, m', p) == Link(l, m, p))
  {
    var p, m' := Addr(chunks, l.stride, s), m[a := b];
    SlotMapped(chunks, l.stride, m, s);
    if l.hardened {
      LoadAgrees(m, m', p + l.blockSize);
    }
    if a >= p + POINTER_BYTES {
      LoadAgrees(m, m', p);
    }
  }

  /** A client that holds a block may write anything into it: the pool is not concerned. */
  method WriteLive(pool: MemoryPool, ghost s: Slot, a: nat, b: byte)
    requires pool.Valid() && IsSlot(pool.chunks, s) && s !in pool.free
    requires pool.AddrOf(s) <= a < pool.AddrOf(s) + pool.blockSize
    modifies pool.heap`mem
    ensures pool.Valid() && a in old(pool.heap.mem) && pool.heap.mem == old(pool.heap.mem)[a := b]
  {
    ghost var l, m := pool.Lay(), pool.heap.mem;
    ByteWritten(l, pool.chunks, m, s, a, b);
    pool.heap.mem := pool.heap.mem[a := b];
    ghost var m' := pool.heap.mem;
    WriteKeeps(pool.heap.regions, m, m');
    if l.hardened {
      assert StampSays(l, pool.chunks, m, pool.free, s) && MarkSays(l, pool.chunks, m, pool.free, pool.tainted, s);
      assert StompSays(l, pool.chunks, m, pool.free, pool.stomped, s);
    }
    ChangeKeeps(l, pool.chunks, m, m', pool.head, pool.free, s);
    MarksMoved(l, pool.chunks, m, m', s, pool.free, pool.free, pool.tainted, pool.tainted);
    StompsMoved(l, pool.chunks, m, m', s, pool.free, pool.free, pool.stomped, pool.stomped);
  }

  /** A free slot is tainted exactly while its payload beyond the link is not all poison. */
  ghost function Soiled(l: Layout, mem: Bytes, p: nat, tainted: set<Slot>, s: Slot): set<Slot> {
    if Poisoned(l, mem, p) then tainted - {s} else tainted + {s}
  }

  lemma ScribbleKeeps(l: Layout, chunks: seq<Chunk>, m: Bytes, head: nat, free: seq<Slot>, tainted: set<Slot>,
                      stomped: set<Slot>, s: Slot, a: nat, b: byte)
    requires SlotsValid(l, chunks, m, head, free) && Marked(l, chunks, m, free, tainted) && Stomps(l, chunks, m, free, stomped)
    requires l.hardened && IsSlot(chunks, s) && s in free
    requires Addr(chunks, l.stride, s) + POINTER_BYTES <= a < Addr(chunks, l.stride, s) + l.blockSize
    ensures a in m && SlotsValid(l, chunks, m[a := b], head, free)
    ensures Marked(l, chunks, m[a := b], free, Soiled(l, m[a := b], Addr(chunks, l.stride, s), tainted, s))
    ensures Stomps(l, chunks, m[a := b], free, stomped)
  {
    var m' := m[a := b];
    ByteWritten(l, chunks, m, s, a, b);
    assert StompSays(l, chunks, m, free, stomped, s);
    ChangeKeeps(l, chunks, m, m', head, free, s);
    StompsMoved(l, chunks, m, m', s, free, free, stomped, stomped);
    MarksMoved(l, chunks, m, m', s, free, free, tainted, Soiled(l, m', Addr(chunks, l.stride, s), tainted, s));
  }

  /** A write through a dangling pointer, beyond the link of a free slot: any byte, poison too. */
  method Scribble(pool: MemoryPool, ghost s: Slot, a: nat, b: byte)
    requires pool.Valid() && pool.hardened && IsSlot(pool.chunks, s) && s in pool.free
    requires pool.AddrOf(s) + POINTER_BYTES <= a < pool.AddrOf(s) + pool.blockSize
    modifies pool`tainted, pool.heap`mem
    ensures pool.Valid() && a in old(pool.heap.mem) && pool.heap.mem == old(pool.heap.mem)[a := b]
    ensures pool.tainted == Soiled(pool.Lay(), pool.heap.mem, pool.AddrOf(s), old(pool.tainted), s)
  {
    ScribbleKeeps(pool.Lay(), pool.chunks, pool.heap.mem, pool.head, pool.free, pool.tainted, pool.stomped, s, a, b);
    WriteKeeps(pool.heap.regions, pool.heap.mem, pool.heap.mem[a := b]);
    pool.heap.mem := pool.heap.mem[a := b];
    pool.tainted := Soiled(pool.Lay(), pool.heap.mem, pool.AddrOf(s), pool.tainted, s);
  }

  ghost function Restamped(tainted: set<Slot>, s: Slot, value: nat): set<Slot> {
    if value == GUARD_ALLOCATED then tainted - {s} else tainted + {s}
  }

  lemma OverrunKeeps(l: Layout, chunks: seq<Chunk>, m: Bytes, head: nat, free: seq<Slot>, tainted: set<Slot>,
                     stomped: set<Slot>, s: Slot, value: nat)
    requires SlotsValid(l, chunks, m, head, free) && Marked(l, chunks, m, free, tainted) && Stomps(l, chunks, m, free, stomped)
    requires l.hardened && IsSlot(chunks, s) && s !in free && value < WORD_LIMIT && value != GUARD_FREED
    ensures var m' := StoreWord(m, Addr(chunks, l.stride, s) + l.blockSize, value);
      SlotsValid(l, chunks, m', head, free) && Marked(l, chunks, m', free, Restamped(tainted, s, value))
      && Stomps(l, chunks, m', free, stomped)
  {
    var p := Addr(chunks, l.stride, s);
    var m' := StoreWord(m, p + l.blockSize, value);
    SlotMapped(chunks, l.stride, m, s);
    GuardStored(l, m, p, value);
    assert StompSays(l, chunks, m, free, stomped, s);
    ChangeKeeps(l, chunks, m, m', head, free, s);
    MarksMoved(l, chunks, m, m', s, free, free, tainted, Restamped(tainted, s, value));
    StompsMoved(l, chunks, m, m', s, free, free, stomped, stomped);
  }

  /** A write past the end of a live block that leaves `value` in its guard word. */
  method Overrun(pool: MemoryPool, ghost s: Slot, p: nat, value: nat)
    requires pool.Valid() && pool.hardened && IsSlot(pool.chunks, s) && s !in pool.free && p == pool.AddrOf(s)
    requires value < WORD_LIMIT && value != GUARD_FREED
    modifies pool`tainted, pool.heap`mem
    ensures pool.Valid() && pool.heap.mem == StoreWord(old(pool.heap.mem), p + pool.blockSize, value)
    ensures pool.tainted == Restamped(old(pool.tainted), s, value)
  {
    OverrunKeeps(pool.Lay(), pool.chunks, pool.heap.mem, pool.head, pool.free, pool.tainted, pool.stomped, s, value);
    WriteKeeps(pool.heap.regions, pool.heap.mem, StoreWord(pool.heap.mem, p + pool.blockSize, value));
    pool.heap.mem := StoreWord(pool.heap.mem, p + pool.blockSize, value);
    pool.tainted := Restamped(pool.tainted, s, value);
  }

  ghost function Stamped(stomped: set<Slot>, s: Slot, value: nat): set<Slot> {
    if value == GUARD_FREED then stomped - {s} else stomped + {s}
  }

  lemma StompKeeps(l: Layout, chunks: seq<Chunk>, m: Bytes, head: nat, free: seq<Slot>, tainted: set<Slot>,
                   stomped: set<Slot>, s: Slot, value: nat)
    requires SlotsValid(l, chunks, m, head, free) && Marked(l, chunks, m, free, tainted) && Stomps(l, chunks, m, free, stomped)
    requires l.hardened && IsSlot(chunks, s) && s in free && value < WORD_LIMIT
    ensures var m' := StoreWord(m, Addr(chunks, l.stride, s) + l.blockSize, value);
      SlotsValid(l, chunks, m', head, free) && Marked(l, chunks, m', free, tainted)
      && Stomps(l, chunks, m', free, Stamped(stomped, s, value))
  {
    var p := Addr(chunks, l.stride, s);
    var m' := StoreWord(m, p + l.blockSize, value);
    SlotMapped(chunks, l.stride, m, s);
    GuardStored(l, m, p, value);
    assert MarkSays(l, chunks, m, free, tainted, s);
    ChangeKeeps(l, chunks, m, m', head, free, s);
    MarksMoved(l, chunks, m, m', s, free, free, tainted, tainted);
    StompsMoved(l, chunks, m, m', s, free, free, stomped, Stamped(stomped, s, value));
  }

  /** A write through a dangling pointer that leaves `value` in the guard word of a free slot. */
  method Stomp(pool: MemoryPool, ghost s: Slot, p: nat, value: nat)
    requires pool.Valid() && pool.hardened && IsSlot(pool.chunks, s) && s in pool.free && p == pool.AddrOf(s)
    requires value < WORD_LIMIT
    modifies pool`stomped, pool.heap`mem
    ensures pool.Valid() && pool.heap.mem == StoreWord(old(pool.heap.mem), p + pool.blockSize, value)
    ensures pool.stomped == Stamped(old(pool.stomped), s, value)
  {
    StompKeeps(pool.Lay(), pool.chunks, pool.heap.mem, pool.head, pool.free, pool.tainted, pool.stomped, s, value);
    WriteKeeps(pool.heap.regions, pool.heap.mem, StoreWord(pool.heap.mem, p + pool.blockSize, value));
    pool.heap.mem := StoreWord(pool.heap.mem, p + pool.blockSize, value);
    pool.stomped := Stamped(pool.stomped, s, value);
  }

  /** A block given back is the next one vended, and taking it undoes the free. */
  method GiveAndTake(pool: MemoryPool, p: size) returns (q: nat)
    requires pool.Valid() && pool.Holds(p)
    modifies pool, pool.heap
    ensures pool.Valid() && q == p && pool.Now() == old(pool.Now()) && pool.chunks == old(pool.chunks)
    ensures pool.live == old(pool.live) && pool.heap.regions == old(pool.heap.regions)
    ensures forall a :: a in old(pool.heap.mem) && !(p <= a < p + pool.Stride()) ==>
      a in pool.heap.mem && pool.heap.mem[a] == old(pool.heap.mem)[a]
  {
    hide MemoryPool.Valid;
    ghost var m, free, s := pool.heap.mem, pool.free, SlotAt(pool.chunks, pool.Stride(), p);
    pool.Basics();
    MemoryPool.Free(pool, p);
    pool.Basics();
    assert pool.free == [s] + free && pool.free[1..] == free;
    ghost var m' := pool.heap.mem;
    q := MemoryPool.Alloc(pool);
    assert KeptBut(m, m', p, pool.Stride()) && KeptBut(m', pool.heap.mem, p + pool.blockSize, GUARD_BYTES);
  }

  lemma AtHead(pool: MemoryPool)
    requires pool.Valid() && pool.free != [] && pool.hardened
    ensures IsSlot(pool.chunks, pool.free[0]) && pool.head == pool.AddrOf(pool.free[0]) && 0 < pool.head < WORD_LIMIT
    ensures pool.head % POOL_ALIGNMENT == 0
    ensures Mapped(pool.heap.mem, pool.head, pool.Stride()) && LayoutOk(pool.Lay())
    ensures pool.free[0] in pool.tainted <==> !Poisoned(pool.Lay(), pool.heap.mem, pool.head)
  {
    pool.HeadNull();
    pool.HeadMapped();
    pool.TaintShows(pool.free[0]);
    SlotInChunk(pool.chunks, pool.Stride(), pool.free[0]);
    pool.SlotAtHand(pool.free[0]);
  }

  /** A write to the free slot at the head goes unreported when the byte is written back before the slot is
      vended. */
  method WrittenBack(pool: MemoryPool) returns (p: nat)
    requires pool.Valid() && pool.hardened && pool.blockSize > POINTER_BYTES
    requires pool.free != [] && pool.free[0] !in pool.tainted && pool.free[0] !in pool.stomped
    modifies pool, pool.heap
    ensures p == old(pool.head) && pool.reports == old(pool.reports)
  {
    hide MemoryPool.Valid, MemoryPool.CanGrow, PoolImages.GrownImage, KeptBut;
    ghost var s, m := pool.free[0], pool.heap.mem;
    AtHead(pool);
    Scribble(pool, s, pool.head + POINTER_BYTES, 0);
    Scribble(pool, s, pool.head + POINTER_BYTES, POISON_BYTE);
    assert pool.heap.mem == m;
    p := MemoryPool.Alloc(pool);
  }

  /** It also goes unreported, as a use after free, when the slot is freed once more. */
  method FreedAgain(pool: MemoryPool) returns (p: nat)
    requires pool.Valid() && pool.hardened && pool.blockSize > POINTER_BYTES
    requires pool.free != [] && pool.free[0] !in pool.stomped
    modifies pool, pool.heap
    ensures p == old(pool.head) && pool.reports == old(pool.reports) + [DoubleFree(p)]
  {
    hide MemoryPool.Valid, MemoryPool.CanGrow, PoolImages.GrownImage, KeptBut;
    ghost var s := pool.free[0];
    AtHead(pool);
    Scribble(pool, s, pool.head + POINTER_BYTES, 0);
    pool.Basics();
    SlotAddressUnique(pool.chunks, pool.Stride(), s, SlotAt(pool.chunks, pool.Stride(), pool.head));
    MemoryPool.Free(pool, pool.head);
    p := MemoryPool.Alloc(pool);
  }

  /** A write past the end of a block that is out, which leaves its guard at neither stamp, is reported when the block
      is freed, and the slot is as good as any other free one afterwards. */
  method OverflowReported(pool: MemoryPool, ghost s: Slot, p: size, value: nat)
    requires pool.Valid() && pool.hardened && IsSlot(pool.chunks, s) && s !in pool.free && p == pool.AddrOf(s)
    requires value < WORD_LIMIT && value != GUARD_FREED && value != GUARD_ALLOCATED
    modifies pool, pool.heap
    ensures pool.Valid() && pool.reports == old(pool.reports) + [BufferOverflow(p)]
    ensures pool.chunks == old(pool.chunks) && pool.free == [s] + old(pool.free) && s !in pool.tainted && s !in pool.stomped
  {
    hide MemoryPool.Valid;
    Overrun(pool, s, p, value);
    NotStomped(pool, s);
    pool.Basics();
    SlotAddressUnique(pool.chunks, pool.Stride(), s, SlotAt(pool.chunks, pool.Stride(), p));
    MemoryPool.Free(pool, p);
  }

  lemma NotStomped(pool: MemoryPool, s: Slot)
    requires pool.Valid() && pool.hardened && IsSlot(pool.chunks, s) && s !in pool.free
    ensures s !in pool.stomped
  {
    pool.SlotAtHand(s);
  }

  /** A write of anything but poison into the free slot at the head is reported when it is vended. */
  method UseAfterFreeReported(pool: MemoryPool, b: byte) returns (p: nat)
    requires pool.Valid() && pool.hardened && pool.blockSize > POINTER_BYTES && b != POISON_BYTE
    requires pool.free != [] && pool.free[0] !in pool.stomped
    modifies pool, pool.heap
    ensures p == old(pool.head) && pool.reports == old(pool.reports) + [UseAfterFree(p)]
  {
    hide MemoryPool.Valid, MemoryPool.CanGrow, PoolImages.GrownImage, KeptBut;
    ghost var s := pool.free[0];
    AtHead(pool);
    Scribble(pool, s, pool.head + POINTER_BYTES, b);
    assert !Poisoned(pool.Lay(), pool.heap.mem, pool.head) by { assert pool.heap.mem[pool.head + POINTER_BYTES] == b; }
    p := MemoryPool.Alloc(pool);
  }

  /** Anything but the freed stamp over its guard is reported then too. */
  method CorruptionReported(pool: MemoryPool, value: nat) returns (p: nat)
    requires pool.Valid() && pool.hardened && value < WORD_LIMIT && value != GUARD_FREED
    requires pool.free != [] && pool.free[0] !in pool.tainted
    modifies pool, pool.heap
    ensures p == old(pool.head) && pool.reports == old(pool.reports) + [FreeListCorruption(p)]
  {
    hide MemoryPool.Valid, MemoryPool.CanGrow, PoolImages.GrownImage, KeptBut;
    ghost var s := pool.free[0];
    AtHead(pool);
    Stomp(pool, s, pool.head, value);
    p := MemoryPool.Alloc(pool);
  }

  /** A free of a free slot is reported as a double free exactly if its guard has not been written over since;
      if it was, with the allocated stamp, nothing is reported. */
  lemma DoubleFreeReportedIff(pool: MemoryPool, s: Slot)
    requires pool.Valid() && pool.hardened && s in pool.free
    ensures IsSlot(pool.chunks, s) && LayoutOk(pool.Lay()) && Mapped(pool.heap.mem, pool.AddrOf(s), pool.Stride())
    ensures var p, guard := pool.AddrOf(s), Guard(pool.Lay(), pool.heap.mem, pool.AddrOf(s));
      && (GuardReport(p, guard) == [DoubleFree(p)] <==> s !in pool.stomped)
      && (GuardReport(p, guard) == [] <==> guard == GUARD_ALLOCATED)
  {
    pool.TaintShows(s);
    pool.SlotAtHand(s);
  }

  lemma GuardOnly(l: Layout, m: Bytes, m': Bytes, p: nat)
    requires LayoutOk(l) && l.hardened && Mapped(m, p, l.stride) && OnlyBytes(m, m', p + l.blockSize, GUARD_BYTES)
    ensures Mapped(m', p, l.stride) && Link(l, m', p) == Link(l, m, p) && (Poisoned(l, m', p) <==> Poisoned(l, m, p))
  {
    LoadAgrees(m, m', p);
  }

  /** One that goes unreported: the guard of the free slot at the head is overwritten with the allocated stamp
      and the slot freed. The list is now a cycle. */
  method FreedUnnoticed(pool: MemoryPool)
    requires pool.Valid() && pool.hardened && pool.free != []
    modifies pool, pool.heap
    ensures pool.reports == old(pool.reports) && pool.head == old(pool.head) && Cyclic(pool)
    ensures pool.free == [old(pool.free)[0]] + old(pool.free)
  {
    hide MemoryPool.Valid, Cyclic, Poisoned, Stamped, OnlyBytes;
    ghost var s := pool.free[0];
    AtHead(pool);
    GuardStored(pool.Lay(), pool.heap.mem, pool.head, GUARD_ALLOCATED);
    Stomp(pool, s, pool.head, GUARD_ALLOCATED);
    Enqueue(pool, s);
  }

  method Enqueue(pool: MemoryPool, ghost s: Slot)
    requires LayoutOk(pool.Lay()) && pool.hardened && 0 < pool.head < WORD_LIMIT && pool.head % POOL_ALIGNMENT == 0
    requires Mapped(pool.heap.mem, pool.head, pool.Stride()) && Guard(pool.Lay(), pool.heap.mem, pool.head) == GUARD_ALLOCATED
    modifies pool, pool.heap
    ensures pool.reports == old(pool.reports) && pool.head == old(pool.head) && Cyclic(pool) && pool.free == [s] + old(pool.free)
  {
    pool.PutHead(pool.head, s);
  }

  /** The head of the list is stamped freed and links to itself. */
  ghost predicate Cyclic(pool: MemoryPool)
    reads pool, pool.heap
  {
    && pool.hardened && LayoutOk(pool.Lay()) && pool.head != 0 && pool.head % POOL_ALIGNMENT == 0
    && Mapped(pool.heap.mem, pool.head, pool.Stride()) && Link(pool.Lay(), pool.heap.mem, pool.head) == pool.head
    && StampedFree(pool.Lay(), pool.heap.mem, pool.head)
  }

  /** The next two pops then take the same slot, and only the second of them has something to report. */
  method TakenTwice(pool: MemoryPool) returns (p: nat, q: nat)
    requires Cyclic(pool) && |pool.free| >= 2
    modifies pool, pool.heap
    ensures p == q == old(pool.head) && pool.reports == old(pool.reports) + [FreeListCorruption(p)]
  {
    ghost var m := pool.heap.mem;
    p := pool.TakeHead();
    GuardOnly(pool.Lay(), m, pool.heap.mem, p);
    q := pool.TakeHead();
  }
}
