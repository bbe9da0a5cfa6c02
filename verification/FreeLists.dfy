/** The diagnostic walk over a pool's free list. */
module FreeLists {
  import opened Common
  import opened Sizes
  import opened Memory
  import opened Slots
  import opened MemoryPools

  /** The address of entry `i` of the pool's free list; null past its end, or without a pool. */
  ghost function Entry(pool: MemoryPool?, i: nat): nat
    reads if pool == null then {} else {pool}
    requires pool != null ==> AllSlots(pool.chunks, pool.free)
  {
    if pool == null then 0 else AddrAt(pool.chunks, pool.Stride(), pool.free, i)
  }

  ghost function Length(pool: MemoryPool?): nat
    reads if pool == null then {} else {pool}
  {
    if pool == null then 0 else |pool.free|
  }

  ghost predicate Walkable(pool: MemoryPool?)
    reads if pool == null then {} else {pool, pool.heap}
  {
    pool != null ==> pool.Valid()
  }

  /** One step along the links in memory is one step along the abstract list. */
  lemma Linked(pool: MemoryPool, i: nat)
    requires pool.Valid() && i < |pool.free|
    ensures LayoutOk(pool.Lay()) && Mapped(pool.heap.mem, Entry(pool, i), pool.Stride()) && Entry(pool, i) != 0
    ensures Link(pool.Lay(), pool.heap.mem, Entry(pool, i)) == Entry(pool, i + 1)
    ensures Entry(pool, i + 1) % POOL_ALIGNMENT == 0
  {
    var l, chunks, free := pool.Lay(), pool.chunks, pool.free;
    assert LinkAt(l, chunks, pool.heap.mem, free, i);
    SlotMapped(chunks, l.stride, pool.heap.mem, free[i]);
    SlotInChunk(chunks, l.stride, free[i]);
    if i + 1 < |free| {
      SlotInChunk(chunks, l.stride, free[i + 1]);
    }
  }

  /** Only the end is null, and no address comes twice. */
  lemma EntriesDiffer(pool: MemoryPool, i: nat, j: nat)
    requires pool.Valid() && i < j <= |pool.free|
    ensures Entry(pool, i) != Entry(pool, j)
  {
    SlotInChunk(pool.chunks, pool.Stride(), pool.free[i]);
    if j < |pool.free| {
      SlotsApart(pool.chunks, pool.Stride(), pool.free[i], pool.free[j]);
    }
  }

  lemma EndIsNull(pool: MemoryPool, i: nat)
    requires pool.Valid() && i <= |pool.free|
    ensures Entry(pool, i) == 0 <==> i == |pool.free|
  {
    if i < |pool.free| {
      Linked(pool, i);
    }
  }

  /** read_next of an entry reports nothing. */
  method ReadEntry(pool: MemoryPool, current: nat, ghost i: nat) returns (p: nat)
    requires pool.Valid() && i < |pool.free| && current == Entry(pool, i)
    modifies pool`reports
    ensures pool.Valid() && p == Entry(pool, i + 1) && pool.reports == old(pool.reports)
  {
    Linked(pool, i);
    p := pool.ReadNext(current);
  }

  /** memory_pool_debug_free_list_head. */
  method FreeListHead(pool: MemoryPool?) returns (p: nat)
    requires Walkable(pool)
    ensures p == Entry(pool, 0)
  {
    p := if pool == null then 0 else pool.head;
  }

  /** memory_pool_debug_free_list_next of an entry, or of null. */
  method FreeListNext(pool: MemoryPool?, current: nat, ghost i: nat) returns (p: nat)
    requires Walkable(pool) && current == Entry(pool, i) && i <= Length(pool)
    modifies if pool == null then {} else {pool}`reports
    ensures Walkable(pool) && p == Entry(pool, if i < Length(pool) then i + 1 else i)
    ensures pool != null ==> pool.reports == old(pool.reports)
  {
    if pool == null {
      return 0;
    }
    EndIsNull(pool, i);
    if current == 0 {
      return 0;
    }
    p := ReadEntry(pool, current, i);
  }

  class FreeListIterator {
    const pool: MemoryPool?
    var current: nat
    /** How many entries were passed. */
    ghost var at: nat

    constructor (pool: MemoryPool?, current: nat, ghost at: nat)
      ensures this.pool == pool && this.current == current && this.at == at
    {
      this.pool, this.current, this.at := pool, current, at;
    }

    ghost predicate Valid()
      reads this, if pool == null then {} else {pool, pool.heap}
    {
      Walkable(pool) && at <= Length(pool) && current == Entry(pool, at)
    }

    /** Pre-increment: the next free slot; at the end it stays there. */
    method Increment()
      requires Valid()
      modifies this, if pool == null then {} else {pool}`reports
      ensures Valid() && at == (if old(at) < Length(pool) then old(at) + 1 else old(at))
      ensures pool != null ==> pool.reports == old(pool.reports)
    {
      current := FreeListNext(pool, current, at);
      at := if at < Length(pool) then at + 1 else at;
    }

    /** Two iterators over one pool are equal exactly at the same place. */
    method Equals(that: FreeListIterator) returns (r: bool)
      requires Valid() && that.Valid() && that.pool == pool
      ensures r <==> at == that.at
    {
      if pool != null && at < that.at {
        EntriesDiffer(pool, at, that.at);
      }
      if pool != null && that.at < at {
        EntriesDiffer(pool, that.at, at);
      }
      r := current == that.current;
    }
  }

  /** One turn of a loop over a view: the entry, and whether it was the last. */
  method Turn(it: FreeListIterator, end: FreeListIterator) returns (entry: nat, done: bool)
    requires it != end && it.Valid() && end.Valid() && it.pool == end.pool && it.at < Length(it.pool) == end.at
    modifies it, if it.pool == null then {} else {it.pool}`reports
    ensures it.Valid() && end.Valid() && entry == Entry(it.pool, old(it.at)) && it.at == old(it.at) + 1 && (done <==> it.at == end.at)
    ensures it.pool != null ==> it.pool.reports == old(it.pool.reports)
  {
    hide MemoryPool.Valid;
    entry := it.current;
    it.Increment();
    done := it.Equals(end);
  }

  /** Walking a view from begin to end visits exactly the abstract free list, in order. */
  method Enumerate(pool: MemoryPool?) returns (entries: seq<nat>)
    requires Walkable(pool)
    modifies if pool == null then {} else {pool}`reports
    ensures |entries| == Length(pool) && forall i :: 0 <= i < |entries| ==> entries[i] == Entry(pool, i)
    ensures Walkable(pool) && (pool != null ==> pool.reports == old(pool.reports))
  {
    hide MemoryPool.Valid;
    if pool != null {
      pool.Basics();
    }
    var head := FreeListHead(pool);
    var it := new FreeListIterator(pool, head, 0);
    var end := new FreeListIterator(pool, 0, Length(pool));
    entries := [];
    var done := it.Equals(end);
    while !done
      invariant it.Valid() && end.Valid() && it.pool == pool == end.pool && end.at == Length(pool) && fresh(it) && fresh(end)
      invariant pool != null ==> AllSlots(pool.chunks, pool.free)
      invariant it != end && (done <==> it.at == Length(pool))
      invariant |entries| == it.at && forall i :: 0 <= i < |entries| ==> entries[i] == Entry(pool, i)
      invariant pool != null ==> pool.reports == old(pool.reports)
      decreases Length(pool) - it.at
    {
      hide FreeListIterator.Valid, Entry;
      var entry: nat;
      entry, done := Turn(it, end);
      entries := entries + [entry];
    }
  }

  lemma InEntries(pool: MemoryPool, entries: seq<nat>, p: nat)
    requires pool.Valid() && IsSlotAddress(pool.chunks, pool.Stride(), p)
    requires |entries| == |pool.free| && forall i :: 0 <= i < |entries| ==> entries[i] == Entry(pool, i)
    ensures p in entries <==> SlotAt(pool.chunks, pool.Stride(), p) in pool.free
  {
    var s := SlotAt(pool.chunks, pool.Stride(), p);
    if p in entries {
      var i :| 0 <= i < |entries| && entries[i] == p;
      SlotAddressUnique(pool.chunks, pool.Stride(), s, pool.free[i]);
    }
    if s in pool.free {
      var i :| 0 <= i < |pool.free| && pool.free[i] == s;
      assert entries[i] == p;
    }
  }

  /** Whether the slot at `p` is free, as the walk tells. */
  method OnFreeList(pool: MemoryPool, p: size) returns (r: bool)
    requires pool.Valid() && IsSlotAddress(pool.chunks, pool.Stride(), p)
    modifies pool`reports
    ensures pool.Valid() && pool.reports == old(pool.reports) && (r <==> SlotAt(pool.chunks, pool.Stride(), p) in pool.free)
  {
    hide MemoryPool.Valid;
    pool.Basics();
    var entries := Enumerate(pool);
    InEntries(pool, entries, p);
    r := p in entries;
  }

  /** MayFree, found out by walking the free list. */
  method MayFreeNow(pool: MemoryPool, p: size) returns (ok: bool)
    requires pool.Valid()
    modifies pool`reports
    ensures pool.Valid() && pool.reports == old(pool.reports) && (ok <==> pool.MayFree(p))
  {
    hide MemoryPool.Valid;
    var isSlot := InRange(pool, p);
    ok := !isSlot;
    if isSlot {
      ok := SaysFreed(pool, p);
      if !ok {
        var isFree := OnFreeList(pool, p);
        ok := !isFree;
      }
    }
  }

  /** Whether the guard of the slot at `p` reads "freed". */
  method SaysFreed(pool: MemoryPool, p: size) returns (r: bool)
    requires pool.Valid() && IsSlotAddress(pool.chunks, pool.Stride(), p)
    ensures var s := SlotAt(pool.chunks, pool.Stride(), p);
      r <==> pool.hardened && s in pool.free && s !in pool.stomped
  {
    pool.SlotAtHand(SlotAt(pool.chunks, pool.Stride(), p));
    r := pool.hardened && LoadWord(pool.heap.mem, p + pool.blockSize) == GUARD_FREED;
  }

  method InRange(pool: MemoryPool, p: size) returns (found: bool)
    requires pool.Valid()
    ensures found <==> IsSlotAddress(pool.chunks, pool.Stride(), p)
  {
    found := pool.IsBlockInRange(p);
  }

  /** memory_pool_debug_free_count. */
  method FreeCount(pool: MemoryPool?) returns (count: nat)
    requires Walkable(pool)
    modifies if pool == null then {} else {pool}`reports
    ensures count == Length(pool) && Walkable(pool) && (pool != null ==> pool.reports == old(pool.reports))
  {
    count := 0;
    if pool == null {
      return;
    }
    pool.Basics();
    hide MemoryPool.Valid;
    var slot := FreeListHead(pool);
    EndIsNull(pool, 0);
    while slot != 0
      invariant pool.Valid() && count <= |pool.free| && slot == Entry(pool, count) && pool.reports == old(pool.reports)
      invariant slot == 0 <==> count == |pool.free|
      decreases |pool.free| - count
    {
      slot := ReadEntry(pool, slot, count);
      count := count + 1;
      EndIsNull(pool, count);
    }
  }
}
