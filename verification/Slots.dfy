/** The slots of a pool: chunks laid out in one address space, and the abstract free list. */
module Slots {
  import opened Common
  import opened Arithmetic
  import opened Sizes
  import opened Words
  import opened Memory

  datatype Chunk = Chunk(base: nat, count: nat)

  /** Chunks are numbered in the order they were acquired. */
  datatype Slot = Slot(chunk: nat, index: nat)

  predicate IsSlot(chunks: seq<Chunk>, s: Slot) {
    s.chunk < |chunks| && s.index < chunks[s.chunk].count
  }

  /** The bytes `n` slots take: their product with the stride, unfolded one slot at a time. */
  function SlotBytes(n: nat, stride: nat): nat {
    if n == 0 then 0 else SlotBytes(n - 1, stride) + stride
  }

  lemma {:induction false} SlotBytesProduct(n: nat, stride: nat)
    ensures SlotBytes(n, stride) == n * stride
    decreases n
  {
    if n > 0 {
      SlotBytesProduct(n - 1, stride);
      assert (n - 1) * stride + stride == n * stride;
    }
  }

  lemma {:induction false} SlotBytesMonotone(m: nat, n: nat, stride: nat)
    requires m <= n
    ensures SlotBytes(m, stride) <= SlotBytes(n, stride)
    decreases n
  {
    if m < n {
      SlotBytesMonotone(m, n - 1, stride);
    }
  }

  lemma {:induction false} SlotBytesAligned(n: nat, stride: nat)
    requires stride % POOL_ALIGNMENT == 0
    ensures SlotBytes(n, stride) % POOL_ALIGNMENT == 0
    decreases n
  {
    if n > 0 {
      SlotBytesAligned(n - 1, stride);
    }
  }

  function Addr(chunks: seq<Chunk>, stride: nat, s: Slot): nat
    requires IsSlot(chunks, s)
  {
    chunks[s.chunk].base + SlotBytes(s.index, stride)
  }

  function End(c: Chunk, stride: nat): nat {
    c.base + SlotBytes(c.count, stride)
  }

  ghost predicate ChunkOk(c: Chunk, stride: nat) {
    c.base > 0 && c.base % POOL_ALIGNMENT == 0 && c.count > 0 && End(c, stride) <= SIZE_MAX
  }

  ghost predicate Apart(c: Chunk, d: Chunk, stride: nat) {
    End(c, stride) <= d.base || End(d, stride) <= c.base
  }

  ghost predicate ChunksOk(chunks: seq<Chunk>, stride: nat) {
    && stride > 0 && stride % POOL_ALIGNMENT == 0 && chunks != []
    && (forall k {:trigger ChunkOk(chunks[k], stride)} :: 0 <= k < |chunks| ==> ChunkOk(chunks[k], stride))
    && (forall j, k {:trigger Apart(chunks[j], chunks[k], stride)} :: 0 <= j < k < |chunks| ==> Apart(chunks[j], chunks[k], stride))
  }

  /** A slot lies inside its chunk. */
  lemma SlotInChunk(chunks: seq<Chunk>, stride: nat, s: Slot)
    requires ChunksOk(chunks, stride) && IsSlot(chunks, s)
    ensures chunks[s.chunk].base <= Addr(chunks, stride, s)
    ensures Addr(chunks, stride, s) + stride <= End(chunks[s.chunk], stride) <= SIZE_MAX
    ensures Addr(chunks, stride, s) > 0 && Addr(chunks, stride, s) % POOL_ALIGNMENT == 0
  {
    var c := chunks[s.chunk];
    assert ChunkOk(c, stride);
    SlotBytesMonotone(s.index + 1, c.count, stride);
    SlotBytesAligned(s.index, stride);
  }

  /** Different slots never overlap. */
  lemma SlotsApart(chunks: seq<Chunk>, stride: nat, s: Slot, t: Slot)
    requires ChunksOk(chunks, stride) && IsSlot(chunks, s) && IsSlot(chunks, t) && s != t
    ensures Addr(chunks, stride, s) + stride <= Addr(chunks, stride, t)
         || Addr(chunks, stride, t) + stride <= Addr(chunks, stride, s)
  {
    SlotInChunk(chunks, stride, s);
    SlotInChunk(chunks, stride, t);
    if s.chunk == t.chunk {
      if s.index < t.index {
        SlotBytesMonotone(s.index + 1, t.index, stride);
      } else {
        SlotBytesMonotone(t.index + 1, s.index, stride);
      }
    } else if s.chunk < t.chunk {
      assert Apart(chunks[s.chunk], chunks[t.chunk], stride);
    } else {
      assert Apart(chunks[t.chunk], chunks[s.chunk], stride);
    }
  }

  lemma SlotAddressUnique(chunks: seq<Chunk>, stride: nat, s: Slot, t: Slot)
    requires ChunksOk(chunks, stride) && IsSlot(chunks, s) && IsSlot(chunks, t)
    requires Addr(chunks, stride, s) == Addr(chunks, stride, t)
    ensures s == t
  {
    if s != t {
      SlotsApart(chunks, stride, s, t);
    }
  }

  ghost predicate IsSlotAddress(chunks: seq<Chunk>, stride: nat, p: nat) {
    exists s :: IsSlot(chunks, s) && Addr(chunks, stride, s) == p
  }

  /** The slot at an address. */
  ghost function SlotAt(chunks: seq<Chunk>, stride: nat, p: nat): (s: Slot)
    requires IsSlotAddress(chunks, stride, p)
    ensures IsSlot(chunks, s) && Addr(chunks, stride, s) == p
  {
    var s :| IsSlot(chunks, s) && Addr(chunks, stride, s) == p;
    s
  }

  // ---- The range test ----------------------------------------------------------------------

  /** The address range and remainder test of one chunk. */
  predicate BlockInChunk(base: size, count: size, stride: size, p: size)
    requires stride > 0
  {
    var end := Add(base, Mul(stride, count));
    !(p < base) && !(p >= end) && (p - base) % stride == 0
  }

  ghost predicate IsChunkSlot(c: Chunk, stride: nat, p: nat) {
    exists i :: 0 <= i < c.count && p == c.base + SlotBytes(i, stride)
  }

  /** The test passes for exactly the addresses of the chunk's slots. */
  lemma RangeTestExact(c: Chunk, stride: size, p: size)
    requires stride > 0 && ChunkOk(c, stride) && c.count <= SIZE_MAX
    ensures c.base <= SIZE_MAX
    ensures BlockInChunk(c.base, c.count, stride, p) <==> IsChunkSlot(c, stride, p)
  {
    SlotBytesProduct(c.count, stride);
    assert stride * c.count == c.count * stride;
    assert Add(c.base, Mul(stride, c.count)) == End(c, stride);
    if BlockInChunk(c.base, c.count, stride, p) {
      InRangeIsSlot(c, stride, p);
    }
    if i :| 0 <= i < c.count && p == c.base + SlotBytes(i, stride) {
      SlotBytesMonotone(i + 1, c.count, stride);
      SlotBytesProduct(i, stride);
      assert i * stride == stride * i;
      QuotientUnique(p - c.base, stride, i, 0);
    }
  }

  /** Some slot of chunk `k` has this address. */
  ghost predicate InChunkSlots(chunks: seq<Chunk>, stride: nat, k: nat, p: nat)
    requires k < |chunks|
  {
    IsChunkSlot(chunks[k], stride, p)
  }

  lemma SlotAddressInChunk(chunks: seq<Chunk>, stride: nat, p: nat)
    ensures IsSlotAddress(chunks, stride, p) <==> exists k :: 0 <= k < |chunks| && InChunkSlots(chunks, stride, k, p)
  {
    if s :| IsSlot(chunks, s) && Addr(chunks, stride, s) == p {
      assert InChunkSlots(chunks, stride, s.chunk, p);
    }
    if k :| 0 <= k < |chunks| && InChunkSlots(chunks, stride, k, p) {
      var i :| 0 <= i < chunks[k].count && p == chunks[k].base + SlotBytes(i, stride);
      assert IsSlot(chunks, Slot(k, i)) && Addr(chunks, stride, Slot(k, i)) == p;
    }
  }

  lemma InRangeIsSlot(c: Chunk, stride: nat, p: nat)
    requires stride > 0 && c.base <= p < End(c, stride) && (p - c.base) % stride == 0
    ensures IsChunkSlot(c, stride, p)
  {
    var i := (p - c.base) / stride;
    assert p - c.base == stride * i && stride * i == i * stride;
    SlotBytesProduct(i, stride);
    if i >= c.count {
      SlotBytesMonotone(c.count, i, stride);
    }
  }

  // ---- The free list -----------------------------------------------------------------------

  ghost predicate AllSlots(chunks: seq<Chunk>, free: seq<Slot>) {
    forall i :: 0 <= i < |free| ==> IsSlot(chunks, free[i])
  }

  /** The address of entry `i`, or null past the end. */
  ghost function AddrAt(chunks: seq<Chunk>, stride: nat, free: seq<Slot>, i: nat): nat
    requires AllSlots(chunks, free)
  {
    if i < |free| then Addr(chunks, stride, free[i]) else 0
  }

  ghost predicate ChunkMapped(c: Chunk, stride: nat, mem: Bytes) {
    Mapped(mem, c.base, SlotBytes(c.count, stride))
  }

  ghost predicate ChunksMapped(chunks: seq<Chunk>, stride: nat, mem: Bytes) {
    forall k {:trigger ChunkMapped(chunks[k], stride, mem)} :: 0 <= k < |chunks| ==> ChunkMapped(chunks[k], stride, mem)
  }

  lemma SlotMapped(chunks: seq<Chunk>, stride: nat, mem: Bytes, s: Slot)
    requires ChunksOk(chunks, stride) && ChunksMapped(chunks, stride, mem) && IsSlot(chunks, s)
    ensures Mapped(mem, Addr(chunks, stride, s), stride)
  {
    SlotInChunk(chunks, stride, s);
    assert ChunkMapped(chunks[s.chunk], stride, mem);
  }

  /** The word at `p` is a link to `next`. */
  ghost predicate LinksTo(l: Layout, mem: Bytes, p: nat, next: nat) {
    Mapped(mem, p, WORD_BYTES) && Link(l, mem, p) == next
  }

  /** Entry `i` of the list links to the entry after it, the last one to null. */
  ghost predicate LinkAt(l: Layout, chunks: seq<Chunk>, mem: Bytes, free: seq<Slot>, i: nat)
    requires AllSlots(chunks, free) && i < |free|
  {
    LinksTo(l, mem, Addr(chunks, l.stride, free[i]), AddrAt(chunks, l.stride, free, i + 1))
  }

  /** Following the in-memory links from `head` visits exactly `free`, in order, and then null. */
  ghost predicate Spells(l: Layout, chunks: seq<Chunk>, mem: Bytes, head: nat, free: seq<Slot>)
    requires AllSlots(chunks, free)
  {
    && head == AddrAt(chunks, l.stride, free, 0)
    && forall i {:trigger LinkAt(l, chunks, mem, free, i)} :: 0 <= i < |free| ==> LinkAt(l, chunks, mem, free, i)
  }

  /** The slots of one chunk in ascending address order. */
  ghost function ChunkSlots(chunk: nat, count: nat): (s: seq<Slot>)
    ensures |s| == count
    ensures forall i :: 0 <= i < count ==> s[i] == Slot(chunk, i)
  {
    seq(count, i requires 0 <= i < count => Slot(chunk, i))
  }

  function Counts(chunks: seq<Chunk>): (r: seq<nat>)
    ensures |r| == |chunks|
    ensures forall i :: 0 <= i < |chunks| ==> r[i] == chunks[i].count
  {
    seq(|chunks|, i requires 0 <= i < |chunks| => chunks[i].count)
  }

  lemma CountsAppend(chunks: seq<Chunk>, c: Chunk)
    ensures Counts(chunks + [c]) == Counts(chunks) + [c.count]
  {
  }

  // ---- Changes to the free list ------------------------------------------------------------

  /** Memory changed at most inside slot `s`. */
  ghost predicate OnlySlot(chunks: seq<Chunk>, stride: nat, m: Bytes, m': Bytes, s: Slot)
    requires IsSlot(chunks, s)
  {
    OnlyBytes(m, m', Addr(chunks, stride, s), stride)
  }

  /** A change inside one slot is invisible in every other. */
  lemma OtherSlotAgrees(l: Layout, chunks: seq<Chunk>, m: Bytes, m': Bytes, s: Slot, t: Slot)
    requires LayoutOk(l) && ChunksOk(chunks, l.stride) && ChunksMapped(chunks, l.stride, m)
    requires IsSlot(chunks, s) && IsSlot(chunks, t) && s != t && OnlySlot(chunks, l.stride, m, m', s)
    ensures var p := Addr(chunks, l.stride, t);
      && Mapped(m, p, l.stride) && Mapped(m', p, l.stride)
      && Link(l, m', p) == Link(l, m, p)
      && (l.hardened ==> Guard(l, m', p) == Guard(l, m, p))
      && (Poisoned(l, m', p) <==> Poisoned(l, m, p))
  {
    SlotMapped(chunks, l.stride, m, t);
    SlotsApart(chunks, l.stride, s, t);
    SlotAgrees(l, m, m', Addr(chunks, l.stride, t));
  }

  lemma SpellsElsewhere(l: Layout, chunks: seq<Chunk>, m: Bytes, m': Bytes, s: Slot, head: nat, free: seq<Slot>)
    requires LayoutOk(l) && ChunksOk(chunks, l.stride) && ChunksMapped(chunks, l.stride, m) && AllSlots(chunks, free)
    requires IsSlot(chunks, s) && s !in free && OnlySlot(chunks, l.stride, m, m', s)
    requires Spells(l, chunks, m, head, free)
    ensures Spells(l, chunks, m', head, free)
  {
    forall i | 0 <= i < |free|
      ensures LinkAt(l, chunks, m', free, i)
    {
      assert LinkAt(l, chunks, m, free, i);
      OtherSlotAgrees(l, chunks, m, m', s, free[i]);
    }
  }

  /** A change inside a slot that leaves its link leaves the list, even if the slot is on it. */
  lemma SpellsLinkKept(l: Layout, chunks: seq<Chunk>, m: Bytes, m': Bytes, s: Slot, head: nat, free: seq<Slot>)
    requires LayoutOk(l) && ChunksOk(chunks, l.stride) && ChunksMapped(chunks, l.stride, m) && AllSlots(chunks, free)
    requires IsSlot(chunks, s) && OnlySlot(chunks, l.stride, m, m', s) && Spells(l, chunks, m, head, free)
    requires forall next :: LinksTo(l, m, Addr(chunks, l.stride, s), next) ==> LinksTo(l, m', Addr(chunks, l.stride, s), next)
    ensures Spells(l, chunks, m', head, free)
  {
    forall i | 0 <= i < |free|
      ensures LinkAt(l, chunks, m', free, i)
    {
      assert LinkAt(l, chunks, m, free, i);
      if free[i] != s {
        OtherSlotAgrees(l, chunks, m, m', s, free[i]);
      }
    }
  }

  lemma SpellsTail(l: Layout, chunks: seq<Chunk>, mem: Bytes, head: nat, free: seq<Slot>)
    requires AllSlots(chunks, free) && free != [] && NoDup(free) && Spells(l, chunks, mem, head, free)
    ensures AllSlots(chunks, free[1..]) && NoDup(free[1..]) && free[0] !in free[1..]
    ensures LinksTo(l, mem, head, AddrAt(chunks, l.stride, free[1..], 0))
    ensures Spells(l, chunks, mem, AddrAt(chunks, l.stride, free[1..], 0), free[1..])
  {
    var rest := free[1..];
    assert LinkAt(l, chunks, mem, free, 0);
    forall i | 0 <= i < |rest|
      ensures LinkAt(l, chunks, mem, rest, i)
    {
      assert LinkAt(l, chunks, mem, free, i + 1);
    }
  }

  lemma SpellsPushed(l: Layout, chunks: seq<Chunk>, mem: Bytes, head: nat, free: seq<Slot>, s: Slot)
    requires AllSlots(chunks, free) && NoDup(free) && Spells(l, chunks, mem, head, free)
    requires IsSlot(chunks, s) && s !in free && LinksTo(l, mem, Addr(chunks, l.stride, s), head)
    ensures AllSlots(chunks, [s] + free) && NoDup([s] + free)
    ensures Spells(l, chunks, mem, Addr(chunks, l.stride, s), [s] + free)
  {
    var more := [s] + free;
    forall i | 0 <= i < |more|
      ensures LinkAt(l, chunks, mem, more, i)
    {
      if i > 0 {
        assert LinkAt(l, chunks, mem, free, i - 1);
      }
    }
  }

  /** Slots are numbered independently of chunks acquired later. */
  lemma AddrStable(chunks: seq<Chunk>, more: seq<Chunk>, stride: nat, s: Slot)
    requires IsSlot(chunks, s) && chunks <= more
    ensures IsSlot(more, s) && Addr(more, stride, s) == Addr(chunks, stride, s)
  {
  }

  // ---- Guards ------------------------------------------------------------------------------

  /** The guard word of a slot that is not on the free list does not read "freed". */
  ghost predicate StampsOk(l: Layout, chunks: seq<Chunk>, mem: Bytes, free: seq<Slot>)
    requires LayoutOk(l) && ChunksOk(chunks, l.stride) && ChunksMapped(chunks, l.stride, mem)
  {
    l.hardened ==>
      forall s {:trigger StampSays(l, chunks, mem, free, s)} :: IsSlot(chunks, s) ==> StampSays(l, chunks, mem, free, s)
  }

  ghost predicate StampSays(l: Layout, chunks: seq<Chunk>, mem: Bytes, free: seq<Slot>, s: Slot)
    requires LayoutOk(l) && l.hardened && ChunksOk(chunks, l.stride) && ChunksMapped(chunks, l.stride, mem)
    requires IsSlot(chunks, s)
  {
    s in free || !StampIs(l, chunks, mem, s, GUARD_FREED)
  }

  ghost predicate StampIs(l: Layout, chunks: seq<Chunk>, mem: Bytes, s: Slot, stamp: nat)
    requires LayoutOk(l) && l.hardened && ChunksOk(chunks, l.stride) && ChunksMapped(chunks, l.stride, mem)
    requires IsSlot(chunks, s)
  {
    SlotMapped(chunks, l.stride, mem, s);
    Guard(l, mem, Addr(chunks, l.stride, s)) == stamp
  }

  lemma StampsMoved(l: Layout, chunks: seq<Chunk>, m: Bytes, m': Bytes, s: Slot, free: seq<Slot>, free': seq<Slot>)
    requires LayoutOk(l) && ChunksOk(chunks, l.stride) && ChunksMapped(chunks, l.stride, m) && StampsOk(l, chunks, m, free)
    requires IsSlot(chunks, s) && OnlySlot(chunks, l.stride, m, m', s) && ChunksMapped(chunks, l.stride, m')
    requires l.hardened ==> StampSays(l, chunks, m', free', s)
    requires forall t :: t != s ==> (t in free' <==> t in free)
    ensures StampsOk(l, chunks, m', free')
  {
    if l.hardened {
      forall t | IsSlot(chunks, t)
        ensures StampSays(l, chunks, m', free', t)
      {
        if t != s {
          OtherSlotAgrees(l, chunks, m, m', s, t);
          assert StampSays(l, chunks, m, free, t);
        }
      }
    }
  }

  // ---- The invariant and what keeps it -----------------------------------------------------

  ghost predicate SlotsValid(l: Layout, chunks: seq<Chunk>, mem: Bytes, head: nat, free: seq<Slot>) {
    && LayoutOk(l) && ChunksOk(chunks, l.stride) && ChunksMapped(chunks, l.stride, mem)
    && AllSlots(chunks, free) && NoDup(free)
    && Spells(l, chunks, mem, head, free)
    && StampsOk(l, chunks, mem, free)
  }

  lemma MappedKept(chunks: seq<Chunk>, stride: nat, m: Bytes, m': Bytes)
    requires ChunksMapped(chunks, stride, m) && m'.Keys == m.Keys
    ensures ChunksMapped(chunks, stride, m')
  {
    forall k | 0 <= k < |chunks|
      ensures ChunkMapped(chunks[k], stride, m')
    {
      assert ChunkMapped(chunks[k], stride, m);
    }
  }

  /** The head is the address of the first free slot, and its link the address of the second. */
  lemma HeadSlot(l: Layout, chunks: seq<Chunk>, mem: Bytes, head: nat, free: seq<Slot>)
    requires SlotsValid(l, chunks, mem, head, free)
    ensures head == 0 <==> free == []
    ensures free != [] ==> IsSlot(chunks, free[0]) && head == Addr(chunks, l.stride, free[0])
    ensures free != [] ==> Mapped(mem, head, l.stride) && LinksTo(l, mem, head, AddrAt(chunks, l.stride, free, 1))
    ensures AddrAt(chunks, l.stride, free, 1) % POOL_ALIGNMENT == 0
  {
    if free != [] {
      SlotInChunk(chunks, l.stride, free[0]);
      assert LinkAt(l, chunks, mem, free, 0);
      SlotMapped(chunks, l.stride, mem, free[0]);
    }
    if |free| > 1 {
      SlotInChunk(chunks, l.stride, free[1]);
    }
  }

  /** Popping: the head moves to its successor, and memory changes at most in the popped slot, whose
      guard no longer says freed. */
  lemma PopKeeps(l: Layout, chunks: seq<Chunk>, m: Bytes, m': Bytes, head: nat, free: seq<Slot>)
    requires SlotsValid(l, chunks, m, head, free) && free != []
    requires OnlySlot(chunks, l.stride, m, m', free[0])
    requires l.hardened ==> Mapped(m', head, l.stride) && Guard(l, m', head) != GUARD_FREED
    ensures AllSlots(chunks, free[1..])
    ensures SlotsValid(l, chunks, m', AddrAt(chunks, l.stride, free[1..], 0), free[1..])
  {
    var s, rest := free[0], free[1..];
    MappedKept(chunks, l.stride, m, m');
    SpellsTail(l, chunks, m, head, free);
    SpellsElsewhere(l, chunks, m, m', s, AddrAt(chunks, l.stride, rest, 0), rest);
    forall t | t != s
      ensures t in rest <==> t in free
    {
      assert free == [s] + rest;
    }
    StampsMoved(l, chunks, m, m', s, free, rest);
  }

  /** Pushing: the slot links to the old head and is stamped freed. */
  lemma PushKeeps(l: Layout, chunks: seq<Chunk>, m: Bytes, m': Bytes, head: nat, free: seq<Slot>, s: Slot)
    requires SlotsValid(l, chunks, m, head, free) && IsSlot(chunks, s) && s !in free
    requires OnlySlot(chunks, l.stride, m, m', s) && LinksTo(l, m', Addr(chunks, l.stride, s), head)
    requires l.hardened ==> Mapped(m', Addr(chunks, l.stride, s), l.stride)
    requires l.hardened ==> Guard(l, m', Addr(chunks, l.stride, s)) == GUARD_FREED
    ensures SlotsValid(l, chunks, m', Addr(chunks, l.stride, s), [s] + free)
  {
    MappedKept(chunks, l.stride, m, m');
    SpellsElsewhere(l, chunks, m, m', s, head, free);
    SpellsPushed(l, chunks, m', head, free, s);
    StampsMoved(l, chunks, m, m', s, free, [s] + free);
  }

  /** A change to one slot that keeps its link if it is free, and does not stamp it freed if it is not,
      keeps everything. */
  lemma ChangeKeeps(l: Layout, chunks: seq<Chunk>, m: Bytes, m': Bytes, head: nat, free: seq<Slot>, s: Slot)
    requires SlotsValid(l, chunks, m, head, free) && IsSlot(chunks, s) && OnlySlot(chunks, l.stride, m, m', s)
    requires Mapped(m, Addr(chunks, l.stride, s), l.stride) && Mapped(m', Addr(chunks, l.stride, s), l.stride)
    requires s in free ==> Link(l, m', Addr(chunks, l.stride, s)) == Link(l, m, Addr(chunks, l.stride, s))
    requires l.hardened && s !in free ==> Guard(l, m', Addr(chunks, l.stride, s)) != GUARD_FREED
    ensures SlotsValid(l, chunks, m', head, free)
  {
    MappedKept(chunks, l.stride, m, m');
    if s in free {
      SpellsLinkKept(l, chunks, m, m', s, head, free);
    } else {
      SpellsElsewhere(l, chunks, m, m', s, head, free);
    }
    if l.hardened {
      assert StampSays(l, chunks, m, free, s);
    }
    StampsMoved(l, chunks, m, m', s, free, free);
  }

  // ---- A fresh chunk -----------------------------------------------------------------------

  ghost function NextInChunk(c: Chunk, stride: nat, i: nat): nat {
    if i + 1 < c.count then c.base + SlotBytes(i + 1, stride) else 0
  }

  /** Slot `i` of a chunk is linked to the next one and stamped free. */
  ghost predicate Seeded(l: Layout, mem: Bytes, c: Chunk, i: nat)
    requires LayoutOk(l)
  {
    var p := c.base + SlotBytes(i, l.stride);
    Mapped(mem, p, l.stride) && LinksTo(l, mem, p, NextInChunk(c, l.stride, i)) && StampedFree(l, mem, p)
  }

  ghost predicate SeededTo(l: Layout, mem: Bytes, c: Chunk, n: nat)
    requires LayoutOk(l)
  {
    forall i :: 0 <= i < n ==> Seeded(l, mem, c, i)
  }

  lemma ChunkSlotMapped(c: Chunk, stride: nat, mem: Bytes, i: nat)
    requires stride > 0 && stride % POOL_ALIGNMENT == 0 && ChunkOk(c, stride) && i < c.count
    requires Mapped(mem, c.base, SlotBytes(c.count, stride))
    ensures Mapped(mem, c.base + SlotBytes(i, stride), stride)
    ensures c.base <= c.base + SlotBytes(i, stride) && c.base + SlotBytes(i, stride) + stride <= End(c, stride) <= SIZE_MAX
    ensures NextInChunk(c, stride, i) <= SIZE_MAX
  {
    SlotInChunk([c], stride, Slot(0, i));
    if i + 1 < c.count {
      SlotInChunk([c], stride, Slot(0, i + 1));
    }
  }

  lemma SeededElsewhere(l: Layout, c: Chunk, m: Bytes, m': Bytes, i: nat, j: nat)
    requires LayoutOk(l) && OnlyBytes(m, m', c.base + SlotBytes(i, l.stride), l.stride)
    requires j < i && Seeded(l, m, c, j)
    ensures Seeded(l, m', c, j)
  {
    var p, q := c.base + SlotBytes(j, l.stride), c.base + SlotBytes(i, l.stride);
    assert p + l.stride <= q by { SlotBytesMonotone(j + 1, i, l.stride); }
    SeededAgrees(l, m, m', p, NextInChunk(c, l.stride, j));
  }

  lemma SeededAgrees(l: Layout, m: Bytes, m': Bytes, p: nat, next: nat)
    requires LayoutOk(l) && Mapped(m, p, l.stride) && Agree(m, m', p, p + l.stride)
    requires LinksTo(l, m, p, next) && StampedFree(l, m, p)
    ensures Mapped(m', p, l.stride) && LinksTo(l, m', p, next) && StampedFree(l, m', p)
  {
    SlotAgrees(l, m, m', p);
  }

  lemma SeedingContinues(l: Layout, c: Chunk, m: Bytes, m': Bytes, i: nat)
    requires LayoutOk(l) && OnlyBytes(m, m', c.base + SlotBytes(i, l.stride), l.stride)
    requires SeededTo(l, m, c, i) && Seeded(l, m', c, i)
    ensures SeededTo(l, m', c, i + 1)
  {
    forall j | 0 <= j < i
      ensures Seeded(l, m', c, j)
    {
      SeededElsewhere(l, c, m, m', i, j);
    }
  }

  /** What a granted region gives: the new chunk is apart from the others, which keep their bytes. */
  ghost predicate Extends(l: Layout, chunks: seq<Chunk>, m: Bytes, m': Bytes, c: Chunk) {
    && ChunkOk(c, l.stride) && (forall k :: 0 <= k < |chunks| ==> Apart(chunks[k], c, l.stride))
    && (forall k :: 0 <= k < |chunks| ==> Agree(m, m', chunks[k].base, End(chunks[k], l.stride)))
    && Mapped(m', c.base, SlotBytes(c.count, l.stride))
  }

  lemma ChunksExtend(l: Layout, chunks: seq<Chunk>, m: Bytes, m': Bytes, c: Chunk)
    requires ChunksOk(chunks, l.stride) && ChunksMapped(chunks, l.stride, m) && Extends(l, chunks, m, m', c)
    ensures ChunksOk(chunks + [c], l.stride) && ChunksMapped(chunks + [c], l.stride, m')
  {
    var more := chunks + [c];
    forall k | 0 <= k < |more|
      ensures ChunkMapped(more[k], l.stride, m')
    {
      if k < |chunks| {
        assert ChunkMapped(chunks[k], l.stride, m);
        assert Agree(m, m', chunks[k].base, End(chunks[k], l.stride));
      }
    }
  }

  lemma StampsExtend(l: Layout, chunks: seq<Chunk>, m: Bytes, m': Bytes, c: Chunk)
    requires SlotsValid(l, chunks, m, 0, []) && Extends(l, chunks, m, m', c)
    requires ChunksOk(chunks + [c], l.stride) && ChunksMapped(chunks + [c], l.stride, m')
    requires SeededTo(l, m', c, c.count)
    ensures StampsOk(l, chunks + [c], m', ChunkSlots(|chunks|, c.count))
  {
    var more, free := chunks + [c], ChunkSlots(|chunks|, c.count);
    if l.hardened {
      forall t | IsSlot(more, t)
        ensures StampSays(l, more, m', free, t)
      {
        if t.chunk == |chunks| {
          assert Seeded(l, m', c, t.index);
          assert free[t.index] == t;
        } else {
          OldStampKept(l, chunks, m, m', c, t);
        }
      }
    }
  }

  /** Linking a seeded chunk into a pool whose list is empty makes its slots the list. */
  lemma ChunkLinked(l: Layout, chunks: seq<Chunk>, m: Bytes, m': Bytes, c: Chunk)
    requires SlotsValid(l, chunks, m, 0, []) && Extends(l, chunks, m, m', c)
    requires SeededTo(l, m', c, c.count)
    ensures SlotsValid(l, chunks + [c], m', c.base, ChunkSlots(|chunks|, c.count))
  {
    ChunksExtend(l, chunks, m, m', c);
    ChunkSpells(l, chunks, m', c);
    StampsExtend(l, chunks, m, m', c);
  }

  lemma OldStampKept(l: Layout, chunks: seq<Chunk>, m: Bytes, m': Bytes, c: Chunk, t: Slot)
    requires SlotsValid(l, chunks, m, 0, []) && l.hardened && IsSlot(chunks, t)
    requires ChunksOk(chunks + [c], l.stride) && ChunksMapped(chunks + [c], l.stride, m')
    requires Agree(m, m', chunks[t.chunk].base, End(chunks[t.chunk], l.stride))
    ensures IsSlot(chunks + [c], t) && !StampIs(l, chunks + [c], m', t, GUARD_FREED)
  {
    SlotMapped(chunks, l.stride, m, t);
    SlotInChunk(chunks, l.stride, t);
    AddrStable(chunks, chunks + [c], l.stride, t);
    SlotAgrees(l, m, m', Addr(chunks, l.stride, t));
    assert StampSays(l, chunks, m, [], t);
  }

  lemma ChunkSpells(l: Layout, chunks: seq<Chunk>, mem: Bytes, c: Chunk)
    requires LayoutOk(l) && c.count > 0 && SeededTo(l, mem, c, c.count)
    ensures AllSlots(chunks + [c], ChunkSlots(|chunks|, c.count)) && NoDup(ChunkSlots(|chunks|, c.count))
    ensures Spells(l, chunks + [c], mem, c.base, ChunkSlots(|chunks|, c.count))
  {
    var more, free := chunks + [c], ChunkSlots(|chunks|, c.count);
    assert Addr(more, l.stride, free[0]) == c.base;
    forall i | 0 <= i < |free|
      ensures LinkAt(l, more, mem, free, i)
    {
      assert Seeded(l, mem, c, i);
      assert Addr(more, l.stride, free[i]) == c.base + SlotBytes(i, l.stride);
    }
  }

  // ---- Tainted slots -----------------------------------------------------------------------

  /** What correct clients leave in a slot: poison while it is free, the allocated stamp while it is
      live. */
  ghost predicate CleanAt(l: Layout, chunks: seq<Chunk>, mem: Bytes, free: seq<Slot>, s: Slot)
    requires LayoutOk(l) && l.hardened && ChunksOk(chunks, l.stride) && ChunksMapped(chunks, l.stride, mem)
    requires IsSlot(chunks, s)
  {
    if s in free then Poisoned(l, mem, Addr(chunks, l.stride, s)) else StampIs(l, chunks, mem, s, GUARD_ALLOCATED)
  }

  ghost predicate MarkSays(l: Layout, chunks: seq<Chunk>, mem: Bytes, free: seq<Slot>, tainted: set<Slot>, s: Slot)
    requires LayoutOk(l) && l.hardened && ChunksOk(chunks, l.stride) && ChunksMapped(chunks, l.stride, mem)
    requires IsSlot(chunks, s)
  {
    s in tainted <==> !CleanAt(l, chunks, mem, free, s)
  }

  /** The tainted slots of a hardened pool are exactly those that are not clean. */
  ghost predicate Marked(l: Layout, chunks: seq<Chunk>, mem: Bytes, free: seq<Slot>, tainted: set<Slot>)
    requires LayoutOk(l) && ChunksOk(chunks, l.stride) && ChunksMapped(chunks, l.stride, mem)
  {
    && (forall s :: s in tainted ==> IsSlot(chunks, s))
    && (l.hardened ==>
      forall s {:trigger MarkSays(l, chunks, mem, free, tainted, s)} ::
        IsSlot(chunks, s) ==> MarkSays(l, chunks, mem, free, tainted, s))
  }

  lemma MarksMoved(l: Layout, chunks: seq<Chunk>, m: Bytes, m': Bytes, s: Slot,
                   free: seq<Slot>, free': seq<Slot>, tainted: set<Slot>, tainted': set<Slot>)
    requires LayoutOk(l) && ChunksOk(chunks, l.stride) && ChunksMapped(chunks, l.stride, m)
    requires Marked(l, chunks, m, free, tainted)
    requires IsSlot(chunks, s) && OnlySlot(chunks, l.stride, m, m', s) && ChunksMapped(chunks, l.stride, m')
    requires l.hardened ==> MarkSays(l, chunks, m', free', tainted', s)
    requires forall t :: t != s ==> (t in free' <==> t in free)
    requires forall t :: t != s ==> (t in tainted' <==> t in tainted)
    ensures Marked(l, chunks, m', free', tainted')
  {
    if l.hardened {
      forall t | IsSlot(chunks, t)
        ensures MarkSays(l, chunks, m', free', tainted', t)
      {
        if t != s {
          OtherSlotAgrees(l, chunks, m, m', s, t);
          assert MarkSays(l, chunks, m, free, tainted, t);
        }
      }
    }
  }

  lemma MarksExtend(l: Layout, chunks: seq<Chunk>, m: Bytes, m': Bytes, c: Chunk, tainted: set<Slot>)
    requires SlotsValid(l, chunks, m, 0, []) && Extends(l, chunks, m, m', c) && Marked(l, chunks, m, [], tainted)
    requires SeededTo(l, m', c, c.count)
    requires ChunksOk(chunks + [c], l.stride) && ChunksMapped(chunks + [c], l.stride, m')
    ensures Marked(l, chunks + [c], m', ChunkSlots(|chunks|, c.count), tainted)
  {
    var more, free := chunks + [c], ChunkSlots(|chunks|, c.count);
    if l.hardened {
      forall t | IsSlot(more, t)
        ensures MarkSays(l, more, m', free, tainted, t)
      {
        if t.chunk == |chunks| {
          assert Seeded(l, m', c, t.index) && free[t.index] == t;
        } else {
          OldMarkKept(l, chunks, m, m', c, t, tainted);
          assert t !in free;
        }
      }
    }
  }

  lemma OldMarkKept(l: Layout, chunks: seq<Chunk>, m: Bytes, m': Bytes, c: Chunk, t: Slot, tainted: set<Slot>)
    requires SlotsValid(l, chunks, m, 0, []) && l.hardened && IsSlot(chunks, t) && Marked(l, chunks, m, [], tainted)
    requires ChunksOk(chunks + [c], l.stride) && ChunksMapped(chunks + [c], l.stride, m')
    requires Agree(m, m', chunks[t.chunk].base, End(chunks[t.chunk], l.stride))
    ensures IsSlot(chunks + [c], t) && (t in tainted <==> !StampIs(l, chunks + [c], m', t, GUARD_ALLOCATED))
  {
    SlotMapped(chunks, l.stride, m, t);
    SlotInChunk(chunks, l.stride, t);
    AddrStable(chunks, chunks + [c], l.stride, t);
    SlotAgrees(l, m, m', Addr(chunks, l.stride, t));
    assert MarkSays(l, chunks, m, [], tainted, t);
  }

  // ---- Stomped slots -----------------------------------------------------------------------

  /** A free slot is stomped while its guard does not read "freed". */
  ghost predicate StompSays(l: Layout, chunks: seq<Chunk>, mem: Bytes, free: seq<Slot>, stomped: set<Slot>, s: Slot)
    requires LayoutOk(l) && l.hardened && ChunksOk(chunks, l.stride) && ChunksMapped(chunks, l.stride, mem)
    requires IsSlot(chunks, s)
  {
    s in stomped <==> s in free && !StampIs(l, chunks, mem, s, GUARD_FREED)
  }

  ghost predicate Stomps(l: Layout, chunks: seq<Chunk>, mem: Bytes, free: seq<Slot>, stomped: set<Slot>)
    requires LayoutOk(l) && ChunksOk(chunks, l.stride) && ChunksMapped(chunks, l.stride, mem)
  {
    && (forall s :: s in stomped ==> IsSlot(chunks, s))
    && (l.hardened ==>
      forall s {:trigger StompSays(l, chunks, mem, free, stomped, s)} ::
        IsSlot(chunks, s) ==> StompSays(l, chunks, mem, free, stomped, s))
  }

  lemma StompsMoved(l: Layout, chunks: seq<Chunk>, m: Bytes, m': Bytes, s: Slot,
                    free: seq<Slot>, free': seq<Slot>, stomped: set<Slot>, stomped': set<Slot>)
    requires LayoutOk(l) && ChunksOk(chunks, l.stride) && ChunksMapped(chunks, l.stride, m)
    requires Stomps(l, chunks, m, free, stomped)
    requires IsSlot(chunks, s) && OnlySlot(chunks, l.stride, m, m', s) && ChunksMapped(chunks, l.stride, m')
    requires l.hardened ==> StompSays(l, chunks, m', free', stomped', s)
    requires forall t :: t != s ==> (t in free' <==> t in free)
    requires forall t :: t != s ==> (t in stomped' <==> t in stomped)
    ensures Stomps(l, chunks, m', free', stomped')
  {
    if l.hardened {
      forall t | IsSlot(chunks, t)
        ensures StompSays(l, chunks, m', free', stomped', t)
      {
        if t != s {
          OtherSlotAgrees(l, chunks, m, m', s, t);
          assert StompSays(l, chunks, m, free, stomped, t);
        }
      }
    }
  }

  /** A growth of an exhausted pool: no slot was stomped, and none of the new ones is. */
  lemma StompsExtend(l: Layout, chunks: seq<Chunk>, m: Bytes, m': Bytes, c: Chunk, stomped: set<Slot>)
    requires LayoutOk(l) && ChunksOk(chunks, l.stride) && ChunksMapped(chunks, l.stride, m) && Stomps(l, chunks, m, [], stomped)
    requires SeededTo(l, m', c, c.count)
    requires ChunksOk(chunks + [c], l.stride) && ChunksMapped(chunks + [c], l.stride, m')
    ensures Stomps(l, chunks + [c], m', ChunkSlots(|chunks|, c.count), stomped)
  {
    var more, free := chunks + [c], ChunkSlots(|chunks|, c.count);
    if l.hardened {
      forall t | IsSlot(more, t)
        ensures StompSays(l, more, m', free, stomped, t)
      {
        if t.chunk == |chunks| {
          assert Seeded(l, m', c, t.index) && free[t.index] == t;
        } else {
          assert StompSays(l, chunks, m, [], stomped, t);
        }
      }
    }
  }

  // ---- Changes elsewhere in memory ---------------------------------------------------------

  ghost predicate ChunkAgrees(c: Chunk, stride: nat, m: Bytes, m': Bytes) {
    Agree(m, m', c.base, End(c, stride))
  }

  ghost predicate ChunksAgree(chunks: seq<Chunk>, stride: nat, m: Bytes, m': Bytes) {
    forall k {:trigger ChunkAgrees(chunks[k], stride, m, m')} :: 0 <= k < |chunks| ==> ChunkAgrees(chunks[k], stride, m, m')
  }

  lemma SlotKept(l: Layout, chunks: seq<Chunk>, m: Bytes, m': Bytes, s: Slot)
    requires LayoutOk(l) && ChunksOk(chunks, l.stride) && ChunksMapped(chunks, l.stride, m) && IsSlot(chunks, s)
    requires ChunksAgree(chunks, l.stride, m, m')
    ensures var p := Addr(chunks, l.stride, s);
      && Mapped(m, p, l.stride) && Mapped(m', p, l.stride) && Link(l, m', p) == Link(l, m, p)
      && (l.hardened ==> Guard(l, m', p) == Guard(l, m, p)) && (Poisoned(l, m', p) <==> Poisoned(l, m, p))
  {
    SlotMapped(chunks, l.stride, m, s);
    SlotInChunk(chunks, l.stride, s);
    assert ChunkAgrees(chunks[s.chunk], l.stride, m, m');
    SlotAgrees(l, m, m', Addr(chunks, l.stride, s));
  }

  lemma StillMapped(chunks: seq<Chunk>, stride: nat, m: Bytes, m': Bytes)
    requires ChunksMapped(chunks, stride, m) && ChunksAgree(chunks, stride, m, m')
    ensures ChunksMapped(chunks, stride, m')
  {
    forall k | 0 <= k < |chunks|
      ensures ChunkMapped(chunks[k], stride, m')
    {
      assert ChunkMapped(chunks[k], stride, m) && ChunkAgrees(chunks[k], stride, m, m');
    }
  }

  /** Nothing about a pool's slots changes while the bytes of its chunks do not. */
  lemma SlotsUndisturbed(l: Layout, chunks: seq<Chunk>, m: Bytes, m': Bytes, head: nat, free: seq<Slot>,
                         tainted: set<Slot>, stomped: set<Slot>)
    requires SlotsValid(l, chunks, m, head, free) && Marked(l, chunks, m, free, tainted) && Stomps(l, chunks, m, free, stomped)
    requires ChunksAgree(chunks, l.stride, m, m')
    ensures SlotsValid(l, chunks, m', head, free) && Marked(l, chunks, m', free, tainted)
      && Stomps(l, chunks, m', free, stomped)
  {
    StillMapped(chunks, l.stride, m, m');
    forall i | 0 <= i < |free|
      ensures LinkAt(l, chunks, m', free, i)
    {
      assert LinkAt(l, chunks, m, free, i);
      SlotKept(l, chunks, m, m', free[i]);
    }
    if l.hardened {
      forall s | IsSlot(chunks, s)
        ensures StampSays(l, chunks, m', free, s) && MarkSays(l, chunks, m', free, tainted, s)
          && StompSays(l, chunks, m', free, stomped, s)
      {
        assert StampSays(l, chunks, m, free, s) && MarkSays(l, chunks, m, free, tainted, s);
        assert StompSays(l, chunks, m, free, stomped, s);
        SlotKept(l, chunks, m, m', s);
      }
    }
  }

  // ---- Counting ----------------------------------------------------------------------------

  ghost function Members(free: seq<Slot>): set<Slot> {
    set s | s in free
  }

  ghost function SlotSet(counts: seq<nat>): set<Slot> {
    if counts == [] then {}
    else SlotSet(counts[..|counts| - 1]) + Members(ChunkSlots(|counts| - 1, counts[|counts| - 1]))
  }

  lemma {:induction false} ChunkSlotsCount(chunk: nat, n: nat)
    ensures |Members(ChunkSlots(chunk, n))| == n
    decreases n
  {
    if n > 0 {
      ChunkSlotsCount(chunk, n - 1);
      var all, fewer := ChunkSlots(chunk, n), ChunkSlots(chunk, n - 1);
      assert all == fewer + [Slot(chunk, n - 1)];
      assert Members(all) == Members(fewer) + {Slot(chunk, n - 1)};
    } else {
      assert ChunkSlots(chunk, 0) == [];
      assert Members(ChunkSlots(chunk, 0)) == {};
    }
  }

  lemma {:induction false} SlotSetMembers(counts: seq<nat>, s: Slot)
    ensures s in SlotSet(counts) <==> s.chunk < |counts| && s.index < counts[s.chunk]
    decreases |counts|
  {
    if counts != [] {
      var n := |counts| - 1;
      SlotSetMembers(counts[..n], s);
      var last := ChunkSlots(n, counts[n]);
      if s.chunk == n && s.index < counts[n] {
        assert last[s.index] == s;
      }
    }
  }

  lemma {:induction false} SlotSetCount(counts: seq<nat>)
    ensures |SlotSet(counts)| == Total(counts)
    decreases |counts|
  {
    if counts != [] {
      var n := |counts| - 1;
      SlotSetCount(counts[..n]);
      ChunkSlotsCount(n, counts[n]);
      var front, last := SlotSet(counts[..n]), Members(ChunkSlots(n, counts[n]));
      forall s | s in front
        ensures s !in last
      {
        SlotSetMembers(counts[..n], s);
      }
      assert |front + last| == |front| + |last|;
    }
  }

  lemma {:induction false} NoDupCount(free: seq<Slot>)
    requires NoDup(free)
    ensures |Members(free)| == |free|
    decreases |free|
  {
    if free == [] {
      assert Members(free) == {};
    } else {
      NoDupCount(free[1..]);
      assert Members(free) == {free[0]} + Members(free[1..]);
    }
  }

  /** A list without repeats that misses a slot is shorter than the total. */
  lemma SomeSlotLive(chunks: seq<Chunk>, free: seq<Slot>, s: Slot)
    requires AllSlots(chunks, free) && NoDup(free) && IsSlot(chunks, s) && s !in free
    ensures |free| < Total(Counts(chunks))
  {
    var counts, listed := Counts(chunks), Members(free);
    SlotSetCount(counts);
    NoDupCount(free);
    forall t | t in listed + {s}
      ensures t in SlotSet(counts)
    {
      SlotSetMembers(counts, t);
    }
    SubsetCount(listed + {s}, SlotSet(counts));
    assert |listed + {s}| == |listed| + 1;
  }

  lemma {:induction false} SubsetCount(a: set<Slot>, b: set<Slot>)
    requires a <= b
    ensures |a| <= |b|
    decreases a
  {
    assert b == a + (b - a);
    assert |b| == |a| + |b - a|;
  }
}
