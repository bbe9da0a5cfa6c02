/** The bytes clients have written into the blocks they hold. */
module BlockContents {
  import opened Sizes
  import opened Words
  import opened Memory
  import opened Slots
  import opened PoolImages
  import opened MemoryPools

  datatype Cell = Cell(slot: Slot, offset: nat)

  type Data = map<Cell, byte>

  ghost predicate CellHolds(chunks: seq<Chunk>, stride: nat, mem: Bytes, c: Cell, b: byte) {
    && IsSlot(chunks, c.slot)
    && var a := Addr(chunks, stride, c.slot) + c.offset;
       a in mem && mem[a] == b
  }

  /** Every byte of `data` is in a block that is out, and memory holds it. */
  ghost predicate Retains(l: Layout, chunks: seq<Chunk>, mem: Bytes, free: seq<Slot>, data: Data) {
    forall c {:trigger c in data} :: c in data ==>
      c.slot !in free && c.offset < l.blockSize && CellHolds(chunks, l.stride, mem, c, data[c])
  }

  ghost predicate Retained(pool: MemoryPool, data: Data)
    reads pool, pool.heap
  {
    Retains(pool.Lay(), pool.chunks, pool.heap.mem, pool.free, data)
  }

  /** What is left when the block at slot `s` is given back. */
  function Emptied(data: Data, s: Slot): Data {
    map c | c in data && c.slot != s :: data[c]
  }

  /** A change inside slot `s` is nothing to the other blocks. */
  lemma RetainsElsewhere(l: Layout, chunks: seq<Chunk>, chunks': seq<Chunk>, m: Bytes, m': Bytes, free: seq<Slot>,
                         free': seq<Slot>, data: Data, s: Slot)
    requires LayoutOk(l) && Retains(l, chunks, m, free, data) && ChunksOk(chunks', l.stride) && chunks <= chunks'
    requires IsSlot(chunks', s) && KeptBut(m, m', Addr(chunks', l.stride, s), l.stride)
    requires forall t :: t != s && IsSlot(chunks, t) && t in free' ==> t in free
    ensures Retains(l, chunks', m', free', Emptied(data, s))
  {
    forall c | c in Emptied(data, s)
      ensures c.slot !in free' && c.offset < l.blockSize && CellHolds(chunks', l.stride, m', c, data[c])
    {
      assert c in data && CellHolds(chunks, l.stride, m, c, data[c]);
      AddrStable(chunks, chunks', l.stride, c.slot);
      SlotsApart(chunks', l.stride, c.slot, s);
    }
  }

  /** A slot that is free, or was not there, had nothing in it. */
  lemma NothingIn(l: Layout, chunks: seq<Chunk>, m: Bytes, free: seq<Slot>, data: Data, s: Slot)
    requires Retains(l, chunks, m, free, data) && (s in free || !IsSlot(chunks, s))
    ensures Emptied(data, s) == data
  {
    forall c | c in data
      ensures c.slot != s
    {
      assert CellHolds(chunks, l.stride, m, c, data[c]);
    }
  }

  /** A vended block was empty, and vending it changes no other. */
  lemma PopRetains(l: Layout, chunks: seq<Chunk>, chunks': seq<Chunk>, m: Bytes, m': Bytes, free: seq<Slot>,
                   ready: seq<Slot>, data: Data, p: nat)
    requires LayoutOk(l) && Retains(l, chunks, m, free, data) && ChunksOk(chunks', l.stride) && chunks <= chunks'
    requires ready != [] && IsSlot(chunks', ready[0]) && p == Addr(chunks', l.stride, ready[0])
    requires ready == free || forall s :: s in ready ==> !IsSlot(chunks, s)
    requires KeptBut(m, m', p + l.blockSize, if l.hardened then GUARD_BYTES else 0)
    ensures Retains(l, chunks', m', ready[1..], data)
  {
    NothingIn(l, chunks, m, free, data, ready[0]);
    assert KeptBut(m, m', p, l.stride);
    RetainsElsewhere(l, chunks, chunks', m, m', free, ready[1..], data, ready[0]);
  }

  /** An allocation leaves the blocks that are out as they were. */
  method Vend(pool: MemoryPool, ghost data: Data) returns (p: nat)
    requires pool.Valid() && Retained(pool, data)
    modifies pool, pool.heap
    ensures pool.Valid() && Retained(pool, data)
    ensures pool.growFactor == old(pool.growFactor) && old(pool.chunks) <= pool.chunks
    ensures p == 0 ==> pool.Unchanged()
    ensures p != 0 ==> pool.Popped(p, Ready(old(pool.Now()), pool.growFactor))
    ensures pool.Image() == PoppedImage(pool.Terms(), old(pool.Image())) && p == VendedAddress(pool.Terms(), old(pool.Image()))
    ensures p == 0 <==> PrimedImage(pool.Terms(), old(pool.Image())).free == []
    ensures KeptBut(old(pool.heap.mem), pool.heap.mem, p + pool.blockSize, if pool.hardened && p != 0 then GUARD_BYTES else 0)
    ensures p == 0 <==> old(pool.free) == [] && !old(pool.CanGrow())
  {
    hide MemoryPool.Valid, Retains, PrimedImage, PoppedImage, VendedAddress, KeptBut, MemoryPool.CanGrow, MemoryPool.Rest;
    pool.Basics();
    ghost var chunks, m, v := pool.chunks, pool.heap.mem, pool.Now();
    p := MemoryPool.Alloc(pool);
    if p != 0 {
      pool.Basics();
      PopRetains(pool.Lay(), chunks, pool.chunks, m, pool.heap.mem, v.free, Ready(v, pool.growFactor).free, data, p);
    }
  }

  /** A write into a free slot changes nothing in the blocks that are out. */
  lemma FreeRetains(l: Layout, chunks: seq<Chunk>, m: Bytes, m': Bytes, free: seq<Slot>, data: Data, s: Slot)
    requires LayoutOk(l) && Retains(l, chunks, m, free, data) && ChunksOk(chunks, l.stride)
    requires IsSlot(chunks, s) && s in free && KeptBut(m, m', Addr(chunks, l.stride, s), l.stride)
    ensures Retains(l, chunks, m', free, data)
  {
    NothingIn(l, chunks, m, free, data, s);
    RetainsElsewhere(l, chunks, chunks, m, m', free, free, data, s);
  }

  /** Nor does a write to the guard of any slot. */
  lemma GuardRetains(l: Layout, chunks: seq<Chunk>, m: Bytes, m': Bytes, free: seq<Slot>, data: Data, s: Slot)
    requires LayoutOk(l) && l.hardened && Retains(l, chunks, m, free, data) && ChunksOk(chunks, l.stride)
    requires IsSlot(chunks, s) && KeptBut(m, m', Addr(chunks, l.stride, s) + l.blockSize, GUARD_BYTES)
    ensures Retains(l, chunks, m', free, data)
  {
    forall c | c in data
      ensures CellHolds(chunks, l.stride, m', c, data[c])
    {
      assert CellHolds(chunks, l.stride, m, c, data[c]);
      if c.slot != s {
        SlotsApart(chunks, l.stride, c.slot, s);
      }
    }
  }

  /** What was written is there, and the rest as it was. */
  lemma WriteRetains(l: Layout, chunks: seq<Chunk>, m: Bytes, free: seq<Slot>, data: Data, s: Slot, offset: nat, b: byte)
    requires LayoutOk(l) && Retains(l, chunks, m, free, data) && ChunksOk(chunks, l.stride)
    requires IsSlot(chunks, s) && s !in free && offset < l.blockSize
    ensures Retains(l, chunks, m[Addr(chunks, l.stride, s) + offset := b], free, data[Cell(s, offset) := b])
  {
    var more, m' := data[Cell(s, offset) := b], m[Addr(chunks, l.stride, s) + offset := b];
    forall c | c in more
      ensures c.slot !in free && c.offset < l.blockSize && CellHolds(chunks, l.stride, m', c, more[c])
    {
      if c != Cell(s, offset) {
        assert c in data && CellHolds(chunks, l.stride, m, c, data[c]);
        if c.slot != s {
          SlotsApart(chunks, l.stride, c.slot, s);
        }
      }
    }
  }
}
