/** The fuzz harness: a program of opcodes read from bytes, run against a pool and a shadow set. */
module FuzzHarness {
  import opened Common
  import opened Arithmetic
  import opened Sizes
  import opened Words
  import opened Memory
  import opened Slots
  import opened Heap
  import opened PoolImages
  import opened MemoryPools
  import opened PoolLifetime
  import opened PoolHandles
  import opened PoolClients
  import opened PoolLockstep
  import opened InstrumentedPools

  const MAX_LIVE: nat := 1024

  /** A block the harness holds and the byte it was filled with. */
  datatype LiveBlock = LiveBlock(ptr: nat, canary: byte)

  class ByteReader {
    const data: seq<byte>
    var pos: nat

    constructor (data: seq<byte>)
      ensures this.data == data && pos == 0
    {
      this.data := data;
      pos := 0;
    }

    /** The next byte, or zero past the end. */
    method Next() returns (b: byte)
      modifies this
      ensures b == ByteAt(data, old(pos)) && pos == if old(pos) < |data| then old(pos) + 1 else old(pos)
    {
      if pos >= |data| {
        return 0;
      }
      b := data[pos];
      pos := pos + 1;
    }
  }

  function ByteAt(data: seq<byte>, i: nat): byte {
    if i < |data| then data[i] else 0
  }

  // ---- What a program comes to -------------------------------------------------------------

  /** A pool, the slots of the shadow set, and the counters. */
  datatype Play = Play(image: Image, held: seq<Slot>, failures: nat, allocations: nat, peak: nat)

  /** The allocate opcode. */
  ghost function Allocating(k: Terms, st: Play): Play {
    var ready := PrimedImage(k, st.image).free;
    if |st.held| >= MAX_LIVE then st
    else if ready == [] then st.(image := PoppedImage(k, st.image), failures := st.failures + 1)
    else
      var n := |st.held| + 1;
      Play(PoppedImage(k, st.image), st.held + [ready[0]], st.failures, st.allocations + 1, if n > st.peak then n else st.peak)
  }

  /** The free opcode. */
  ghost function Freeing(st: Play, index: nat): Play {
    if st.held == [] then st else
      var at := index % |st.held|;
      st.(image := st.image.(free := [st.held[at]] + st.image.free), held := PoolLockstep.Without(st.held, at))
  }

  /** One opcode, at `pos`, and where the next one is. */
  ghost function Opcode(k: Terms, data: seq<byte>, pos: nat, st: Play): (r: (Play, nat))
    requires pos < |data|
    ensures pos < r.1 <= |data|
  {
    if data[pos] % 4 == 0 then (Allocating(k, st), pos + 1)
    else if data[pos] % 4 == 1 then (Freeing(st, ByteAt(data, pos + 1)), if pos + 1 < |data| then pos + 2 else pos + 1)
    else (st, pos + 1)
  }

  /** All opcodes from `pos` on. */
  ghost function Program(k: Terms, data: seq<byte>, pos: nat, st: Play): Play
    decreases |data| - pos
  {
    if pos >= |data| then st else
      var (next, at) := Opcode(k, data, pos, st);
      Program(k, data, at, next)
  }

  ghost predicate OnlyAllocates(data: seq<byte>, pos: nat) {
    forall i :: pos <= i < |data| ==> data[i] % 4 == 0
  }

  function Min(a: nat, b: nat): nat {
    if a < b then a else b
  }

  /** Nothing but allocate opcodes over a pool that does not grow: each takes a block while there is one, and is a
      failure from then on. */
  lemma {:induction false} AllocatesOnly(k: Terms, data: seq<byte>, pos: nat, st: Play)
    requires pos <= |data| && OnlyAllocates(data, pos) && k.factor < 2 && |st.held| + |st.image.free| < MAX_LIVE
    ensures var end, got, n := Program(k, data, pos, st), Min(|data| - pos, |st.image.free|), |data| - pos;
      && end.allocations == st.allocations + got && end.failures == st.failures + (n - got)
      && |end.held| == |st.held| + got && |end.image.free| == |st.image.free| - got
      && (st.peak == |st.held| ==> end.peak == |st.held| + got)
    decreases |data| - pos
  {
    if pos < |data| {
      AllocatesOnly(k, data, pos + 1, Allocating(k, st));
    }
  }

  /** A program of `n` allocate opcodes over a fixed pool of `c` blocks makes as many allocations as the lesser of the
      two, and the rest are failures. */
  lemma AllocateProgram(oracle: Oracle, t: nat, regions: Regions, hardened: bool, data: seq<byte>)
    requires |data| >= 3 && data[2] % 2 == 0 && OnlyAllocates(data, 3)
    ensures var end := Program(TermsFor(oracle, hardened, data), data, FirstOpcode(data), StartOf(oracle, t, regions, hardened, data));
      var n, c := |data| - 3, 1 + data[1] % 8;
      end.allocations == Min(n, c) == end.peak && end.failures == n - Min(n, c)
  {
    AllocatesOnly(TermsFor(oracle, hardened, data), data, 3, StartOf(oracle, t, regions, hardened, data));
  }

  // ---- The shadow set ----------------------------------------------------------------------

  ghost predicate Stamped(mem: Bytes, p: nat, n: nat, canary: byte) {
    forall a :: p <= a < p + n ==> a in mem && mem[a] == canary
  }

  ghost predicate ShadowAt(chunks: seq<Chunk>, stride: nat, blockSize: nat, mem: Bytes, b: LiveBlock, s: Slot) {
    IsSlot(chunks, s) && b.ptr == Addr(chunks, stride, s) && Stamped(mem, b.ptr, blockSize, b.canary)
  }

  /** Every block of the shadow set is a slot, full of its canary. */
  ghost predicate Shadow(chunks: seq<Chunk>, stride: nat, blockSize: nat, mem: Bytes, live: seq<LiveBlock>, slots: seq<Slot>) {
    && |live| == |slots|
    && forall i {:trigger ShadowAt(chunks, stride, blockSize, mem, live[i], slots[i])} :: 0 <= i < |live| ==>
         ShadowAt(chunks, stride, blockSize, mem, live[i], slots[i])
  }

  /** What happens inside a slot that is not the harness's leaves its canaries alone. */
  lemma ShadowElsewhere(chunks: seq<Chunk>, chunks': seq<Chunk>, stride: nat, blockSize: nat, m: Bytes, m': Bytes,
                        live: seq<LiveBlock>, slots: seq<Slot>, s: Slot, at: nat, n: nat)
    requires ChunksOk(chunks', stride) && chunks <= chunks' && blockSize <= stride && IsSlot(chunks', s) && s !in slots
    requires n > 0 ==> Addr(chunks', stride, s) <= at && at + n <= Addr(chunks', stride, s) + stride
    requires KeptBut(m, m', at, n) && Shadow(chunks, stride, blockSize, m, live, slots)
    ensures Shadow(chunks', stride, blockSize, m', live, slots)
  {
    forall i | 0 <= i < |live|
      ensures ShadowAt(chunks', stride, blockSize, m', live[i], slots[i])
    {
      assert ShadowAt(chunks, stride, blockSize, m, live[i], slots[i]);
      assert slots[i] in slots;
      SlotsApart(chunks', stride, s, slots[i]);
    }
  }

  lemma ShadowMore(chunks: seq<Chunk>, stride: nat, blockSize: nat, mem: Bytes, live: seq<LiveBlock>, slots: seq<Slot>, b: LiveBlock, s: Slot)
    requires Shadow(chunks, stride, blockSize, mem, live, slots) && ShadowAt(chunks, stride, blockSize, mem, b, s)
    ensures Shadow(chunks, stride, blockSize, mem, live + [b], slots + [s])
  {
    forall i | 0 <= i < |live| + 1
      ensures ShadowAt(chunks, stride, blockSize, mem, (live + [b])[i], (slots + [s])[i])
    {
      if i < |live| {
        assert ShadowAt(chunks, stride, blockSize, mem, live[i], slots[i]);
      }
    }
  }

  lemma ShadowFewer(chunks: seq<Chunk>, stride: nat, blockSize: nat, mem: Bytes, live: seq<LiveBlock>, slots: seq<Slot>, k: nat)
    requires Shadow(chunks, stride, blockSize, mem, live, slots) && k < |live|
    ensures Shadow(chunks, stride, blockSize, mem, PoolLockstep.Without(live, k), PoolLockstep.Without(slots, k))
    ensures ShadowAt(chunks, stride, blockSize, mem, live[k], slots[k])
  {
    var fewer, rest := PoolLockstep.Without(live, k), PoolLockstep.Without(slots, k);
    forall i | 0 <= i < |fewer|
      ensures ShadowAt(chunks, stride, blockSize, mem, fewer[i], rest[i])
    {
      var j := if i < k then i else i + 1;
      assert ShadowAt(chunks, stride, blockSize, mem, live[j], slots[j]);
    }
  }

  lemma NoAlias(chunks: seq<Chunk>, stride: nat, blockSize: nat, mem: Bytes, live: seq<LiveBlock>, slots: seq<Slot>, s: Slot, i: nat)
    requires ChunksOk(chunks, stride) && Shadow(chunks, stride, blockSize, mem, live, slots)
    requires IsSlot(chunks, s) && s !in slots && i < |live|
    ensures live[i].ptr != Addr(chunks, stride, s)
  {
    assert ShadowAt(chunks, stride, blockSize, mem, live[i], slots[i]);
    assert slots[i] in slots;
    SlotsApart(chunks, stride, s, slots[i]);
  }

  // ---- The harness -------------------------------------------------------------------------

  /** The harness, the counters and the pool agree: what the counters count is the shadow set. */
  ghost predicate InTune(inst: InstrumentedPool, live: seq<LiveBlock>, slots: seq<Slot>)
    reads inst, if inst.pool == null then {} else {inst.pool, inst.pool.heap}
  {
    && inst.Exact() && Out(slots, inst.pool.free) && inst.live == |live|
    && Shadow(inst.pool.chunks, inst.pool.Stride(), inst.pool.blockSize, inst.pool.heap.mem, live, slots)
  }

  ghost function PlayOf(inst: InstrumentedPool, slots: seq<Slot>): Play
    requires inst.pool != null
    reads inst, inst.pool, inst.pool.heap
  {
    Play(inst.pool.Image(), slots, inst.allocationFailures, inst.allocations, inst.peakLive)
  }

  /** memset over a whole block the client holds. */
  method FillBlock(pool: MemoryPool, ghost s: Slot, p: nat, b: byte)
    requires pool.Valid() && IsSlot(pool.chunks, s) && s !in pool.free && p == pool.AddrOf(s)
    modifies pool.heap`mem
    ensures pool.Valid() && KeptBut(old(pool.heap.mem), pool.heap.mem, p, pool.blockSize)
    ensures Stamped(pool.heap.mem, p, pool.blockSize, b)
  {
    hide MemoryPool.Valid;
    for i := 0 to pool.blockSize
      invariant pool.Valid() && KeptBut(old(pool.heap.mem), pool.heap.mem, p, pool.blockSize)
      invariant Stamped(pool.heap.mem, p, i, b)
    {
      WriteLive(pool, s, p + i, b);
    }
  }

  /** Whether a block is still full of its canary. */
  method CanaryIntact(heap: Heap, block: LiveBlock, n: nat) returns (ok: bool)
    requires Mapped(heap.mem, block.ptr, n)
    ensures ok <==> Stamped(heap.mem, block.ptr, n, block.canary)
  {
    for i := 0 to n
      invariant Stamped(heap.mem, block.ptr, i, block.canary)
    {
      if heap.mem[block.ptr + i] != block.canary {
        return false;
      }
    }
    return true;
  }

  lemma ShadowSlots(chunks: seq<Chunk>, stride: nat, blockSize: nat, mem: Bytes, live: seq<LiveBlock>, slots: seq<Slot>)
    requires Shadow(chunks, stride, blockSize, mem, live, slots)
    ensures AllSlots(chunks, slots)
  {
    forall i | 0 <= i < |slots|
      ensures IsSlot(chunks, slots[i])
    {
      assert ShadowAt(chunks, stride, blockSize, mem, live[i], slots[i]);
    }
  }

  /** A vended slot is none of the harness's, and vending it left their canaries alone. */
  lemma VendedApart(chunks: seq<Chunk>, chunks': seq<Chunk>, stride: nat, blockSize: nat, m: Bytes, m': Bytes, live: seq<LiveBlock>,
                    slots: seq<Slot>, v: View, factor: nat, p: nat, guard: nat)
    requires Shadow(chunks, stride, blockSize, m, live, slots) && Out(slots, v.free) && v.counts == Counts(chunks)
    requires ChunksOk(chunks', stride) && chunks <= chunks' && blockSize + guard <= stride
    requires Ready(v, factor).free != [] && IsSlot(chunks', Ready(v, factor).free[0]) && p == Addr(chunks', stride, Ready(v, factor).free[0])
    requires KeptBut(m, m', p + blockSize, guard)
    ensures var ready := Ready(v, factor).free;
      && Out(slots + [ready[0]], ready[1..]) && ready[0] !in slots
      && Shadow(chunks', stride, blockSize, m', live, slots)
  {
    var ready := Ready(v, factor).free;
    ShadowSlots(chunks, stride, blockSize, m, live, slots);
    OutMore(slots, v, chunks, factor);
    var n := |slots|;
    assert (slots + [ready[0]])[n] == ready[0];
    forall i | 0 <= i < n
      ensures slots[i] != ready[0]
    {
      assert (slots + [ready[0]])[i] == slots[i];
    }
    ShadowElsewhere(chunks, chunks', stride, blockSize, m, m', live, slots, ready[0], p + blockSize, guard);
  }

  /** Allocate; `s` is the slot if there is one. */
  method TryOne(inst: InstrumentedPool, ghost live: seq<LiveBlock>, ghost slots: seq<Slot>) returns (block: nat, ghost s: Slot)
    requires inst.pool != null && InTune(inst, live, slots)
    modifies inst, inst.pool, inst.pool.heap
    ensures inst.pool == old(inst.pool) && inst.Exact() && inst.pool.Rest() == old(inst.pool.Rest())
    ensures inst.pool.Terms() == old(inst.pool.Terms()) && inst.pool.Image() == PoppedImage(inst.pool.Terms(), old(inst.pool.Image()))
    ensures var ready := PrimedImage(inst.pool.Terms(), old(inst.pool.Image())).free;
      (block == 0 <==> ready == []) && (block != 0 ==> s == ready[0])
    ensures block == 0 <==> old(inst.pool.free) == [] && !old(inst.pool.CanGrow())
    ensures inst.Stats() == if block == 0 then old(inst.Stats()).(allocationFailures := old(inst.allocationFailures) + 1)
      else old(inst.Stats()).(allocations := old(inst.allocations) + 1, live := inst.live, peakLive := inst.peakLive)
    ensures block == 0 ==> InTune(inst, live, slots) && inst.peakLive == old(inst.peakLive)
    ensures block != 0 ==> inst.live == |live| + 1 && Out(slots + [s], inst.pool.free) && s !in slots
    ensures block != 0 ==> IsSlot(inst.pool.chunks, s) && s !in inst.pool.free && block == inst.pool.AddrOf(s)
    ensures block != 0 ==> inst.peakLive == if inst.live > old(inst.peakLive) then inst.live else old(inst.peakLive)
    ensures Shadow(inst.pool.chunks, inst.pool.Stride(), inst.pool.blockSize, inst.pool.heap.mem, live, slots)
  {
    hide MemoryPool.Valid, Out, ChunksOk, NoDup, Shadow, PrimedImage, PoppedImage, VendedAddress, MemoryPool.CanGrow;
    var pool := inst.pool;
    ghost var chunks, v, m := pool.chunks, pool.Now(), pool.heap.mem;
    s := Slot(0, 0);
    PrimedIsReady(pool.Terms(), pool.Image());
    pool.Basics();
    block := inst.TryAllocate();
    pool.Basics();
    if block != 0 {
      s := Ready(v, pool.growFactor).free[0];
      VendedApart(chunks, pool.chunks, pool.Stride(), pool.blockSize, m, pool.heap.mem, live, slots, v, pool.growFactor, block,
                  if pool.hardened then GUARD_BYTES else 0);
      OutLast(slots, s, pool.free);
    }
  }

  lemma OutLast(slots: seq<Slot>, s: Slot, free: seq<Slot>)
    requires Out(slots + [s], free)
    ensures s !in free
  {
    assert s in slots + [s];
  }

  lemma Counted(inst: InstrumentedPool, live: seq<LiveBlock>, slots: seq<Slot>)
    requires InTune(inst, live, slots)
    ensures |live| == |slots| == inst.live
  {
  }

  lemma PeakCovers(inst: InstrumentedPool)
    requires inst.Exact()
    ensures inst.live <= inst.peakLive
  {
  }

  /** Fill a vended block with its canary and take it into the shadow set. */
  method TakeIn(inst: InstrumentedPool, live: seq<LiveBlock>, block: nat, canary: byte, ghost slots: seq<Slot>, ghost s: Slot)
    returns (more: seq<LiveBlock>)
    requires inst.Exact() && inst.live == |live| + 1 && Out(slots + [s], inst.pool.free) && s !in slots
    requires IsSlot(inst.pool.chunks, s) && s !in inst.pool.free && block == inst.pool.AddrOf(s)
    requires Shadow(inst.pool.chunks, inst.pool.Stride(), inst.pool.blockSize, inst.pool.heap.mem, live, slots)
    modifies inst.pool.heap`mem
    ensures more == live + [LiveBlock(block, canary)] && InTune(inst, more, slots + [s])
  {
    hide MemoryPool.Valid, Out, ChunksOk, Shadow, KeptBut;
    var pool := inst.pool;
    ghost var m := pool.heap.mem;
    pool.Basics();
    FillBlock(pool, s, block, canary);
    pool.Basics();
    ShadowElsewhere(pool.chunks, pool.chunks, pool.Stride(), pool.blockSize, m, pool.heap.mem, live, slots, s, block, pool.blockSize);
    more := live + [LiveBlock(block, canary)];
    ShadowMore(pool.chunks, pool.Stride(), pool.blockSize, pool.heap.mem, live, slots, LiveBlock(block, canary), s);
  }

  /** Whether a block is none of those held. */
  method NotHeld(live: seq<LiveBlock>, block: nat) returns (ok: bool)
    ensures ok <==> forall i :: 0 <= i < |live| ==> live[i].ptr != block
  {
    ok := true;
    for i := 0 to |live|
      invariant ok <==> forall k :: 0 <= k < i ==> live[k].ptr != block
    {
      ok := ok && live[i].ptr != block;
    }
  }

  /** do_alloc: every check in it passes. */
  method DoAlloc(inst: InstrumentedPool, live: seq<LiveBlock>, canary: byte, ghost slots: seq<Slot>)
    returns (ok: bool, more: seq<LiveBlock>, ghost moreSlots: seq<Slot>)
    requires inst.pool != null && InTune(inst, live, slots)
    modifies inst, inst.pool, inst.pool.heap
    ensures ok && inst.pool == old(inst.pool) && inst.pool.Rest() == old(inst.pool.Rest())
    ensures InTune(inst, more, moreSlots)
    ensures var room := |live| < 1024 && (old(inst.pool.free) != [] || old(inst.pool.CanGrow()));
      && (if room then |more| == |live| + 1 && more[..|live|] == live && more[|live|].canary == canary else more == live)
      && (room ==> forall i :: 0 <= i < |live| ==> live[i].ptr != more[|live|].ptr)
      && inst.allocations == old(inst.allocations) + (if room then 1 else 0)
      && inst.allocationFailures == old(inst.allocationFailures) + (if room || |live| >= 1024 then 0 else 1)
      && inst.deallocations == old(inst.deallocations)
    ensures inst.peakLive == if |more| > old(inst.peakLive) then |more| else old(inst.peakLive)
    ensures inst.pool.Terms() == old(inst.pool.Terms())
    ensures PlayOf(inst, moreSlots) == Allocating(inst.pool.Terms(), old(PlayOf(inst, slots)))
  {
    hide MemoryPool.Valid, Out, Shadow, ChunksOk, PrimedImage, PoppedImage, MemoryPool.CanGrow;
    ok, more, moreSlots := true, live, slots;
    Counted(inst, live, slots);
    PeakCovers(inst);
    if |live| >= MAX_LIVE {
      return;
    }
    ghost var s: Slot;
    var block: nat;
    block, s := TryOne(inst, live, slots);
    if block == 0 {
      return;
    }
    inst.pool.Basics();
    forall i | 0 <= i < |live|
      ensures live[i].ptr != block
    {
      NoAlias(inst.pool.chunks, inst.pool.Stride(), inst.pool.blockSize, inst.pool.heap.mem, live, slots, s, i);
    }
    ok := NotHeld(live, block);
    more := TakeIn(inst, live, block, canary, slots, s);
    moreSlots := slots + [s];
  }

  /** Give a block of the shadow set back. */
  method GiveBack(inst: InstrumentedPool, live: seq<LiveBlock>, at: nat, ghost slots: seq<Slot>)
    requires inst.pool != null && InTune(inst, live, slots) && at < |live| == |slots|
    modifies inst, inst.pool, inst.pool.heap
    ensures inst.pool == old(inst.pool) && inst.pool.Rest() == old(inst.pool.Rest()) && inst.peakLive == old(inst.peakLive)
    ensures InTune(inst, PoolLockstep.Without(live, at), PoolLockstep.Without(slots, at))
    ensures inst.pool.Terms() == old(inst.pool.Terms())
    ensures PlayOf(inst, PoolLockstep.Without(slots, at))
      == old(PlayOf(inst, slots)).(image := old(inst.pool.Image()).(free := [slots[at]] + old(inst.pool.free)),
                                   held := PoolLockstep.Without(slots, at))
  {
    hide MemoryPool.Valid, Out, ChunksOk, NoDup, Shadow;
    var pool := inst.pool;
    ghost var m, free, s := pool.heap.mem, pool.free, slots[at];
    ghost var fewer, rest := PoolLockstep.Without(live, at), PoolLockstep.Without(slots, at);
    pool.Basics();
    ShadowFewer(pool.chunks, pool.Stride(), pool.blockSize, m, live, slots, at);
    OutFewer(slots, at, free);
    WithoutMisses(slots, at, free);
    Holding(pool, live[at].ptr, s);
    inst.Deallocate(live[at].ptr);
    pool.Basics();
    ShadowElsewhere(pool.chunks, pool.chunks, pool.Stride(), pool.blockSize, m, pool.heap.mem, fewer, rest, s, live[at].ptr, pool.Stride());
  }

  lemma WithoutMisses(slots: seq<Slot>, k: nat, free: seq<Slot>)
    requires Out(slots, free) && k < |slots|
    ensures slots[k] !in PoolLockstep.Without(slots, k)
  {
    var rest := PoolLockstep.Without(slots, k);
    forall j | 0 <= j < |rest|
      ensures rest[j] != slots[k]
    {
      assert rest[j] == slots[if j < k then j else j + 1];
    }
  }

  /** do_free_valid: every check in it passes. */
  method DoFreeValid(inst: InstrumentedPool, live: seq<LiveBlock>, index: nat, ghost slots: seq<Slot>)
    returns (ok: bool, fewer: seq<LiveBlock>, ghost fewerSlots: seq<Slot>)
    requires inst.pool != null && InTune(inst, live, slots)
    modifies inst, inst.pool, inst.pool.heap
    ensures ok && inst.pool == old(inst.pool) && inst.pool.Rest() == old(inst.pool.Rest()) && inst.peakLive == old(inst.peakLive)
    ensures InTune(inst, fewer, fewerSlots)
    ensures fewer == if live == [] then live else PoolLockstep.Without(live, index % |live|)
    ensures inst.pool.Terms() == old(inst.pool.Terms()) && PlayOf(inst, fewerSlots) == Freeing(old(PlayOf(inst, slots)), index)
    ensures inst.Stats() == old(inst.Stats()).(deallocations := inst.deallocations, live := inst.live)
  {
    hide MemoryPool.Valid, Out;
    ok, fewer, fewerSlots := true, live, slots;
    Counted(inst, live, slots);
    if live == [] {
      return;
    }
    var at := index % |live|;
    var target := live[at];
    assert ShadowAt(inst.pool.chunks, inst.pool.Stride(), inst.pool.blockSize, inst.pool.heap.mem, live[at], slots[at]);
    ok := CanaryIntact(inst.pool.heap, target, inst.pool.blockSize);
    GiveBack(inst, live, at, slots);
    fewer, fewerSlots := PoolLockstep.Without(live, at), PoolLockstep.Without(slots, at);
  }

  // ---- Programs ----------------------------------------------------------------------------

  function BlockSizeOf(data: seq<byte>): size {
    16 * (1 + ByteAt(data, 0) % 4)
  }

  function BlockCountOf(data: seq<byte>): size {
    1 + ByteAt(data, 1) % 8
  }

  /** The growth factor, 0 for a fixed pool. */
  function FactorOf(data: seq<byte>): size {
    if ByteAt(data, 2) % 2 != 0 then 2 + ByteAt(data, 2) / 2 % 2 else 0
  }

  ghost function TermsFor(oracle: Oracle, hardened: bool, data: seq<byte>): Terms {
    Terms(oracle, FactorOf(data), SlotStride(hardened, BlockSizeOf(data)))
  }

  /** The pool made for a program, before its first opcode. */
  ghost function StartOf(oracle: Oracle, t: nat, regions: Regions, hardened: bool, data: seq<byte>): Play {
    var count := BlockCountOf(data);
    var (base, t', r) := Creation(oracle, t, regions, hardened, BlockSizeOf(data), count);
    Play(Image([Chunk(base, count)], ChunkSlots(0, count), t', r), [], 0, 0, 0)
  }

  function FirstOpcode(data: seq<byte>): nat {
    if |data| < 3 then |data| else 3
  }

  lemma NothingHeld(inst: InstrumentedPool)
    requires inst.Exact() && inst.live == 0
    ensures InTune(inst, [], [])
  {
  }

  /** The pool a program runs against, as its first three bytes say. */
  method MakePool(heap: Heap, hardened: bool, reader: ByteReader) returns (inst: InstrumentedPool)
    requires heap.Valid() && reader.pos == 0
    requires CanCreate(heap, hardened, BlockSizeOf(reader.data), BlockCountOf(reader.data))
    modifies heap, reader
    ensures fresh(inst) && inst.pool != null && fresh(inst.pool) && inst.pool.heap == heap && inst.pool.Rest() == old(heap.regions)
    ensures InTune(inst, [], []) && inst.peakLive == 0 && reader.pos == FirstOpcode(reader.data)
    ensures var b0, b1, b2 := ByteAt(reader.data, 0), ByteAt(reader.data, 1), ByteAt(reader.data, 2);
      && inst.pool.blockSize == 16 * (1 + b0 % 4) && inst.pool.Now() == View([1 + b1 % 8], ChunkSlots(0, 1 + b1 % 8))
      && inst.pool.growFactor == (if b2 % 2 == 0 then 0 else 2 + b2 / 2 % 2) && inst.pool.hardened == hardened
    ensures inst.pool.Terms() == TermsFor(heap.oracle, hardened, reader.data)
    ensures PlayOf(inst, []) == StartOf(heap.oracle, old(heap.clock), old(heap.regions), hardened, reader.data)
  {
    hide MemoryPool.Valid, HeapOk, Shadow, Out, NoDup, ChunksOk, CanCreate, Creation, RestSpared;
    var b := reader.Next();
    var blockSize: size := 16 * (1 + b % 4);
    b := reader.Next();
    var blockCount: size := 1 + b % 8;
    var mode := reader.Next();
    var pool := Obtain(heap, hardened, blockSize, blockCount, if mode % 2 != 0 then 2 + mode / 2 % 2 else 0);
    inst := new InstrumentedPool(pool);
    inst.AdoptedFresh();
    NothingHeld(inst);
  }

  /** Storage that is not the pool's has none of its slots. */
  lemma ForeignIsNoSlot(pool: MemoryPool, p: nat)
    requires pool.Valid() && InRegion(pool.Rest(), p)
    ensures !IsSlotAddress(pool.chunks, pool.Stride(), p)
  {
    if IsSlotAddress(pool.chunks, pool.Stride(), p) {
      var r :| r in pool.Rest() && r <= p < r + pool.Rest()[r];
      SlotClear(pool, SlotAt(pool.chunks, pool.Stride(), p), r);
    }
  }

  /** A free that is to change nothing: of null through the counters, or of another object's address
      through the core. */
  method FreeNothing(inst: InstrumentedPool, p: size, ghost live: seq<LiveBlock>, ghost slots: seq<Slot>)
    requires inst.pool != null && InTune(inst, live, slots) && (p != 0 ==> InRegion(inst.pool.Rest(), p))
    modifies inst, inst.pool, inst.pool.heap
    ensures inst.pool == old(inst.pool) && inst.pool.Rest() == old(inst.pool.Rest()) && inst.peakLive == old(inst.peakLive)
    ensures InTune(inst, live, slots) && inst.Stats() == old(inst.Stats())
    ensures inst.pool.Terms() == old(inst.pool.Terms()) && inst.pool.Image() == old(inst.pool.Image())
  {
    hide MemoryPool.Valid, Out, Shadow;
    var pool := inst.pool;
    pool.Basics();
    if p == 0 {
      pool.NoNull();
      inst.Deallocate(0);
    } else {
      ForeignIsNoSlot(pool, p);
      PoolHandles.Deallocate(pool, p);
    }
    pool.Basics();
  }

  /** One opcode, and the check after it. */
  method StepOnce(inst: InstrumentedPool, reader: ByteReader, live: seq<LiveBlock>, foreign: size, ghost slots: seq<Slot>)
    returns (ok: bool, more: seq<LiveBlock>, ghost moreSlots: seq<Slot>)
    requires inst.pool != null && InTune(inst, live, slots) && InRegion(inst.pool.Rest(), foreign) && foreign != 0
    requires reader.pos < |reader.data|
    modifies inst, inst.pool, inst.pool.heap, reader
    ensures ok && inst.pool == old(inst.pool) && inst.pool.Rest() == old(inst.pool.Rest()) && InTune(inst, more, moreSlots)
    ensures inst.peakLive == if |more| > old(inst.peakLive) then |more| else old(inst.peakLive)
    ensures old(reader.pos) < reader.pos <= |reader.data| && inst.pool.Terms() == old(inst.pool.Terms())
    ensures var op, room := reader.data[old(reader.pos)] % 4, |live| < 1024 && (old(inst.pool.free) != [] || old(inst.pool.CanGrow()));
      && (op == 0 && room ==> |more| == |live| + 1 && more[..|live|] == live && inst.allocations == old(inst.allocations) + 1)
      && (op == 0 && room ==> more[|live|].canary == 0xA0 + |live| % 16)
      && (op == 0 && !room ==> more == live && inst.allocations == old(inst.allocations))
      && (op == 0 ==> inst.allocationFailures == old(inst.allocationFailures) + if room || |live| >= 1024 then 0 else 1)
      && (op == 1 && live != [] ==> more == PoolLockstep.Without(live, ByteAt(reader.data, old(reader.pos) + 1) % |live|))
      && (op == 1 && live == [] ==> more == live)
      && (op == 1 ==> inst.Stats() == old(inst.Stats()).(deallocations := inst.deallocations, live := inst.live))
      && (op >= 2 ==> more == live && inst.Stats() == old(inst.Stats()) && inst.pool.Image() == old(inst.pool.Image()))
      && (op >= 2 ==> reader.pos == old(reader.pos) + 1)
    ensures (PlayOf(inst, moreSlots), reader.pos)
      == Opcode(inst.pool.Terms(), reader.data, old(reader.pos), old(PlayOf(inst, slots)))
  {
    hide MemoryPool.Valid, Out, Shadow, HeapOk, InRegion, Allocating, Freeing, MemoryPool.CanGrow;
    ok, more, moreSlots := true, live, slots;
    PeakCovers(inst);
    var opcode := reader.Next();
    if opcode % 4 == 0 {
      ok, more, moreSlots := DoAlloc(inst, live, 0xA0 + |live| % 16, slots);
    } else if opcode % 4 == 1 {
      var index := reader.Next();
      ok, more, moreSlots := DoFreeValid(inst, live, index, slots);
      PeakCovers(inst);
    } else if opcode % 4 == 2 {
      FreeNothing(inst, 0, live, slots);
    } else {
      FreeNothing(inst, foreign, live, slots);
    }
    ok := ok && inst.Stats().live == |more|;
  }

  /** The sizes a program asks for are always acceptable. */
  lemma SizesAreValid(heap: Heap, hardened: bool, data: seq<byte>)
    requires GrantsPool(heap, hardened, BlockSizeOf(data), BlockCountOf(data))
    ensures CanCreate(heap, hardened, BlockSizeOf(data), BlockCountOf(data))
  {
    hide GrantsPool;
    CanCreateIff(heap, hardened, BlockSizeOf(data), BlockCountOf(data));
    assert Multiple(BlockSizeOf(data), 16, 1 + ByteAt(data, 0) % 4);
    MulMonotone(BlockSizeOf(data) + 16, 80, BlockCountOf(data));
    MulMonotone(BlockSizeOf(data), 80, BlockCountOf(data));
  }

  /** run_program. For every input, if the heap grants the pool's storage and `foreign` is the address of another
      live object: every check passes, the counters are what the opcodes come to, and the heap gets back all
      it gave. */
  method RunProgram(heap: Heap, hardened: bool, data: seq<byte>, foreign: size) returns (ok: bool, stats: PoolStats)
    requires heap.Valid() && GrantsPool(heap, hardened, BlockSizeOf(data), BlockCountOf(data))
    requires InRegion(heap.regions, foreign) && foreign != 0
    modifies heap
    ensures ok && heap.Valid() && heap.regions == old(heap.regions)
    ensures var end := Program(TermsFor(heap.oracle, hardened, data), data, FirstOpcode(data),
                               StartOf(heap.oracle, old(heap.clock), old(heap.regions), hardened, data));
      stats == PoolStats(end.allocations, end.allocations, end.failures, 0, end.peak)
  {
    hide MemoryPool.Valid, Out, Shadow, HeapOk, InRegion, CanCreate, GrantsPool, Opcode, StartOf;
    SizesAreValid(heap, hardened, data);
    var reader := new ByteReader(data);
    var inst := MakePool(heap, hardened, reader);
    var live: seq<LiveBlock>, peak: nat := [], 0;
    ghost var slots: seq<Slot> := [];
    ghost var k, end := inst.pool.Terms(), Program(inst.pool.Terms(), data, reader.pos, PlayOf(inst, []));
    ok := true;
    while reader.pos < |reader.data|
      invariant reader.pos <= |reader.data| && fresh(reader) && fresh(inst) && inst.pool != null && fresh(inst.pool)
      invariant inst.pool.heap == heap && inst.pool.Rest() == old(heap.regions) && InTune(inst, live, slots)
      invariant ok && peak == inst.peakLive && inst.pool.Terms() == k
      invariant end == Program(k, data, reader.pos, PlayOf(inst, slots))
      decreases |reader.data| - reader.pos
    {
      ok, live, slots := StepOnce(inst, reader, live, foreign, slots);
      peak := if |live| > peak then |live| else peak;
    }
    while live != []
      invariant fresh(inst) && inst.pool != null && fresh(inst.pool)
      invariant inst.pool.heap == heap && inst.pool.Rest() == old(heap.regions) && InTune(inst, live, slots)
      invariant ok && peak == inst.peakLive
      invariant inst.allocations == end.allocations && inst.allocationFailures == end.failures && inst.peakLive == end.peak
      decreases |live|
    {
      ok, live, slots := DoFreeValid(inst, live, 0, slots);
    }
    stats := inst.Stats();
    ok := ok && stats.live == 0 && stats.allocations == stats.deallocations && stats.peakLive == peak;
    Destroy(inst.pool);
  }
}
