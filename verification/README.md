# A model of the pbr-cpp-memory-pool engine

This project models the fixed-block memory pool of `memory_pool.cpp` and proves what its design
promises. The pool keeps its free list inside the free slots themselves, grows by geometrically
larger chunks, and comes in three synchronization policies (none, mutex, lock-free) and a hardened
build. On top of it sit an instrumented pool with lock-free counters, two routing adapters, a
diagnostic iterator and a fuzz harness that carries its own oracle.

`dafny verify dfyconfig.toml` checks everything. Every result is a statement over all inputs, all
runs or all reachable states.

## How the model is organised

* **Arithmetic and memory** (`Common`, `Arithmetic`, `Words`, `Sizes`, `Memory`, `Heap`). `size_t` is bounded and
  wraps; memory is a map from addresses to bytes; links and guards are little-endian words in it.
  `::operator new` is an environment that answers each request with null or with aligned storage, apart
  from every live region and inside the address space, and with arbitrary bytes in it.
* **The sequential engine** (`Slots`, `PoolImages`, `MemoryPools`, `PoolLifetime`). `MemoryPool` has the fields of
  `memory_pool` and works on the bytes of the heap in place, for the plain and the hardened build
  (the field `hardened`). Ghost fields name the abstract state: the chunks, the free slots in list
  order, the number of blocks out, the slots a client did wrong by, and the free slots whose guard it
  changed. `Valid()` ties them to the bytes. Slots are named by chunk and index, so that a view of a pool does not depend on the build.
  An image of a pool, its chunks, free slots and heap, is what allocations and frees are functions of; the
  runs below are specified by it.
* **Whole sequential runs** (`PoolClients`, `BlockContents`, `PoolAudit`, `PoolLockstep`, `PoolHandles`,
  `FreeLists`): client writes, the bytes in the blocks that are out, what the hardened build reports, its
  refinement of the plain build, ownership of heap regions by many `Pool` objects, and the diagnostic walk.
* **The lock-free policy** (`LockFree`, `LockFreeProofs`, `LockFreeCalls`, `LockFreeProgress`, `LockFreeLimits`): a
  transition system with one program counter per thread and one step per access to a shared word, under sequential consistency.
  The tag width is a parameter.
* **The mutex policy with growth** (`MutexGrowth`, `MutexGrowthProofs`, `MutexGrowthSlots`, `MutexGrowthCalls`,
  `MutexGrowthProgress`, `MutexGrowthLimits`): the range check of a free reads the chunk list without the lock, one word a
  step, while growths fill in and link descriptors.
* **The instrumented pool**: `InstrumentedThreads`, `InstrumentedProofs`, `InstrumentedCalls` and `InstrumentedGrowth`
  for any number of threads, `InstrumentedPools` for one thread over the sequential engine.
* **Clients**: `FuzzHarness` is the harness with its opcode interpreter, shadow set and checks;
  `PoolAdapters` the two routing adapters over one pool.

## Where the code and its documentation differ

The model follows the code.

* The comment at `memory_pool.cpp:663-666` says that the guards of a free read only fields that never
  change after creation. Under the mutex policy with growth the walk reads `overflow_`, which does, and an
  address that is no slot when the call begins can be accepted (`MutexGrowthLimits.StaleAddressAccepted`):
  exactly if a chunk that is linked before the walk reads the list head has a slot there
  (`MutexGrowthProofs.RangeCheckSound`). It cannot happen if the object at that address stays alive during
  the call (`MutexGrowthSlots.FreesExact`).
* The comment at `memory_pool.cpp:98-103` says that saturating the stride makes the product guard reject
  the request. For a single block the guard lets it through (`Sizes.SaturatedStrideGuard`); that no pool
  comes of it is because no heap can grant `SIZE_MAX` bytes (`PoolLifetime.SaturatedNeverCreated`).
* `docs/changelog/v1/v1.1.2.md:43` and `docs/releases/v1.1.2.md:7` promise one growth event for each growth.
  It fails in two ways. A pool adopted after it has grown starts with a watermark of zero, so its first
  allocation tells of a growth that was not (`InstrumentedProofs.OverreportedIff`: such a run exists exactly
  then). And two allocations that overlap may both grow the pool before either reads the growth counter: the
  first raises the watermark by two and tells once, the second has nothing to tell
  (`InstrumentedGrowth.TwoToldAsOne`). Some run of `n` threads over a pool adopted after `g` growths tells of
  more growths or fewer than there were exactly if `n` is at least two, or is one and `g` is positive
  (`InstrumentedGrowth.MiscountedIff`); with one thread and `g` zero the promise holds
  (`InstrumentedGrowth.OncePerGrowth`).
* `docs/adr/0043-opt-in-debug-hardening.md:38` says that a write after free is caught at the slot's next
  allocation. What is checked there is whether the payload is poison again: a write goes unreported if the
  slot is freed once more in between, which poisons it (`PoolClients.FreedAgain`), or if the bytes are
  written back (`PoolClients.WrittenBack`). `PoolAudit.WriteReportedIff` says exactly when it is reported.
* Line 70 of the same document promises that a double free is always detected. It is exactly if the guard of
  the free slot was not written over in between (`PoolClients.DoubleFreeReportedIff`). Otherwise the free may
  go unreported (`PoolClients.FreedUnnoticed`); the free list is then a cycle, and the next two allocations
  take the same slot, the second with a report of a corrupt free list (`PoolClients.TakenTwice`).
* Line 79 of the same document says that a write to the link word alone is caught by the check on reveal.
  That check catches just the words that reveal to a non-null unaligned address
  (`MemoryPools.LinkWriteReportedIff`, with `MemoryPools.WrongLinkUnreported`).
* `memory_pool.h:216` speaks of a 128-byte bound on the pool struct and says that the reported overhead
  does not depend on the pool's size; `memory_pool.cpp:379` has 192, and each growth adds a descriptor
  (`PoolLifetime.MetadataBytes`).

## Model

| member | source | states |
|---|---|---|
| `Sizes.OverflowGuardExact` | src/main/cpp/it/d4np/memorypool/memory_pool.cpp:64-72 | The product guard refuses exactly the products above `SIZE_MAX`; a product it lets through does not wrap. |
| `Sizes.ValidBlockSizes` | src/main/cpp/it/d4np/memorypool/memory_pool.cpp:49-62 | The block sizes accepted are the positive multiples of 16. |
| `Sizes.StrideShape` | src/main/cpp/it/d4np/memorypool/memory_pool.cpp:96-116 | For a valid block size the stride is the block size, one alignment unit more when hardened, or `SIZE_MAX` where there is no room for that. |
| `Sizes.SaturatedStrideGuard` | src/main/cpp/it/d4np/memorypool/memory_pool.cpp:104-111 | The product guard stops the saturated stride exactly for two blocks or more; for a single block it lets it pass. |
| `Sizes.GeometricTotal` | src/main/cpp/it/d4np/memorypool/memory_pool.cpp:447-468 | Chunks that each bring the total to `factor` times what it was add up to exactly the first count times factor to the number of growths. |
| `Sizes.GrowthsLogarithmic` | src/main/cpp/it/d4np/memorypool/memory_pool.cpp:425-435 | Two to the number of growths is at most the capacity. |
| `Sizes.GrowthGuardsExact` | src/main/cpp/it/d4np/memorypool/memory_pool.cpp:456-468 | The two growth guards, on wrapped intermediate values, accept exactly when total * (factor - 1) * stride fits in `size_t` in true arithmetic. |
| `Sizes.GrowthBounded` | src/main/cpp/it/d4np/memorypool/memory_pool.cpp:447-468 | A growth the guards accept keeps total <= 2 * (`SIZE_MAX` / stride), so both products, and the unguarded summation over chunks, never wrap. |
| `Words.XorInvolution` | src/main/cpp/it/d4np/memorypool/memory_pool.cpp:134-141 | XOR with the same key twice gives the word back. |
| `Words.XorLinkRoundTrip` | src/main/cpp/it/d4np/memorypool/memory_pool.cpp:134-141 | Revealing a safe-linked link gives back the link that was stored, for every slot address and link. |
| `Words.NullStored` | src/main/cpp/it/d4np/memorypool/memory_pool.cpp:134-141 | The link of the last free slot is stored as the number of its page. |
| `Memory.LinkStored` | src/main/cpp/it/d4np/memorypool/memory_pool.cpp:260-271 | Writing a link and revealing it gives it back, and touches neither the poison nor the guard of the slot. |
| `Memory.GuardStored` | src/main/cpp/it/d4np/memorypool/memory_pool.cpp:147-155 | Stamping a guard changes no link, no payload byte and nothing outside the slot. |
| `Memory.PayloadPoisoned` | src/main/cpp/it/d4np/memorypool/memory_pool.cpp:157-163 | Poisoning a payload changes neither the link nor the guard. |
| `Slots.SlotsApart` | src/main/cpp/it/d4np/memorypool/memory_pool.cpp:278-299 | Two different slots of a pool, of one chunk or of two, never overlap. |
| `Slots.RangeTestExact` | src/main/cpp/it/d4np/memorypool/memory_pool.cpp:399-419 | The range and remainder test, with its wrapping end address, passes for exactly the addresses of the chunk's slots. |
| `Slots.PopKeeps` | src/main/cpp/it/d4np/memorypool/memory_pool.cpp:512-531 | Moving the head to its link leaves a list that spells the rest of the abstract list, and every guard right. |
| `Slots.PushKeeps` | src/main/cpp/it/d4np/memorypool/memory_pool.cpp:533-547 | A slot linked to the old head spells the list with that slot prepended. |
| `Slots.ChangeKeeps` | src/main/cpp/it/d4np/memorypool/memory_pool.cpp:193-205 | A change inside one slot that keeps its link and its "freed" stamp keeps the whole list, wherever the slot is. |
| `Slots.ChunkLinked` | src/main/cpp/it/d4np/memorypool/memory_pool.cpp:481-491 | A seeded chunk linked into an exhausted pool makes its slots, in address order, the free list, and leaves every live slot as it was. |
| `Slots.SlotsUndisturbed` | src/main/cpp/it/d4np/memorypool/memory_pool.cpp:334-369 | Nothing about the slots changes while the bytes of the chunks do not. |
| `Slots.SomeSlotLive` | src/main/cpp/it/d4np/memorypool/memory_pool.cpp:447-492 | A repetition-free list that misses a slot is shorter than the capacity: the counting behind conservation of slots. |
| `Heap.GrantReleased` | src/main/cpp/it/d4np/memorypool/memory_pool.cpp:477-484 | Releasing what was just granted gives back exactly the heap there was. |
| `MemoryPools.MemoryPool.PayloadIsPoison` | src/main/cpp/it/d4np/memorypool/memory_pool.cpp:165-174 | True exactly if every payload byte beyond the link is poison. |
| `MemoryPools.MemoryPool.OnAlloc` | src/main/cpp/it/d4np/memorypool/memory_pool.cpp:209-217 | Reports a guard that does not say freed and a payload that is not poison, each exactly then, and stamps the slot allocated. |
| `MemoryPools.MemoryPool.OnFree` | src/main/cpp/it/d4np/memorypool/memory_pool.cpp:193-205 | Reports double free or overflow by the guard it finds, poisons and stamps the slot, keeps its link, and lets it be enqueued unless it was free. |
| `MemoryPools.MemoryPool.ReadNext` | src/main/cpp/it/d4np/memorypool/memory_pool.cpp:247-256 | Reveals the link and reports exactly a non-null unaligned one. |
| `MemoryPools.LinkWriteReportedIff` | src/main/cpp/it/d4np/memorypool/memory_pool.cpp:247-256 | A word written over the link of a free slot is reported when the slot is popped exactly if it reveals to a non-null unaligned address. |
| `MemoryPools.WrongLinkUnreported` | src/main/cpp/it/d4np/memorypool/memory_pool.cpp:247-256 | A wrong link that reveals to an aligned address and goes unreported. |
| `MemoryPools.MemoryPool.WriteNext` | src/main/cpp/it/d4np/memorypool/memory_pool.cpp:260-271 | The word stored is `next` in the plain build, and XORed with the number of the slot's page in the hardened one; the link then reads as `next`, and no byte beyond it changes. |
| `MemoryPools.MemoryPool.InitializeFreeList` | src/main/cpp/it/d4np/memorypool/memory_pool.cpp:278-299 | Every slot of the chunk is linked to the next one, the last to null, poisoned and stamped; no byte outside the chunk changes. |
| `MemoryPools.MemoryPool.TotalSlots` | src/main/cpp/it/d4np/memorypool/memory_pool.cpp:447-451 | The wrapping summation over the overflow list is the true capacity. |
| `MemoryPools.MemoryPool.GrowthCount` | src/main/cpp/it/d4np/memorypool/memory_pool.cpp:447-468 | Refuses exactly when the new chunk's bytes do not fit; otherwise the count is total * (factor - 1), exactly. |
| `MemoryPools.MemoryPool.AcquireTwo` | src/main/cpp/it/d4np/memorypool/memory_pool.cpp:470-484 | Succeeds exactly if the heap answers both requests; a failure of either leaves the heap as it was, byte for byte. |
| `MemoryPools.MemoryPool.GrowPool` | src/main/cpp/it/d4np/memorypool/memory_pool.cpp:447-492 | Succeeds exactly if growth fits and the heap grants it; then one chunk is appended, the others stay where they are and keep their bytes, its slots are the free list, and nothing else on the heap changes hands. Otherwise nothing changed. |
| `MemoryPools.MemoryPool.PopHead` | src/main/cpp/it/d4np/memorypool/memory_pool.cpp:512-531 | Null exactly if the list is empty and no growth is possible, and then nothing changed. Otherwise the slot the view vends next, with that slot gone from the list; a corrupt free list is reported exactly if its guard was changed while it was free, a use after free exactly if its payload was; no mapped byte outside its guard changed. |
| `MemoryPools.MemoryPool.PushHead` | src/main/cpp/it/d4np/memorypool/memory_pool.cpp:533-547 | The slot becomes the head of the list; in the hardened build a slot that was free already is reported and dropped, and the list stays as it was. |
| `MemoryPools.MemoryPool.IsBlockInRange` | src/main/cpp/it/d4np/memorypool/memory_pool.cpp:425-435 | True for exactly the addresses of this pool's slots, over all chunks. |
| `MemoryPools.MemoryPool.Alloc` | src/main/cpp/it/d4np/memorypool/memory_pool.cpp:655-661 | The same as PopHead for the C entry point, null pool included: pop on the abstract list, growth exactly when possible, and the invariant kept. |
| `MemoryPools.MemoryPool.Free` | src/main/cpp/it/d4np/memorypool/memory_pool.cpp:668-680 | An address that is no slot's changes nothing, neither memory, head nor chunk list. A live slot is prepended; a free one is reported and dropped. Reports are exactly those the slot's state calls for, and that slot is clean afterwards. |
| `MemoryPools.MemoryPool.HeadGone` | src/main/cpp/it/d4np/memorypool/memory_pool.cpp:512-531 | A pop keeps the whole invariant: sizes, chunk list, links, stamps. |
| `MemoryPools.MemoryPool.ChunkJoins` | src/main/cpp/it/d4np/memorypool/memory_pool.cpp:481-491 | A growth keeps the whole invariant. |
| `MemoryPools.MemoryPool.SlotReturned` | src/main/cpp/it/d4np/memorypool/memory_pool.cpp:533-547 | A push of a live slot keeps the list duplicate-free, null-terminated and stamped right. |
| `MemoryPools.MemoryPool.SlotKeptFree` | src/main/cpp/it/d4np/memorypool/memory_pool.cpp:193-205 | A dropped double free keeps the list and the stamps, even in the middle of the list. |
| `PoolLifetime.SaturatedNeverCreated` | src/main/cpp/it/d4np/memorypool/memory_pool.cpp:104-111 | A block size whose stride saturates never yields a pool: the guard refuses two blocks or more, the heap a single one. |
| `PoolLifetime.Create` | src/main/cpp/it/d4np/memorypool/memory_pool.cpp:686-756 | A pool exactly if the block size is a positive multiple of 16, there is at least one block, the bytes of all blocks (and guards) fit in `size_t`, and the heap grants those and 64 bytes more; then all its slots are free in address order and it owns the two new regions. Otherwise the heap is as it was. |
| `PoolLifetime.CanCreateIff` | src/main/cpp/it/d4np/memorypool/memory_pool.cpp:49-117 | The condition under which a pool can be made, spelled out in bytes. |
| `PoolLifetime.CreateDynamic` | src/main/cpp/it/d4np/memorypool/memory_pool.cpp:762-783 | As Create, and refuses factors below 2. |
| `PoolLifetime.Capacity` | src/main/cpp/it/d4np/memorypool/memory_pool.cpp:447-492 | In every state: capacity is first count * factor^growths, growths are the overflow chunks and at most 60 (so logarithmic), capacity is at most the first count or factor * the most blocks ever out, and free plus live slots are the capacity. |
| `PoolLifetime.CanGrowIff` | src/main/cpp/it/d4np/memorypool/memory_pool.cpp:447-492 | An exhausted pool can grow exactly if it is dynamic, total * (factor - 1) * stride fits in `size_t`, and the heap grants that many bytes and 24 more. |
| `PoolLifetime.MetadataBytes` | src/main/cpp/it/d4np/memorypool/memory_pool.cpp:811-827 | 64 bytes, and 24 for each growth, computed without wrapping. |
| `PoolLifetime.Undisturbed` | src/main/cpp/it/d4np/memorypool/memory_pool.cpp:334-369 | A pool stays valid whatever happens to the rest of the heap. |
| `PoolLifetime.Destroy` | src/main/cpp/it/d4np/memorypool/memory_pool.cpp:785-809 | The heap is left with exactly the regions that were not the pool's, with their bytes. |
| `PoolHandles.Allocate` | src/main/cpp/it/d4np/memorypool/memory_pool.cpp:655-661 | An allocation touches no region of anybody else, growth included, and makes at most one growth. |
| `PoolHandles.Deallocate` | src/main/cpp/it/d4np/memorypool/memory_pool.cpp:668-680 | A free touches no region of anybody else. |
| `PoolHandles.OwnerChanged` | src/main/cpp/it/d4np/memorypool/memory_pool.cpp:968-995 | What one owner does to its own regions keeps the ownership of all the others and the rest of the heap. |
| `PoolHandles.Owners.MoveAssign` | src/main/cpp/it/d4np/memorypool/memory_pool.cpp:988-995 | The target's pool is destroyed, the source's moves and the source is left null; to itself it does nothing; all pools stay valid. |
| `PoolHandles.Owners.Construct` | src/main/cpp/it/d4np/memorypool/memory_pool.cpp:968-976 | False exactly if the pool cannot be made, and then nothing changed. |
| `PoolHandles.Owners.AllocateAt` | src/main/cpp/it/d4np/memorypool/memory_pool.cpp:1007-1010 | Allocating through one object is a pop of its pool, null exactly if it is empty and cannot grow, and keeps every other object's pool valid. |
| `PoolHandles.Owners.DestructAll` | src/main/cpp/it/d4np/memorypool/memory_pool.cpp:980-982 | After all destructors the heap is exactly what it was. |
| `PoolHandles.Execute` | src/main/cpp/it/d4np/memorypool/memory_pool.cpp:968-1010 | One construction, move, allocation, free or destruction comes to exactly what it should for the objects and the heap, and all pools stay valid. |
| `PoolHandles.Run` | src/main/cpp/it/d4np/memorypool/memory_pool.cpp:968-995 | Over every run of constructions, growths, moves (to itself included), frees of any address and destructions, each as it should be, the heap gets back exactly its regions, and the bytes in those that were nobody's are as they were: each backing, descriptor and struct is released, once; and the heap was asked exactly as often as the commands say. |
| `PoolClients.WriteLive` | src/main/cpp/it/d4np/memorypool/memory_pool.cpp:512-548 | Any byte written anywhere in a live block keeps the pool's whole invariant. |
| `PoolClients.Scribble` | src/main/cpp/it/d4np/memorypool/memory_pool.cpp:209-217 | A write of any byte beyond the link of a free slot keeps the invariant, and that slot is tainted exactly while its payload is not all poison. |
| `PoolClients.Stomp` | src/main/cpp/it/d4np/memorypool/memory_pool.cpp:209-217 | A write over the guard of a free slot keeps the list and the poison; the slot is stomped exactly while its guard is not the freed stamp. |
| `PoolClients.Overrun` | src/main/cpp/it/d4np/memorypool/memory_pool.cpp:193-205 | A guard left at anything but the two stamps taints the live slot; the list is not affected. |
| `PoolClients.OverflowReported` | src/main/cpp/it/d4np/memorypool/memory_pool.cpp:193-205 | Running over the end of a block and freeing it: one overflow is reported, of that block, and the slot is free and clean afterwards. |
| `PoolClients.UseAfterFreeReported` | src/main/cpp/it/d4np/memorypool/memory_pool.cpp:209-217 | Writing anything but poison into the free slot at the head and allocating: one use after free is reported, of that slot. |
| `PoolClients.CorruptionReported` | src/main/cpp/it/d4np/memorypool/memory_pool.cpp:209-217 | Writing anything but the freed stamp over its guard and allocating: one corruption of the free list is reported. |
| `PoolClients.GiveAndTake` | src/main/cpp/it/d4np/memorypool/memory_pool.cpp:512-548 | A block given back is the next one vended, and vending it restores the view; no byte outside its slot changed in between. |
| `BlockContents.RetainsElsewhere` | src/main/cpp/it/d4np/memorypool/memory_pool.cpp:512-548 | A change inside one slot, growths and pushes included, leaves every byte written to the other blocks that are out. |
| `BlockContents.Vend` | src/main/cpp/it/d4np/memorypool/memory_pool.cpp:512-531 | An allocation, with or without a growth, leaves every byte that clients wrote to the blocks that are out. |
| `PoolAudit.PopMatches` | src/main/cpp/it/d4np/memorypool/memory_pool.cpp:209-217 | Vending a slot is judged by what was done to it last, across a growth too. |
| `PoolAudit.FreeMatches` | src/main/cpp/it/d4np/memorypool/memory_pool.cpp:193-205 | Freeing a slot is judged by what was done to it last. |
| `PoolAudit.DirtStands` | src/main/cpp/it/d4np/memorypool/memory_pool.cpp:157-174 | A byte of a slot counts as not poison exactly if the last event that wrote it, since the slot was last vended or freed, wrote something else. |
| `PoolAudit.OverrunStands` | src/main/cpp/it/d4np/memorypool/memory_pool.cpp:147-155 | The guard of a slot counts as changed exactly if the last event that wrote it, since the slot was last vended or freed, left something else than the pool did. |
| `PoolAudit.WriteReportedIff` | src/main/cpp/it/d4np/memorypool/memory_pool.cpp:165-217 | A slot vended next is reported as used after free exactly if some byte beyond its link was, since it was last vended or freed, last written with anything but 0xDE; and as a corrupt free list exactly if its guard was, since then, last written with anything but the freed stamp. |
| `PoolAudit.FreeReportedIff` | src/main/cpp/it/d4np/memorypool/memory_pool.cpp:193-205 | A live slot freed next is reported as overflowed exactly if its guard was, since it was vended, last written with anything but the allocated stamp; a free one as freed twice. |
| `PoolAudit.GuardWriteReportedOnce` | src/main/cpp/it/d4np/memorypool/memory_pool.cpp:209-217 | A changed guard of a free slot is reported when the slot is vended and is clean again from then on; one put back in time is not reported. |
| `PoolAudit.FreedAgainUnreported` | src/main/cpp/it/d4np/memorypool/memory_pool.cpp:193-205 | A write to a free slot that goes unreported, as a use after free, because the slot is freed once more. |
| `PoolAudit.WrittenBackUnreported` | src/main/cpp/it/d4np/memorypool/memory_pool.cpp:165-174 | A write to a free slot that goes unreported because the byte is written back. |
| `PoolClients.FreedAgain` | src/main/cpp/it/d4np/memorypool/memory_pool.cpp:193-217 | The first of these on the pool itself: write, free again, allocate; only the double free is reported. |
| `PoolClients.WrittenBack` | src/main/cpp/it/d4np/memorypool/memory_pool.cpp:165-217 | The second on the pool itself: write, write back, allocate; nothing is reported. |
| `PoolClients.DoubleFreeReportedIff` | src/main/cpp/it/d4np/memorypool/memory_pool.cpp:193-205 | A free of a free slot is reported as a double free exactly if its guard was not written over while it was free, and not at all exactly if it was, with the allocated stamp. |
| `PoolClients.FreedUnnoticed` | src/main/cpp/it/d4np/memorypool/memory_pool.cpp:193-205 | Such a free of the head slot: nothing is reported, and the head links to itself. |
| `PoolClients.TakenTwice` | src/main/cpp/it/d4np/memorypool/memory_pool.cpp:512-531 | From there the next two pops take the same slot; the second one reports a corrupt free list. |
| `PoolAudit.Perform` | src/main/cpp/it/d4np/memorypool/memory_pool.cpp:512-548 | One act leaves the pool, the trace, the reports and the bytes in the blocks that are out exactly as the act comes to: an allocation is an event exactly if there is a slot to vend, a free exactly if the address is a slot, a write exactly if the slot is free, a guard overwritten if the slot is free or live; a byte written to a live block is there from then on. |
| `PoolAudit.Audit` | src/main/cpp/it/d4np/memorypool/memory_pool.cpp:193-217 | Over every sequence of allocations, frees of any addresses however often, writes to blocks live or free and over their guards, with a handler that returns: pool and trace are exactly what the acts come to, the reports are the judgement of that trace, every double free, use after free, corrupt free list and overflow and no more, each block that is out holds the bytes written to it, and no slot is vended while it is out. |
| `PoolLockstep.GetBoth` | src/main/cpp/it/d4np/memorypool/memory_pool.cpp:229-271 | A plain and a hardened pool in the same view vend the same slot, and the hardened one reports nothing. |
| `PoolLockstep.RunBoth` | src/main/cpp/it/d4np/memorypool/memory_pool.cpp:96-271 | For every script of a correct client both pools take the course the script says, with the same slots vended in the same order and the same slots held, each with the same bytes the client wrote there, and the hardened one reports nothing; it only ends early where one heap grants a growth that the other refuses. |
| `FreeLists.Linked` | src/main/cpp/it/d4np/memorypool/memory_pool.cpp:886-899 | Following the link of entry i gives the address of entry i + 1, or null after the last. |
| `FreeLists.FreeListNext` | src/main/cpp/it/d4np/memorypool/memory_pool.cpp:886-899 | One step along the list; null stays null; nothing is reported. |
| `FreeLists.FreeListIterator.Increment` | src/main/cpp/it/d4np/memorypool/free_list_iterator.hpp:74-77 | The iterator moves to the next entry, and stays at the end. |
| `FreeLists.FreeListIterator.Equals` | src/main/cpp/it/d4np/memorypool/free_list_iterator.hpp:92-94 | Comparing current slots tells exactly whether two iterators are at the same place. |
| `FreeLists.Enumerate` | src/main/cpp/it/d4np/memorypool/free_list_iterator.hpp:130-142 | Walking from begin to end visits exactly the abstract free list, in order. |
| `FreeLists.OnFreeList` | src/main/cpp/it/d4np/memorypool/memory_pool.cpp:886-899 | The walk finds an address exactly if its slot is free. |
| `FreeLists.FreeCount` | src/main/cpp/it/d4np/memorypool/memory_pool.cpp:901-918 | The length of the abstract free list. |
| `LockFreeProofs.TimelyIsCurrent` | src/main/cpp/it/d4np/memorypool/memory_pool.cpp:604-626 | A pop whose exchange succeeds within a turn of the tag finds the head unchanged since the load, so the link read speculatively is the true successor. Nothing is asked of exchanges that fail. |
| `LockFreeProofs.InvStep` | src/main/cpp/it/d4np/memorypool/memory_pool.cpp:599-644 | Every step of every thread keeps the invariant, the abstract stack moving by the step's pop or push. |
| `LockFreeProofs.Linearizable` | src/main/cpp/it/d4np/memorypool/memory_pool.cpp:599-644 | In every interleaving of any number of threads the pops, pushes and empty returns form, in the order of their steps, a run of an atomic LIFO stack, and the chain in memory spells its content. |
| `LockFreeCalls.OneEventPerCall` | src/main/cpp/it/d4np/memorypool/memory_pool.cpp:604-643 | Each completed call, whatever the others do meanwhile, is exactly one event of that stack: a pop returns the block of its event, or nothing because it saw the stack empty; a push pushes the block it was given. |
| `LockFreeProofs.SlotsPartitioned` | src/main/cpp/it/d4np/memorypool/memory_pool.cpp:599-644 | In every reachable state each slot is on the acyclic chain or held by exactly one thread: no double vend, no loss. |
| `LockFreeProofs.NoFalseReport` | src/main/cpp/it/d4np/memorypool/memory_pool.cpp:193-217 | No run of correct clients of the hardened lock-free build reports anything or reads outside the pool. |
| `LockFreeProofs.FailureMeansProgress` | src/main/cpp/it/d4np/memorypool/memory_pool.cpp:604-643 | An exchange that fails, other than spuriously, fails because another has succeeded since. |
| `LockFreeProgress.ExchangeTakesEffect` | src/main/cpp/it/d4np/memorypool/memory_pool.cpp:604-643 | An exchange whose head is the one loaded, and that does not fail spuriously, moves the head and is one pop or push; any other leaves the head as it is. |
| `LockFreeProgress.Finishes` | src/main/cpp/it/d4np/memorypool/memory_pool.cpp:604-643 | From anywhere in a call, in either build and whatever is in its block, a thread that then runs alone is idle again after at most seven steps and one for each word of the payload. |
| `LockFreeProgress.SoloPop` | src/main/cpp/it/d4np/memorypool/memory_pool.cpp:604-626 | An allocation by a thread that then runs alone ends with the block that was on top of the stack, or with nothing if there was none. |
| `LockFreeProgress.SoloFree` | src/main/cpp/it/d4np/memorypool/memory_pool.cpp:628-643 | A free by a thread that then runs alone ends with its block on top of the stack. |
| `LockFreeProgress.Vets` | src/main/cpp/it/d4np/memorypool/memory_pool.cpp:209-217 | Whatever a popped block holds, it is vended stamped allocated, with a corrupt free list reported exactly if its guard did not say freed, and a use after free exactly if some word of its payload was not poison. |
| `LockFreeProgress.Returns` | src/main/cpp/it/d4np/memorypool/memory_pool.cpp:193-205 | Whatever a freed block holds, it ends poisoned and stamped freed; a guard that said freed is reported as a double free, and the block dropped; any other but the allocated stamp as an overflow. |
| `LockFreeLimits.FullTurnBreaks` | src/main/cpp/it/d4np/memorypool/memory_pool.cpp:321-324 | For every tag width w there is a run with exactly one turn of the tag (2^w exchanges, four if that is shorter) between a load and its exchange after which one block is held by two threads; width 0 is the untagged head. |
| `LockFreeLimits.CheckedReadRaisesFalseAlarm` | src/main/cpp/it/d4np/memorypool/memory_pool.cpp:229-256 | With `read_next` in place of `reveal_next` a run of correct clients reports corruption. |
| `MutexGrowthProofs.ListStep` | src/main/cpp/it/d4np/memorypool/memory_pool.cpp:447-492 | Whatever step is taken, linked descriptors stay complete and unchanged, and the list at most grows at its head. |
| `MutexGrowthProofs.WalkStepOk` | src/main/cpp/it/d4np/memorypool/memory_pool.cpp:425-435 | A step of the unlocked walk reads no wild word, and if it ends it ends with a sound verdict. |
| `MutexGrowthProofs.WalkInvStep` | src/main/cpp/it/d4np/memorypool/memory_pool.cpp:556-586 | Every step of every thread keeps the invariant of the walk. |
| `MutexGrowthProofs.RangeCheckSound` | src/main/cpp/it/d4np/memorypool/memory_pool.cpp:668-680 | In every run, whatever objects come and go, a range check accepts exactly the slots of the chunks linked when it read the list head; so it never rejects a block that was the client's, and accepts another address exactly if a chunk linked between the start of the call and that read has a slot there. |
| `MutexGrowthSlots.SlotsInvStep` | src/main/cpp/it/d4np/memorypool/memory_pool.cpp:556-586 | Every step keeps the slots partitioned among the list and the threads, and the verdicts exact. |
| `MutexGrowthSlots.FreesExact` | src/main/cpp/it/d4np/memorypool/memory_pool.cpp:556-586 | In every run of clients that end no object while a free of its address is under way, a free is accepted exactly if the block was the client's, and every slot of every chunk is on the list or with one thread. The object's storage may go to the pool later. |
| `MutexGrowthCalls.Linearizable` | src/main/cpp/it/d4np/memorypool/memory_pool.cpp:556-586 | In every run of careful clients the steps under the lock form a run of one LIFO list, which a growth refills when it is empty with the slots of the chunk just linked, in address order; a failure sees it empty and is granted nothing. |
| `MutexGrowthCalls.CallsExact` | src/main/cpp/it/d4np/memorypool/memory_pool.cpp:556-586 | One call, whatever the others do meanwhile: an allocation is one pop, of the block it returns, or a refill and the pop of its first slot, or a failure; a free of a block of the client's is one push of it, any other nothing. |
| `MutexGrowthProgress.OwnNearer` | src/main/cpp/it/d4np/memorypool/memory_pool.cpp:425-435 | Each step of a call, a walk included, brings it nearer to its end, whatever the other threads have done and whatever is granted. |
| `MutexGrowthProgress.CallsFinish` | src/main/cpp/it/d4np/memorypool/memory_pool.cpp:556-586 | In every reachable state every call can be brought to its end by letting the thread that holds the lock run, and then the caller, for no more steps than three for each chunk and sixteen. |
| `MutexGrowthLimits.StaleAddressAccepted` | src/main/cpp/it/d4np/memorypool/memory_pool.cpp:663-680 | A run in which an object ends while a free of its address is under way, a growth is granted its storage, and the free is accepted. |
| `InstrumentedProofs.InvStep` | src/main/cpp/it/d4np/memorypool/instrumented_pool.hpp:166-206 | Every step keeps the counters in step with the calls in progress. |
| `InstrumentedProofs.CountersSound` | src/main/cpp/it/d4np/memorypool/instrumented_pool.hpp:181-248 | In every state of every run `live_` is at most the blocks out, the clamp has never fired and `peak_live_` is at most the largest `live_` there was; with no call in progress `live_` is the blocks out and allocations minus deallocations, and `peak_live_` is that largest value. |
| `InstrumentedProofs.GrowthEventsSound` | src/main/cpp/it/d4np/memorypool/instrumented_pool.hpp:260-273 | Each growth event told of a higher count than the one before and none above the core's; for a pool adopted before it grew there are at most as many events as growths, and at rest the watermark is the core counter. |
| `InstrumentedProofs.OverreportedIff` | src/main/cpp/it/d4np/memorypool/instrumented_pool.hpp:260-273 | The half about growths that were not: a run in which the observers are told of more growths than there were since adoption exists exactly if the pool was adopted after it had grown. |
| `InstrumentedCalls.CallsExact` | src/main/cpp/it/d4np/memorypool/instrumented_pool.hpp:166-206 | With no call in progress `allocations_` is the number of calls that returned a block, `allocation_failures_` the number of allocations that did not, and `deallocations_` the number of deallocations. |
| `InstrumentedCalls.Finishes` | src/main/cpp/it/d4np/memorypool/instrumented_pool.hpp:181-273 | From anywhere in a call a thread that then runs alone is idle again after at most twelve steps. |
| `InstrumentedGrowth.TwoToldAsOne` | src/main/cpp/it/d4np/memorypool/instrumented_pool.hpp:260-273 | A run of two threads over a pool adopted before it grew that ends with two growths and one event. |
| `InstrumentedGrowth.OncePerGrowth` | src/main/cpp/it/d4np/memorypool/instrumented_pool.hpp:260-273 | One thread over a pool adopted before it grew: whenever no call is in progress there was one event for each growth. |
| `InstrumentedGrowth.MiscountedIff` | src/main/cpp/it/d4np/memorypool/instrumented_pool.hpp:260-273 | Some run of n threads over a pool adopted after g growths comes to rest with more events or fewer than growths since exactly if n is at least two, or n is one and g positive. |
| `InstrumentedGrowth.EachToldIff` | src/main/cpp/it/d4np/memorypool/instrumented_pool.hpp:260-273 | In any run over a pool adopted before it grew, at rest: one event for each growth exactly if the watermark always rose by one, and never more events. |
| `InstrumentedPools.InstrumentedPool.NotifyIfGrew` | src/main/cpp/it/d4np/memorypool/instrumented_pool.hpp:260-273 | The watermark is raised to the core counter, with one event exactly if that is higher. |
| `InstrumentedPools.InstrumentedPool.TryAllocate` | src/main/cpp/it/d4np/memorypool/instrumented_pool.hpp:181-191 | A failure, of a moved-from object too, is counted and told and changes nothing else; a success is counted; exact counters stay exact, with one growth event for each growth. |
| `InstrumentedPools.InstrumentedPool.Deallocate` | src/main/cpp/it/d4np/memorypool/instrumented_pool.hpp:194-206 | Null is nothing; anything else is counted and lowers `live_` down to zero; exact counters stay exact for blocks that were out. |
| `InstrumentedPools.InstrumentedPool.MoveAssign` | src/main/cpp/it/d4np/memorypool/instrumented_pool.hpp:140-153 | The replaced pool's observers are told last, its regions go back, and everything of the other is taken over, its pool still valid and its counters still exact; to itself it does nothing. |
| `FuzzHarness.ByteReader.Next` | src/test/cpp/it/d4np/memorypool/pool_fuzz.cpp:73-79 | The next byte, or zero past the end, where the cursor stays. |
| `FuzzHarness.DoAlloc` | src/test/cpp/it/d4np/memorypool/pool_fuzz.cpp:106-120 | No block is vended that the shadow set holds, and the canaries of all the others survive. |
| `FuzzHarness.DoFreeValid` | src/test/cpp/it/d4np/memorypool/pool_fuzz.cpp:125-139 | The canary of the freed block is intact, and those of the others survive. |
| `FuzzHarness.StepOnce` | src/test/cpp/it/d4np/memorypool/pool_fuzz.cpp:177-197 | An allocate opcode takes one block while fewer than 1024 are held and there is one to be had, and otherwise nothing; a free opcode gives back the block its operand picks; the two others change nothing; and after each the live counter is the size of the shadow set. |
| `FuzzHarness.AllocateProgram` | src/test/cpp/it/d4np/memorypool/pool_fuzz.cpp:177-197 | A program of n allocate opcodes over a fixed pool of c blocks makes min(n, c) allocations and n - min(n, c) failures. |
| `FuzzHarness.RunProgram` | src/test/cpp/it/d4np/memorypool/pool_fuzz.cpp:143-208 | For every input, plain or hardened, if the heap grants the pool its storage and `foreign` is the address of another live object: the program ends, every check passes, the counters are exactly what the opcodes come to, and the heap gets everything back. |
| `PoolAdapters.FallbackGuardExact` | src/main/cpp/it/d4np/memorypool/pool_allocator.hpp:156-163 | The guard of the fallback refuses exactly the counts whose bytes do not fit. |
| `PoolAdapters.AllocateFallback` | src/main/cpp/it/d4np/memorypool/pool_allocator.hpp:156-169 | Null exactly if the bytes overflow or the heap refuses; otherwise a region of that size. |
| `PoolAdapters.Allocate` | src/main/cpp/it/d4np/memorypool/pool_allocator.hpp:108-117 | A request for one object, or for storage, no larger than a block and aligned to at most 16 gets a slot, and fails exactly if none is free and the pool cannot grow; one for any other number of objects, a larger or an over-aligned one gets a region of its own, and fails exactly if its bytes overflow or the heap refuses; what is returned has the bytes asked for, and no other loan shares one. |
| `PoolAdapters.LoansServed` | src/main/cpp/it/d4np/memorypool/pool_allocator.hpp:108-169 | Every outstanding request has as many mapped bytes as it asked for, in a slot that is out or in a region that is not the pool's, and no two share a byte. |
| `PoolAdapters.Deallocate` | src/main/cpp/it/d4np/memorypool/pool_memory_resource.hpp:149-155 | What the routing predicate sent somewhere goes back there, and the account stays balanced. |
| `PoolAdapters.RunAdapters` | src/main/cpp/it/d4np/memorypool/pool_memory_resource.hpp:131-168 | Over every run of requests and returns through any adapters of any element types, what is lent is exactly what the requests and returns come to; the slots out of the pool are exactly the outstanding eligible requests, and the other regions added to the heap exactly the rest; each has its bytes to itself. |

## Left out

- The weak memory model: `memory_order` arguments and the formal data races on non-atomic words. Steps are
  single-word and sequentially consistent.
- `::operator new` and `delete`, `std::mutex`, `std::atomic` and the availability of a double-width
  compare-exchange: allocator, lock and compare-exchange steps with their specified effect.
- Alignments above 16 in the adapters' heap fallback: the model's heap aligns every region to 16 and does
  not track more. Upstream resources other than the heap behind `std::pmr::get_default_resource()`.
- MutexGrowth: does not model the link words, which only the lock's holder touches; the list is a
  sequence there, and the sequential engine shows how the words spell it. The size of a growth is any
  positive number that fits. Dynamic pools of the mutex policy are modelled in the plain build only.
- LockFree: payloads are words, not bytes.
- InstrumentedThreads: the event counters are unbounded where the program's wrap at 2^64; blocks are
  counted, not named, since the counters do not tell them apart. The pool underneath is one atomic step.
- PoolLockstep.RunBoth: stops at the first growth that one heap grants and the other refuses.
- PoolAudit.Audit: a write to the link word of a free slot, the freed stamp over a live guard, and a second
  free of a slot whose guard was changed while it was free, are left out of the run and come to nothing; the
  library promises neither to detect nor to survive these.
- MemoryPools.MemoryPool.Free: a double free in the plain build is documented as undefined and is a precondition
  there; so is, in the hardened build, one of a slot whose guard was changed while it was free, since nothing
  else tells the program that it is free.
- Exceptions: a throwing verb is its non-throwing one with a null or false result.
- `Pool` accessors, the `make` factories, `PoolBuilder`, `TypedPool`, adapter equality and rebinding: one-line
  facts.
- The observers' own code, `write_summary`, the default violation handler and the handler slot: input,
  output and process exit. The handler here records and returns.
- The fallback to a fixed pool at the start of the fuzz program: it concerns a library built with the
  lock-free policy, where dynamic pools do not exist.
- The benchmark, the consistency lint, packaging and the other test programs.
