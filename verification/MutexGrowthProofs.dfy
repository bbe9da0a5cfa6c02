/** What every run of the mutex policy with growth keeps. */
module MutexGrowthProofs {
  import opened Common
  import opened Sizes
  import opened Slots
  import opened MutexGrowth

  // ---- The invariant of the walk -----------------------------------------------------------

  ghost predicate Linked(c: Config, s: State, p: nat) {
    IsSlotAddress(s.chunks, c.stride, p)
  }

  /** The descriptor of chunk `k` is complete and will not change. */
  ghost predicate Described(s: State, k: nat)
    requires 1 <= k < |s.chunks| == |s.addrs|
  {
    var a := s.addrs[k];
    && a != NULL && a in s.words && a + 8 in s.words && a + 16 in s.words
    && s.words[a] == s.chunks[k].base && s.words[a + 8] == s.chunks[k].count && s.words[a + 16] == s.addrs[k - 1]
    && s.chunks[k].count <= SIZE_MAX
  }

  ghost predicate ListOk(c: Config, s: State) {
    && ChunksOk(s.chunks, c.stride) && |s.addrs| == |s.chunks| && s.chunks[0] == c.first && c.first.count <= SIZE_MAX
    && s.addrs[0] == NULL && s.overflow == s.addrs[|s.addrs| - 1]
    && forall k {:trigger Described(s, k)} :: 1 <= k < |s.chunks| ==> Described(s, k)
  }

  ghost predicate KeysApart(a: nat, b: nat) {
    && a != b && a != b + 8 && a != b + 16 && a + 8 != b && a + 16 != b && a + 8 != b + 16 && a + 16 != b + 8
  }

  /** A growth in progress: its descriptor is nobody else's, its storage apart from every chunk. */
  ghost predicate Reserved(c: Config, s: State, g: Grant) {
    && g.addr != NULL && g.addr in s.words && g.addr + 8 in s.words && g.addr + 16 in s.words
    && g.count > 0 && ChunksOk(s.chunks + [Chunk(g.base, g.count)], c.stride) && s.free == []
    && (forall p :: p in s.objects ==> !IsChunkSlot(Chunk(g.base, g.count), c.stride, p))
    && forall k {:trigger s.addrs[k]} :: 1 <= k < |s.addrs| ==> KeysApart(s.addrs[k], g.addr)
  }

  ghost predicate Pending(c: Config, s: State, pc: Pc) {
    match pc
    case GrowBacking(g) => Reserved(c, s, g)
    case GrowCount(g) => Reserved(c, s, g) && s.words[g.addr] == g.base
    case GrowNext(g) => Reserved(c, s, g) && s.words[g.addr] == g.base && s.words[g.addr + 8] == g.count
    case GrowLink(g) =>
      && Reserved(c, s, g) && s.words[g.addr] == g.base && s.words[g.addr + 8] == g.count
      && s.words[g.addr + 16] == s.overflow
    case GrowHead(g) => s.free == [] && |s.chunks| >= 2 && s.chunks[|s.chunks| - 1] == Chunk(g.base, g.count)
    case _ => true
  }

  predicate NeedsLock(pc: Pc) {
    match pc
    case Idle => false
    case AllocWait => false
    case PushWait(_) => false
    case AllocLocked => true
    case GrowBacking(_) => true
    case GrowCount(_) => true
    case GrowNext(_) => true
    case GrowLink(_) => true
    case GrowHead(_) => true
    case Unlock(_) => true
    case PushLocked(_) => true
    case _ => false
  }

  /** The walk has passed the first chunk and those linked after chunk `k` that it saw. */
  ghost predicate Passed(c: Config, s: State, call: Call, k: nat) {
    && 1 <= k < call.seen <= |s.chunks| == |s.addrs| && !IsChunkSlot(s.chunks[0], c.stride, call.block)
    && forall j {:trigger s.chunks[j]} :: k < j < call.seen ==> !IsChunkSlot(s.chunks[j], c.stride, call.block)
  }

  ghost predicate At(c: Config, s: State, call: Call, d: nat, k: nat) {
    Passed(c, s, call, k) && d == s.addrs[k]
  }

  /** A block that was the client's was a linked slot when the call began, and an object was not. */
  ghost predicate BegunOk(c: Config, s: State, call: Call) {
    && 1 <= call.begun <= call.seen <= |s.chunks|
    && (call.live <==> IsSlotAddress(s.chunks[..call.begun], c.stride, call.block))
  }

  ghost predicate WalkOk(c: Config, s: State, pc: Pc) {
    match pc
    case WalkFirst(call) => BegunOk(c, s, call)
    case WalkHead(call) => BegunOk(c, s, call) && !IsChunkSlot(s.chunks[0], c.stride, call.block)
    case WalkBacking(call, d) => BegunOk(c, s, call) && exists k: nat :: At(c, s, call, d, k)
    case WalkCount(call, d, base) => BegunOk(c, s, call) && exists k: nat :: At(c, s, call, d, k) && base == s.chunks[k].base
    case WalkNext(call, d) =>
      BegunOk(c, s, call) && exists k: nat :: At(c, s, call, d, k) && !IsChunkSlot(s.chunks[k], c.stride, call.block)
    case PushWait(call) => Linked(c, s, call.block)
    case PushLocked(call) => Linked(c, s, call.block)
    case Unlock(result) => result != NULL ==> Linked(c, s, result)
    case _ => true
  }

  /** A walk accepts exactly the slots of the chunks linked when it read the head of the list. (It may have
      accepted before that, in the first chunk.) A block was the client's exactly if it was a slot of a
      chunk linked when the call began. */
  ghost predicate VerdictOk(c: Config, s: State, v: Verdict) {
    BegunOk(c, s, v.call) && (v.accepted <==> IsSlotAddress(s.chunks[..v.call.seen], c.stride, v.call.block))
  }

  ghost predicate ThreadOk(c: Config, s: State, t: nat)
    requires t < |s.threads|
  {
    && WalkOk(c, s, s.threads[t].pc) && Pending(c, s, s.threads[t].pc)
    && (NeedsLock(s.threads[t].pc) ==> s.lock == Some(t))
    && forall p :: p in s.threads[t].owned ==> Linked(c, s, p)
  }

  /** No object that is not the pool's is where a slot is. */
  ghost predicate ObjectsOk(c: Config, s: State) {
    forall p :: p in s.objects ==> !Linked(c, s, p)
  }

  ghost predicate WalkInv(c: Config, s: State) {
    && ListOk(c, s) && !s.fault && ObjectsOk(c, s)
    && (forall t {:trigger ThreadOk(c, s, t)} :: 0 <= t < |s.threads| ==> ThreadOk(c, s, t))
    && (forall p :: p in s.free ==> Linked(c, s, p))
    && (forall i {:trigger s.verdicts[i]} :: 0 <= i < |s.verdicts| ==> VerdictOk(c, s, s.verdicts[i]))
  }

  // ---- Facts about one state ---------------------------------------------------------------

  lemma InChunkExact(c: Config, ch: Chunk, p: size)
    requires c.stride > 0 && ChunkOk(ch, c.stride) && ch.count <= SIZE_MAX
    ensures InChunk(c, ch.base, ch.count, p) <==> IsChunkSlot(ch, c.stride, p)
  {
    RangeTestExact(ch, c.stride, p);
  }

  lemma ChunkSlotLinked(c: Config, s: State, k: nat, p: nat)
    requires k < |s.chunks| && IsChunkSlot(s.chunks[k], c.stride, p)
    ensures Linked(c, s, p)
  {
    assert InChunkSlots(s.chunks, c.stride, k, p);
    SlotAddressInChunk(s.chunks, c.stride, p);
  }

  /** A walk at its end has looked at every chunk it saw. */
  lemma NotSeen(c: Config, s: State, call: Call)
    requires call.seen <= |s.chunks| && forall j :: 0 <= j < call.seen ==> !IsChunkSlot(s.chunks[j], c.stride, call.block)
    ensures !IsSlotAddress(s.chunks[..call.seen], c.stride, call.block)
  {
    var seen := s.chunks[..call.seen];
    SlotAddressInChunk(seen, c.stride, call.block);
    forall k | 0 <= k < |seen|
      ensures !InChunkSlots(seen, c.stride, k, call.block)
    {
      assert seen[k] == s.chunks[k];
    }
  }

  lemma LinkedLater(chunks: seq<Chunk>, more: seq<Chunk>, stride: nat, p: nat)
    requires chunks <= more && IsSlotAddress(chunks, stride, p)
    ensures IsSlotAddress(more, stride, p)
  {
    AddrStable(chunks, more, stride, SlotAt(chunks, stride, p));
  }

  // ---- What a step does to the list --------------------------------------------------------

  /** Chunks are only ever appended, and linked descriptors keep their words. */
  ghost predicate Grows(s: State, s': State) {
    && s.chunks <= s'.chunks && s.addrs <= s'.addrs && |s.addrs| == |s.chunks| && |s'.addrs| == |s'.chunks|
    && forall k {:trigger s.addrs[k]} :: 1 <= k < |s.addrs| ==> SameWords(s, s', s.addrs[k])
  }

  ghost predicate SameWords(s: State, s': State, a: nat) {
    && (a in s.words ==> a in s'.words && s'.words[a] == s.words[a])
    && (a + 8 in s.words ==> a + 8 in s'.words && s'.words[a + 8] == s.words[a + 8])
    && (a + 16 in s.words ==> a + 16 in s'.words && s'.words[a + 16] == s.words[a + 16])
  }

  /** What other threads know of the list stays true when it grows. */
  lemma WalkKept(c: Config, s: State, s': State, pc: Pc)
    requires WalkOk(c, s, pc) && Grows(s, s')
    ensures WalkOk(c, s', pc)
  {
    match pc {
      case WalkFirst(call) => SeenKept(c, s, s', call);
      case WalkHead(call) => SeenKept(c, s, s', call);
      case WalkBacking(call, d) =>
        SeenKept(c, s, s', call);
        var k: nat :| At(c, s, call, d, k);
        AtKept(c, s, s', call, d, k);
      case WalkCount(call, d, base) =>
        SeenKept(c, s, s', call);
        var k: nat :| At(c, s, call, d, k) && base == s.chunks[k].base;
        AtKept(c, s, s', call, d, k);
      case WalkNext(call, d) =>
        SeenKept(c, s, s', call);
        var k: nat :| At(c, s, call, d, k) && !IsChunkSlot(s.chunks[k], c.stride, call.block);
        AtKept(c, s, s', call, d, k);
      case PushWait(call) => LinkedKept(c, s, s', call.block);
      case PushLocked(call) => LinkedKept(c, s, s', call.block);
      case Unlock(result) => LinkedKept(c, s, s', result);
      case _ =>
    }
  }

  lemma LinkedKept(c: Config, s: State, s': State, p: nat)
    requires Grows(s, s')
    ensures Linked(c, s, p) ==> Linked(c, s', p)
  {
    if Linked(c, s, p) {
      LinkedLater(s.chunks, s'.chunks, c.stride, p);
    }
  }

  lemma SeenKept(c: Config, s: State, s': State, call: Call)
    requires BegunOk(c, s, call) && Grows(s, s')
    ensures BegunOk(c, s', call)
  {
    assert s'.chunks[..call.begun] == s.chunks[..call.begun];
  }

  lemma AtKept(c: Config, s: State, s': State, call: Call, d: nat, k: nat)
    requires At(c, s, call, d, k) && Grows(s, s')
    ensures At(c, s', call, d, k) && s'.chunks[k] == s.chunks[k]
  {
    forall j | k < j < call.seen
      ensures !IsChunkSlot(s'.chunks[j], c.stride, call.block)
    {
      assert s'.chunks[j] == s.chunks[j];
    }
  }

  lemma VerdictKept(c: Config, s: State, s': State, v: Verdict)
    requires VerdictOk(c, s, v) && Grows(s, s')
    ensures VerdictOk(c, s', v)
  {
    SeenKept(c, s, s', v.call);
    assert s'.chunks[..v.call.seen] == s.chunks[..v.call.seen];
  }

  // ---- One step ----------------------------------------------------------------------------

  /** The list did not change and neither did anything a growth in progress relies on. */
  ghost predicate SameList(s: State, s': State) {
    s'.words == s.words && s'.overflow == s.overflow && s'.chunks == s.chunks && s'.addrs == s.addrs
  }

  lemma WordStored(c: Config, s: State, s': State, g: Grant, at: nat, value: nat)
    requires ListOk(c, s) && Reserved(c, s, g) && (at == g.addr || at == g.addr + 8 || at == g.addr + 16)
    requires s'.words == s.words[at := value] && s'.overflow == s.overflow && s'.chunks == s.chunks && s'.addrs == s.addrs
    requires s'.free == s.free && s'.objects == s.objects
    ensures ListOk(c, s') && Grows(s, s') && Reserved(c, s', g)
  {
    forall k | 1 <= k < |s.chunks|
      ensures Described(s', k) && SameWords(s, s', s.addrs[k])
    {
      assert Described(s, k) && KeysApart(s.addrs[k], g.addr);
    }
  }

  lemma DescriptorGranted(c: Config, s: State, s': State, g: Grant)
    requires ListOk(c, s) && Grantable(c, s, g) && s.free == []
    requires s'.words == s.words[g.addr := 0][g.addr + 8 := 0][g.addr + 16 := 0]
    requires s'.overflow == s.overflow && s'.chunks == s.chunks && s'.addrs == s.addrs && s'.free == s.free
    requires s'.objects == s.objects
    ensures ListOk(c, s') && Grows(s, s') && Reserved(c, s', g)
  {
    forall k | 1 <= k < |s.chunks|
      ensures Described(s', k) && SameWords(s, s', s.addrs[k]) && KeysApart(s.addrs[k], g.addr)
    {
      assert Described(s, k);
    }
  }

  lemma ChunkLinkedIn(c: Config, s: State, s': State, g: Grant)
    requires ListOk(c, s) && Pending(c, s, GrowLink(g))
    requires s'.words == s.words && s'.overflow == g.addr && s'.free == s.free
    requires s'.chunks == s.chunks + [Chunk(g.base, g.count)] && s'.addrs == s.addrs + [g.addr]
    ensures ListOk(c, s') && Grows(s, s')
  {
    forall k | 1 <= k < |s'.chunks|
      ensures Described(s', k)
    {
      if k < |s.chunks| {
        assert Described(s, k);
      }
    }
  }

  predicate WritesList(pc: Pc) {
    pc.GrowBacking? || pc.GrowCount? || pc.GrowNext? || pc.GrowLink?
  }

  lemma QuietStep(c: Config, s: State, a: Action)
    requires Enabled(c, s, a)
    requires a.Run? && s.threads[a.t].pc.AllocLocked? ==> s.free != [] || a.grant.None?
    requires a.Run? ==> !WritesList(s.threads[a.t].pc)
    ensures SameList(s, Next(c, s, a))
  {
    hide Grantable;
  }

  /** Whatever step is taken, the list stays a list of complete descriptors, and at most grows. */
  lemma ListStep(c: Config, s: State, a: Action)
    requires WalkInv(c, s) && Enabled(c, s, a)
    ensures ListOk(c, Next(c, s, a)) && Grows(s, Next(c, s, a))
  {
    hide WalkOk, ListOk, VerdictOk, Linked, Described, Grows;
    var s' := Next(c, s, a);
    if a.Run? && s.threads[a.t].pc.AllocLocked? && s.free == [] && a.grant.Some? {
      DescriptorGranted(c, s, s', a.grant.value);
    } else if a.Run? && WritesList(s.threads[a.t].pc) {
      assert ThreadOk(c, s, a.t);
      WriterStep(c, s, a.t, a.grant);
    } else {
      QuietStep(c, s, a);
      SameListOk(c, s, s');
    }
  }

  lemma WriterStep(c: Config, s: State, t: nat, grant: Option<Grant>)
    requires ListOk(c, s) && t < |s.threads| && c.stride > 0 && Pending(c, s, s.threads[t].pc) && WritesList(s.threads[t].pc)
    ensures var s' := LockedStep(c, s, t, grant);
      ListOk(c, s') && Grows(s, s') && Pending(c, s', s'.threads[t].pc) && s'.lock == s.lock
  {
    hide ListOk, Grows, ChunksOk;
    var s' := LockedStep(c, s, t, grant);
    match s.threads[t].pc {
      case GrowBacking(g) => WordStored(c, s, s', g, g.addr, g.base);
      case GrowCount(g) => WordStored(c, s, s', g, g.addr + 8, g.count);
      case GrowNext(g) => WordStored(c, s, s', g, g.addr + 16, s.overflow);
      case GrowLink(g) =>
        ChunkLinkedIn(c, s, s', g);
        assert Pending(c, s', GrowHead(g)) by { NotEmpty(c, s); }
    }
  }

  lemma NotEmpty(c: Config, s: State)
    requires ListOk(c, s)
    ensures |s.chunks| >= 1
  {
  }

  lemma SameListOk(c: Config, s: State, s': State)
    requires ListOk(c, s) && SameList(s, s')
    ensures ListOk(c, s') && Grows(s, s')
  {
    forall k | 1 <= k < |s.chunks|
      ensures Described(s', k)
    {
      assert Described(s, k);
    }
  }

  // ---- The walk ----------------------------------------------------------------------------

  /** A step of the walk is sound: no wild read, and if it ends, the right verdict. */
  ghost predicate Walked(c: Config, s: State, s': State, t: nat)
    requires t < |s.threads| == |s'.threads|
  {
    && s'.fault == s.fault && WalkOk(c, s', s'.threads[t].pc) && !NeedsLock(s'.threads[t].pc)
    && (s'.verdicts == s.verdicts
        || exists v :: s'.verdicts == s.verdicts + [v] && VerdictOk(c, s', v))
  }

  lemma Accepted(c: Config, s: State, t: nat, call: Call, k: nat)
    requires t < |s.threads| && BegunOk(c, s, call) && k < call.seen && IsChunkSlot(s.chunks[k], c.stride, call.block)
    ensures Walked(c, s, EndWalk(s, t, call, true), t)
  {
    ChunkSlotLinked(c, s, k, call.block);
    var seen := s.chunks[..call.seen];
    assert InChunkSlots(seen, c.stride, k, call.block);
    SlotAddressInChunk(seen, c.stride, call.block);
    assert VerdictOk(c, EndWalk(s, t, call, true), Verdict(call, true));
  }

  lemma Rejected(c: Config, s: State, t: nat, call: Call)
    requires t < |s.threads| && BegunOk(c, s, call)
    requires forall j :: 0 <= j < call.seen ==> !IsChunkSlot(s.chunks[j], c.stride, call.block)
    ensures Walked(c, s, EndWalk(s, t, call, false), t)
  {
    NotSeen(c, s, call);
    assert VerdictOk(c, EndWalk(s, t, call, false), Verdict(call, false));
  }

  /** Moving to the chunk before chunk `k`, or past the last one. */
  lemma MovedOn(c: Config, s: State, t: nat, call: Call, k: nat)
    requires ListOk(c, s) && t < |s.threads| && BegunOk(c, s, call) && 1 <= k <= call.seen <= |s.chunks|
    requires !IsChunkSlot(s.chunks[0], c.stride, call.block)
    requires forall j :: k <= j < call.seen ==> !IsChunkSlot(s.chunks[j], c.stride, call.block)
    ensures Walked(c, s, WalkOn(s, t, call, s.addrs[k - 1]), t)
  {
    if k == 1 {
      Rejected(c, s, t, call);
    } else {
      assert Described(s, k - 1);
      assert At(c, s, call, s.addrs[k - 1], k - 1);
      assert BegunOk(c, WalkOn(s, t, call, s.addrs[k - 1]), call);
      assert At(c, WalkOn(s, t, call, s.addrs[k - 1]), call, s.addrs[k - 1], k - 1);
    }
  }

  lemma FirstStep(c: Config, s: State, t: nat, call: Call)
    requires ListOk(c, s) && t < |s.threads| && s.threads[t].pc == WalkFirst(call) && WalkOk(c, s, s.threads[t].pc)
    ensures Walked(c, s, WalkStep(c, s, t), t)
  {
    assert ChunkOk(s.chunks[0], c.stride);
    InChunkExact(c, c.first, call.block);
    if IsChunkSlot(c.first, c.stride, call.block) {
      Accepted(c, s, t, call, 0);
    }
  }

  lemma HeadStep(c: Config, s: State, t: nat, call: Call)
    requires ListOk(c, s) && t < |s.threads| && s.threads[t].pc == WalkHead(call) && WalkOk(c, s, s.threads[t].pc)
    ensures Walked(c, s, WalkStep(c, s, t), t)
  {
    var n := |s.chunks|;
    var call' := call.(seen := n);
    assert s.chunks[..n] == s.chunks;
    MovedOn(c, s, t, call', n);
  }

  lemma BackingStep(c: Config, s: State, t: nat, call: Call, d: nat)
    requires ListOk(c, s) && t < |s.threads| && s.threads[t].pc == WalkBacking(call, d) && WalkOk(c, s, s.threads[t].pc)
    ensures Walked(c, s, WalkStep(c, s, t), t)
  {
    var k: nat :| At(c, s, call, d, k);
    assert Described(s, k);
    var s' := WalkStep(c, s, t);
    assert BegunOk(c, s', call) && At(c, s', call, d, k);
  }

  lemma CountStep(c: Config, s: State, t: nat, call: Call, d: nat, base: nat)
    requires ListOk(c, s) && t < |s.threads| && s.threads[t].pc == WalkCount(call, d, base) && WalkOk(c, s, s.threads[t].pc)
    ensures Walked(c, s, WalkStep(c, s, t), t)
  {
    var k: nat :| At(c, s, call, d, k) && base == s.chunks[k].base;
    assert Described(s, k) && ChunkOk(s.chunks[k], c.stride);
    InChunkExact(c, s.chunks[k], call.block);
    if IsChunkSlot(s.chunks[k], c.stride, call.block) {
      Accepted(c, s, t, call, k);
    } else {
      var s' := WalkStep(c, s, t);
      assert BegunOk(c, s', call) && At(c, s', call, d, k);
    }
  }

  lemma NextStep(c: Config, s: State, t: nat, call: Call, d: nat)
    requires ListOk(c, s) && t < |s.threads| && s.threads[t].pc == WalkNext(call, d) && WalkOk(c, s, s.threads[t].pc)
    ensures Walked(c, s, WalkStep(c, s, t), t)
  {
    var k: nat :| At(c, s, call, d, k) && !IsChunkSlot(s.chunks[k], c.stride, call.block);
    assert Described(s, k);
    MovedOn(c, s, t, call, k);
  }

  lemma WalkStepOk(c: Config, s: State, t: nat)
    requires ListOk(c, s) && t < |s.threads| && WalkOk(c, s, s.threads[t].pc) && Walking(s.threads[t].pc)
    ensures Walked(c, s, WalkStep(c, s, t), t)
  {
    match s.threads[t].pc {
      case WalkFirst(call) => FirstStep(c, s, t, call);
      case WalkHead(call) => HeadStep(c, s, t, call);
      case WalkBacking(call, d) => BackingStep(c, s, t, call, d);
      case WalkCount(call, d, base) => CountStep(c, s, t, call, d, base);
      case WalkNext(call, d) => NextStep(c, s, t, call, d);
    }
  }

  // ---- Objects that are not the pool's -----------------------------------------------------

  /** A slot of the longer list is an old slot or one of the last chunk's, and never both. */
  lemma NewOrOld(chunks: seq<Chunk>, stride: nat, ch: Chunk, p: nat)
    requires ChunksOk(chunks + [ch], stride) && chunks != []
    ensures IsSlotAddress(chunks + [ch], stride, p) <==> IsSlotAddress(chunks, stride, p) || IsChunkSlot(ch, stride, p)
    ensures !(IsSlotAddress(chunks, stride, p) && IsChunkSlot(ch, stride, p))
  {
    var more := chunks + [ch];
    if IsSlotAddress(more, stride, p) {
      var s := SlotAt(more, stride, p);
      if s.chunk < |chunks| {
        assert IsSlot(chunks, s) && Addr(chunks, stride, s) == p;
      }
    }
    if IsSlotAddress(chunks, stride, p) {
      var s := SlotAt(chunks, stride, p);
      AddrStable(chunks, more, stride, s);
      if IsChunkSlot(ch, stride, p) {
        var i :| 0 <= i < ch.count && p == ch.base + SlotBytes(i, stride);
        SlotAddressUnique(more, stride, s, Slot(|chunks|, i));
      }
    }
    if IsChunkSlot(ch, stride, p) {
      var i :| 0 <= i < ch.count && p == ch.base + SlotBytes(i, stride);
      assert IsSlot(more, Slot(|chunks|, i)) && Addr(more, stride, Slot(|chunks|, i)) == p;
    }
  }

  /** Only linking a chunk makes new slots, and none of them is an object that is not the pool's. */
  lemma ObjectsStep(c: Config, s: State, a: Action)
    requires WalkInv(c, s) && Enabled(c, s, a)
    ensures ObjectsOk(c, Next(c, s, a))
  {
    hide ListOk, VerdictOk, ChunksOk, WalkOk;
    var s' := Next(c, s, a);
    if a.Run? && s.threads[a.t].pc.GrowLink? {
      assert ThreadOk(c, s, a.t);
      var g := s.threads[a.t].pc.g;
      forall p | p in s.objects
        ensures !Linked(c, s', p)
      {
        assert s.chunks != [] by { ListNotEmpty(c, s); }
        NewOrOld(s.chunks, c.stride, Chunk(g.base, g.count), p);
      }
    } else {
      ChunksStay(c, s, a);
    }
  }

  lemma ListNotEmpty(c: Config, s: State)
    requires WalkInv(c, s)
    ensures s.chunks != [] && ChunksOk(s.chunks, c.stride)
  {
  }

  lemma ChunksStay(c: Config, s: State, a: Action)
    requires Enabled(c, s, a) && (a.Run? ==> !s.threads[a.t].pc.GrowLink?)
    ensures Next(c, s, a).chunks == s.chunks
  {
    hide Grantable;
  }

  // ---- Threads -----------------------------------------------------------------------------

  /** A thread without the lock changes nothing the lock protects while another thread holds it. */
  lemma OutsideLock(c: Config, s: State, a: Action)
    requires Enabled(c, s, a) && s.lock.Some? && (a.Run? ==> !NeedsLock(s.threads[a.t].pc))
    ensures var s' := Next(c, s, a);
      && SameList(s, s') && s'.free == s.free && s'.lock == s.lock
      && forall p :: p in s'.objects ==> p in s.objects || (a.Appear? && p == a.at)
  {
  }

  /** A growth in progress only depends on what the lock protects, and on new objects keeping off it. */
  lemma PendingKept(c: Config, s: State, s': State, pc: Pc)
    requires Pending(c, s, pc) && SameList(s, s') && s'.free == s.free
    requires forall p :: p in s'.objects && p !in s.objects ==> !Granted(c, pc, p)
    ensures Pending(c, s', pc)
  {
  }

  lemma NothingPending(c: Config, s: State, pc: Pc)
    requires !NeedsLock(pc)
    ensures Pending(c, s, pc)
  {
  }

  lemma BystanderOk(c: Config, s: State, a: Action, u: nat)
    requires WalkInv(c, s) && Enabled(c, s, a) && u < |s.threads| && u != a.t
    requires Next(c, s, a).threads[u].pc == s.threads[u].pc && Grows(s, Next(c, s, a))
    requires forall p :: p in Next(c, s, a).threads[u].owned ==> Linked(c, s, p)
    ensures ThreadOk(c, Next(c, s, a), u)
  {
    hide WalkOk, ListOk, Linked, Grows, Next, VerdictOk, Reserved, Step;
    var s' := Next(c, s, a);
    assert ThreadOk(c, s, u);
    WalkKept(c, s, s', s.threads[u].pc);
    if NeedsLock(s.threads[u].pc) {
      if a.Run? {
        assert ThreadOk(c, s, a.t);
      }
      OutsideLock(c, s, a);
      PendingKept(c, s, s', s.threads[u].pc);
    } else {
      NothingPending(c, s', s.threads[u].pc);
    }
    forall p | p in s'.threads[u].owned
      ensures Linked(c, s', p)
    {
      LinkedKept(c, s, s', p);
    }
  }

  lemma OwnedKept(c: Config, s: State, s': State, owned: set<nat>)
    requires Grows(s, s') && forall p :: p in owned ==> Linked(c, s, p)
    ensures forall p :: p in owned ==> Linked(c, s', p)
  {
    forall p | p in owned
      ensures Linked(c, s', p)
    {
      LinkedKept(c, s, s', p);
    }
  }

  lemma LastSlotsLinked(c: Config, s: State)
    requires s.chunks != []
    ensures forall p :: p in SlotAddrs(c.stride, s.chunks[|s.chunks| - 1]) ==> Linked(c, s, p)
  {
    var k := |s.chunks| - 1;
    var slots := SlotAddrs(c.stride, s.chunks[k]);
    forall p | p in slots
      ensures Linked(c, s, p)
    {
      var i :| 0 <= i < |slots| && slots[i] == p;
      ChunkSlotLinked(c, s, k, p);
    }
  }

  /** The step of a thread that takes, holds or gives up the lock. */
  lemma LockerOk(c: Config, s: State, t: nat, grant: Option<Grant>)
    requires WalkInv(c, s) && Enabled(c, s, Run(t, grant)) && !Walking(s.threads[t].pc) && Grows(s, Step(c, s, t, grant))
    ensures var s' := Step(c, s, t, grant);
      ThreadOk(c, s', t) && s'.verdicts == s.verdicts && s'.fault == s.fault
    ensures forall p :: p in Step(c, s, t, grant).free ==> Linked(c, s, p)
  {
    hide ListOk, Linked, VerdictOk, Grows, ChunksOk, BegunOk, At, Reserved, Grantable;
    var s', pc := Step(c, s, t, grant), s.threads[t].pc;
    assert ThreadOk(c, s, t);
    OwnedKept(c, s, s', s.threads[t].owned);
    if pc.AllocLocked? {
      AllocOk(c, s, t, grant);
    } else if WritesList(pc) {
      WriterStep(c, s, t, grant);
    } else if pc.GrowHead? {
      LastSlotsLinked(c, s);
    } else if pc.Unlock? {
      LinkedKept(c, s, s', pc.result);
    } else if pc.PushWait? || pc.PushLocked? {
      LinkedKept(c, s, s', pc.call.block);
    }
  }

  lemma AllocOk(c: Config, s: State, t: nat, grant: Option<Grant>)
    requires WalkInv(c, s) && Enabled(c, s, Run(t, grant)) && s.threads[t].pc == AllocLocked && Grows(s, Step(c, s, t, grant))
    ensures var s' := Step(c, s, t, grant);
      && WalkOk(c, s', s'.threads[t].pc) && Pending(c, s', s'.threads[t].pc) && s'.lock == Some(t)
      && s'.verdicts == s.verdicts && s'.fault == s.fault && s'.threads[t].owned == s.threads[t].owned
      && forall p :: p in s'.free ==> Linked(c, s, p)
  {
    hide ListOk, Linked, VerdictOk, Grows, ChunksOk, BegunOk, At, Reserved, Grantable;
    var s' := Step(c, s, t, grant);
    assert ThreadOk(c, s, t);
    if s.free != [] {
      assert s.free[0] in s.free;
      LinkedKept(c, s, s', s.free[0]);
    } else if grant.Some? {
      DescriptorGranted(c, s, s', grant.value);
    }
  }

  lemma FreeBegins(c: Config, s: State, s': State, t: nat, p: size)
    requires WalkInv(c, s) && t < |s.threads| && (p in s.threads[t].owned || p in s.objects) && s'.chunks == s.chunks
    ensures BegunOk(c, s', Call(p, p in s.threads[t].owned, |s.chunks|, |s.chunks|))
  {
    assert ThreadOk(c, s, t);
    assert s.chunks[..|s.chunks|] == s.chunks;
  }

  /** A client begins a call, hands a block to another thread, or makes or ends an object. */
  lemma ClientOk(c: Config, s: State, a: Action)
    requires WalkInv(c, s) && Enabled(c, s, a) && !a.Run? && Grows(s, Next(c, s, a))
    ensures ThreadOk(c, Next(c, s, a), a.t)
    ensures a.HandOver? ==> ThreadOk(c, Next(c, s, a), a.to)
  {
    hide ListOk, Linked, VerdictOk, Grows, Reserved, BegunOk, At;
    var s' := Next(c, s, a);
    assert ThreadOk(c, s, a.t);
    OwnedKept(c, s, s', s.threads[a.t].owned);
    if a.BeginFree? {
      FreeBegins(c, s, s', a.t, a.block);
    } else if a.HandOver? {
      assert ThreadOk(c, s, a.to);
      OwnedKept(c, s, s', s.threads[a.to].owned);
      WalkKept(c, s, s', s.threads[a.t].pc);
      WalkKept(c, s, s', s.threads[a.to].pc);
      PendingKept(c, s, s', s.threads[a.t].pc);
      PendingKept(c, s, s', s.threads[a.to].pc);
    }
  }

  lemma MoverOk(c: Config, s: State, a: Action)
    requires WalkInv(c, s) && Enabled(c, s, a) && Grows(s, Next(c, s, a))
    ensures var s' := Next(c, s, a);
      && ThreadOk(c, s', a.t) && !s'.fault && (forall p :: p in s'.free ==> Linked(c, s, p))
      && (s'.verdicts == s.verdicts || exists v :: s'.verdicts == s.verdicts + [v] && VerdictOk(c, s', v))
  {
    hide ListOk, Linked, VerdictOk, Grows, Reserved, BegunOk, At;
    if a.Run? && Walking(s.threads[a.t].pc) {
      assert ThreadOk(c, s, a.t);
      WalkStepOk(c, s, a.t);
      var s' := Next(c, s, a);
      OwnedKept(c, s, s', s.threads[a.t].owned);
      NothingPending(c, s', s'.threads[a.t].pc);
    } else if a.Run? {
      LockerOk(c, s, a.t, a.grant);
    } else {
      ClientOk(c, s, a);
    }
  }

  lemma VerdictsKept(c: Config, s: State, s': State)
    requires Grows(s, s') && forall i {:trigger s.verdicts[i]} :: 0 <= i < |s.verdicts| ==> VerdictOk(c, s, s.verdicts[i])
    requires s'.verdicts == s.verdicts || exists v :: s'.verdicts == s.verdicts + [v] && VerdictOk(c, s', v)
    ensures forall i {:trigger s'.verdicts[i]} :: 0 <= i < |s'.verdicts| ==> VerdictOk(c, s', s'.verdicts[i])
  {
    hide VerdictOk, Grows;
    forall i | 0 <= i < |s'.verdicts|
      ensures VerdictOk(c, s', s'.verdicts[i])
    {
      if i < |s.verdicts| {
        assert s'.verdicts[i] == s.verdicts[i];
        VerdictKept(c, s, s', s.verdicts[i]);
      }
    }
  }

  lemma OtherUnmoved(c: Config, s: State, a: Action, u: nat)
    requires Enabled(c, s, a) && u < |s.threads| && u != a.t && (a.HandOver? ==> u != a.to)
    ensures Next(c, s, a).threads[u] == s.threads[u]
  {
    hide Grantable;
  }

  /** Every step keeps the invariant of the walk. */
  lemma WalkInvStep(c: Config, s: State, a: Action)
    requires WalkInv(c, s) && Enabled(c, s, a)
    ensures WalkInv(c, Next(c, s, a))
  {
    hide ListOk, Linked, VerdictOk, Grows, Next, Enabled;
    var s' := Next(c, s, a);
    assert a.t < |s.threads| by { MoverExists(c, s, a); }
    ListStep(c, s, a);
    ObjectsStep(c, s, a);
    MoverOk(c, s, a);
    VerdictsKept(c, s, s');
    forall u | 0 <= u < |s'.threads|
      ensures ThreadOk(c, s', u)
    {
      if u != a.t && (a.HandOver? ==> u != a.to) {
        OtherUnmoved(c, s, a, u);
        assert ThreadOk(c, s, u);
        BystanderOk(c, s, a, u);
      } else if u != a.t {
        ClientOk(c, s, a);
      }
    }
    forall p | p in s'.free
      ensures Linked(c, s', p)
    {
      LinkedKept(c, s, s', p);
    }
  }

  lemma MoverExists(c: Config, s: State, a: Action)
    requires Enabled(c, s, a)
    ensures a.t < |s.threads|
  {
  }

  lemma InitialWalkInv(c: Config, n: nat)
    requires Possible(c)
    ensures WalkInv(c, Initial(c, n))
  {
    var s := Initial(c, n);
    LastSlotsLinked(c, s);
    forall t | 0 <= t < n
      ensures ThreadOk(c, s, t)
    {
      assert s.threads[t] == Thread(Idle, {});
    }
  }

  lemma {:induction false} WalkInvRun(c: Config, states: seq<State>, actions: seq<Action>, k: nat)
    requires Exec(c, states, actions) && k < |states| && WalkInv(c, states[0])
    ensures WalkInv(c, states[k])
    decreases k
  {
    hide WalkInv, Enabled, Next;
    if k > 0 {
      WalkInvRun(c, states, actions, k - 1);
      assert Enabled(c, states[k - 1], actions[k - 1]);
      WalkInvStep(c, states[k - 1], actions[k - 1]);
    }
  }

  /** In every run, whatever growths the heap grants, whatever objects come and go, and however the steps
      interleave: the range check of a free accepts exactly the slots of the chunks that were linked when it
      read the head of the list, and the block was the client's exactly if it was a slot of a chunk linked
      when the call began. So a block that was the client's is always accepted, and another address exactly
      if a chunk linked in between has a slot there. */
  lemma RangeCheckSound(c: Config, n: nat, states: seq<State>, actions: seq<Action>, k: nat, v: Verdict)
    requires Possible(c) && Exec(c, states, actions) && states[0] == Initial(c, n) && k < |states| && v in states[k].verdicts
    ensures VerdictOk(c, states[k], v) && !states[k].fault
    ensures var chunks, call := states[k].chunks, v.call;
      && call.begun <= call.seen <= |chunks|
      && (call.live ==> v.accepted)
      && (!call.live ==> !IsSlotAddress(chunks[..call.begun], c.stride, call.block))
      && (v.accepted <==> IsSlotAddress(chunks[..call.seen], c.stride, call.block))
  {
    InitialWalkInv(c, n);
    WalkInvRun(c, states, actions, k);
    var i :| 0 <= i < |states[k].verdicts| && states[k].verdicts[i] == v;
    if v.call.live {
      var chunks := states[k].chunks;
      assert chunks[..v.call.begun] <= chunks[..v.call.seen];
      LinkedLater(chunks[..v.call.begun], chunks[..v.call.seen], c.stride, v.call.block);
    }
  }
}
