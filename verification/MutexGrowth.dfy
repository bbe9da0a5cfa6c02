/**
 The mutex policy of a dynamic pool, run by any number of threads. Popping, pushing and growing hold
 the lock; the range check of a free walks the chunk list without it, one word at a time, while
 growths write descriptors and link them. Every access to a word the walk reads is one step.
 */
module MutexGrowth {
  import opened Common
  import opened Sizes
  import opened Slots

  const NULL: nat := 0

  /** The first chunk of the pool and the spacing of its slots. Careful clients do not end an object while
      a free of its address is in progress. */
  datatype Config = Config(first: Chunk, stride: size, careful: bool)

  /** What the heap grants a growth: a descriptor, and storage for `count` slots at `base`. */
  datatype Grant = Grant(addr: nat, base: size, count: size)

  /** `live` says whether the block passed to free was the client's to free; `begun` how many chunks were
      linked when the call began, and `seen` how many when the walk read the head of the list. */
  datatype Call = Call(block: size, live: bool, begun: nat, seen: nat)

  datatype Pc =
    | Idle
    | AllocWait
    | AllocLocked
    | GrowBacking(g: Grant)
    | GrowCount(g: Grant)
    | GrowNext(g: Grant)
    | GrowLink(g: Grant)
    | GrowHead(g: Grant)
    | Unlock(result: nat)
    | WalkFirst(call: Call)
    | WalkHead(call: Call)
    | WalkBacking(call: Call, chunk: nat)
    | WalkCount(call: Call, chunk: nat, base: nat)
    | WalkNext(call: Call, chunk: nat)
    | PushWait(call: Call)
    | PushLocked(call: Call)

  datatype Thread = Thread(pc: Pc, owned: set<nat>)

  /** How the range check of a free ended. */
  datatype Verdict = Verdict(call: Call, accepted: bool)

  /** `words` holds the descriptors, three words each: backing, count, next. `chunks` are the chunks
      in the order they were linked and `addrs` where their descriptors are, null for the first.
      `objects` are the addresses of live objects that are not the pool's. `fault` records a read outside the descriptors. */
  datatype State = State(
    words: map<nat, nat>, overflow: nat, free: seq<nat>, lock: Option<nat>, threads: seq<Thread>,
    chunks: seq<Chunk>, addrs: seq<nat>, objects: set<nat>, verdicts: seq<Verdict>, fault: bool)

  datatype Action =
    | BeginAlloc(t: nat)
    | BeginFree(t: nat, block: size)
    | Run(t: nat, grant: Option<Grant>)
    | HandOver(t: nat, to: nat, given: nat)
    | Appear(t: nat, at: nat)
    | Vanish(t: nat, at: nat)

  // ---- The program -------------------------------------------------------------------------

  function SetPc(s: State, t: nat, pc: Pc): (r: State)
    requires t < |s.threads|
    ensures |r.threads| == |s.threads| && OnlyLooks(s, r, t)
  {
    s.(threads := s.threads[t := s.threads[t].(pc := pc)])
  }

  function Store(s: State, a: nat, value: nat): State {
    s.(words := s.words[a := value])
  }

  /** What other threads share did not change, and of the threads at most `t` did. */
  predicate OnlyLooks(s: State, r: State, t: nat)
    requires t < |s.threads| == |r.threads|
  {
    && r.words == s.words && r.overflow == s.overflow && r.chunks == s.chunks && r.addrs == s.addrs
    && r.free == s.free && r.lock == s.lock && r.objects == s.objects && r.threads == s.threads[t := r.threads[t]]
    && r.threads[t].owned == s.threads[t].owned
  }

  function EndWalk(s: State, t: nat, call: Call, accepted: bool): (r: State)
    requires t < |s.threads|
    ensures |r.threads| == |s.threads| && OnlyLooks(s, r, t)
  {
    SetPc(s, t, if accepted then PushWait(call) else Idle)
      .(verdicts := s.verdicts + [Verdict(call, accepted)])
  }

  /** The head of the overflow list, or the next chunk, was read: walk on or give up. */
  function WalkOn(s: State, t: nat, call: Call, chunk: nat): (r: State)
    requires t < |s.threads|
    ensures |r.threads| == |s.threads| && OnlyLooks(s, r, t)
  {
    if chunk == NULL then EndWalk(s, t, call, false) else SetPc(s, t, WalkBacking(call, chunk))
  }

  /** A step of is_block_in_range. */
  function WalkStep(c: Config, s: State, t: nat): (r: State)
    requires t < |s.threads| && c.stride > 0
    ensures |r.threads| == |s.threads| && OnlyLooks(s, r, t)
  {
    match s.threads[t].pc
    case WalkFirst(call) =>
      if InChunk(c, c.first.base, c.first.count, call.block) then EndWalk(s, t, call, true) else SetPc(s, t, WalkHead(call))
    case WalkHead(call) => WalkOn(s, t, call.(seen := |s.chunks|), s.overflow)
    case WalkBacking(call, d) =>
      if d !in s.words then s.(fault := true) else SetPc(s, t, WalkCount(call, d, s.words[d]))
    case WalkCount(call, d, base) =>
      if d + 8 !in s.words then s.(fault := true)
      else if InChunk(c, base, s.words[d + 8], call.block) then EndWalk(s, t, call, true)
      else SetPc(s, t, WalkNext(call, d))
    case WalkNext(call, d) =>
      if d + 16 !in s.words then s.(fault := true) else WalkOn(s, t, call, s.words[d + 16])
    case _ => s
  }

  function InChunk(c: Config, base: nat, count: nat, p: size): bool
    requires c.stride > 0
  {
    base <= SIZE_MAX && count <= SIZE_MAX && BlockInChunk(base, count, c.stride, p)
  }

  ghost function SlotAddrs(stride: nat, ch: Chunk): (r: seq<nat>)
    ensures |r| == ch.count && forall i :: 0 <= i < ch.count ==> r[i] == ch.base + SlotBytes(i, stride)
  {
    seq(ch.count, i requires 0 <= i < ch.count => ch.base + SlotBytes(i, stride))
  }

  /** A step taken with the lock: pop, or grow and then pop; push. The descriptor is filled in, then
      linked, and only then do its slots become the free list. */
  ghost function LockedStep(c: Config, s: State, t: nat, grant: Option<Grant>): (r: State)
    requires t < |s.threads|
    ensures |r.threads| == |s.threads|
  {
    match s.threads[t].pc
    case AllocLocked =>
      if s.free != [] then SetPc(s.(free := s.free[1..]), t, Unlock(s.free[0]))
      else if grant.None? then SetPc(s, t, Unlock(NULL))
      else
        var g := grant.value;
        SetPc(s, t, GrowBacking(g)).(words := s.words[g.addr := 0][g.addr + 8 := 0][g.addr + 16 := 0])
    case GrowBacking(g) => SetPc(Store(s, g.addr, g.base), t, GrowCount(g))
    case GrowCount(g) => SetPc(Store(s, g.addr + 8, g.count), t, GrowNext(g))
    case GrowNext(g) => SetPc(Store(s, g.addr + 16, s.overflow), t, GrowLink(g))
    case GrowLink(g) =>
      SetPc(s, t, GrowHead(g)).(overflow := g.addr, chunks := s.chunks + [Chunk(g.base, g.count)], addrs := s.addrs + [g.addr])
    case GrowHead(g) => SetPc(s.(free := SlotAddrs(c.stride, Chunk(g.base, g.count))), t, AllocLocked)
    case PushLocked(call) => SetPc(s.(free := [call.block] + s.free), t, Unlock(NULL))
    case _ => s
  }

  ghost function Step(c: Config, s: State, t: nat, grant: Option<Grant>): (r: State)
    requires t < |s.threads| && c.stride > 0
    ensures |r.threads| == |s.threads|
  {
    match s.threads[t].pc
    case Idle => s
    case AllocWait => SetPc(s.(lock := Some(t)), t, AllocLocked)
    case PushWait(call) => SetPc(s.(lock := Some(t)), t, PushLocked(call))
    case Unlock(result) =>
      var got := if result == NULL then {} else {result};
      s.(lock := None, threads := s.threads[t := Thread(Idle, s.threads[t].owned + got)])
    case WalkFirst(_) => WalkStep(c, s, t)
    case WalkHead(_) => WalkStep(c, s, t)
    case WalkBacking(_, _) => WalkStep(c, s, t)
    case WalkCount(_, _, _) => WalkStep(c, s, t)
    case WalkNext(_, _) => WalkStep(c, s, t)
    case _ => LockedStep(c, s, t, grant)
  }

  ghost function Next(c: Config, s: State, a: Action): (r: State)
    requires Enabled(c, s, a)
    ensures |r.threads| == |s.threads|
  {
    match a
    case BeginAlloc(t) => SetPc(s, t, AllocWait)
    case BeginFree(t, p) =>
      var live := p in s.threads[t].owned;
      s.(threads := s.threads[t := Thread(WalkFirst(Call(p, live, |s.chunks|, |s.chunks|)), s.threads[t].owned - {p})])
    case Run(t, grant) => Step(c, s, t, grant)
    case HandOver(t, to, p) =>
      var from := s.threads[t].(owned := s.threads[t].owned - {p});
      s.(threads := s.threads[t := from][to := s.threads[to].(owned := s.threads[to].owned + {p})])
    case Appear(_, p) => s.(objects := s.objects + {p})
    case Vanish(_, p) => s.(objects := s.objects - {p})
  }

  /** The chunk a growth in progress was granted. */
  ghost predicate Granted(c: Config, pc: Pc, p: nat) {
    match pc
    case GrowBacking(g) => IsChunkSlot(Chunk(g.base, g.count), c.stride, p)
    case GrowCount(g) => IsChunkSlot(Chunk(g.base, g.count), c.stride, p)
    case GrowNext(g) => IsChunkSlot(Chunk(g.base, g.count), c.stride, p)
    case GrowLink(g) => IsChunkSlot(Chunk(g.base, g.count), c.stride, p)
    case _ => false
  }

  predicate Walking(pc: Pc) {
    pc.WalkFirst? || pc.WalkHead? || pc.WalkBacking? || pc.WalkCount? || pc.WalkNext?
  }

  /** A free of this address, which is no block of the client's, is under way. */
  predicate FreeingObject(pc: Pc, p: nat) {
    Walking(pc) && !pc.call.live && pc.call.block == p
  }

  /** The heap grants fresh descriptors, and storage apart from every chunk and from the live objects that
      are not the pool's. */
  ghost predicate Grantable(c: Config, s: State, g: Grant) {
    && g.addr != NULL && g.addr !in s.words && g.addr + 8 !in s.words && g.addr + 16 !in s.words
    && g.count > 0 && ChunksOk(s.chunks + [Chunk(g.base, g.count)], c.stride)
    && forall p :: p in s.objects ==> !IsChunkSlot(Chunk(g.base, g.count), c.stride, p)
  }

  /** A client frees a block it holds, or passes the address of another live object. Objects come to be
      where nothing of the pool's is. */
  ghost predicate Enabled(c: Config, s: State, a: Action) {
    c.stride > 0 &&
    match a
    case BeginAlloc(t) => t < |s.threads| && s.threads[t].pc == Idle
    case BeginFree(t, p) => t < |s.threads| && s.threads[t].pc == Idle && (p in s.threads[t].owned || p in s.objects)
    case Run(t, grant) =>
      && t < |s.threads|
      && (s.threads[t].pc.AllocWait? || s.threads[t].pc.PushWait? ==> s.lock == None)
      && (s.threads[t].pc.AllocLocked? && grant.Some? ==> Grantable(c, s, grant.value))
    case HandOver(t, to, p) => t < |s.threads| && to < |s.threads| && t != to && p in s.threads[t].owned
    case Appear(t, p) =>
      && t < |s.threads| && s.threads[t].pc == Idle && !IsSlotAddress(s.chunks, c.stride, p)
      && forall u :: 0 <= u < |s.threads| ==> !Granted(c, s.threads[u].pc, p)
    case Vanish(t, p) =>
      && t < |s.threads| && s.threads[t].pc == Idle && p in s.objects
      && (c.careful ==> forall u :: 0 <= u < |s.threads| ==> !FreeingObject(s.threads[u].pc, p))
  }

  ghost function Initial(c: Config, threads: nat): State {
    State(map[], NULL, SlotAddrs(c.stride, c.first), None, seq(threads, i requires 0 <= i < threads => Thread(Idle, {})),
          [c.first], [NULL], {}, [], false)
  }

  ghost predicate Possible(c: Config) {
    ChunksOk([c.first], c.stride) && c.first.count <= SIZE_MAX
  }

  /** The states of a run, each made from the one before by its action. */
  ghost predicate Exec(c: Config, states: seq<State>, actions: seq<Action>) {
    && |states| == |actions| + 1
    && forall i :: 0 <= i < |actions| ==> Enabled(c, states[i], actions[i]) && states[i + 1] == Next(c, states[i], actions[i])
  }
}
