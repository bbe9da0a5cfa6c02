/** The hardened build refines the plain one: for correct clients both vend the same slots. */
module PoolLockstep {
  import opened Common
  import opened Sizes
  import opened Words
  import opened Memory
  import opened Slots
  import opened PoolImages
  import opened MemoryPools
  import opened PoolClients
  import opened BlockContents

  /** What a correct client does: allocate, give back one of the blocks it holds, or write a byte into
      one. */
  datatype Step = Get | Put(k: nat) | Set(k: nat, offset: nat, b: byte)

  // ---- The script --------------------------------------------------------------------------

  /** The course of one pool under a script: what the client was vended so far, what of that it holds, and
      the bytes it wrote there. */
  datatype Course = Course(image: Image, vended: seq<Slot>, held: seq<Slot>, data: Data)

  function Without<T>(s: seq<T>, k: nat): seq<T>
    requires k < |s|
  {
    s[..k] + s[k + 1..]
  }

  /** One step: a get pops what the pool is ready to vend, if anything; a put prepends the slot; a set
      is nothing to the pool, but the byte is in the block from then on. */
  ghost function Turn(k: Terms, blockSize: nat, c: Course, step: Step): Course {
    match step
    case Get =>
      var ready := PrimedImage(k, c.image).free;
      if ready == [] then c.(image := PoppedImage(k, c.image))
      else Course(PoppedImage(k, c.image), c.vended + [ready[0]], c.held + [ready[0]], c.data)
    case Put(i) =>
      if i < |c.held|
      then Course(c.image.(free := [c.held[i]] + c.image.free), c.vended, Without(c.held, i), Emptied(c.data, c.held[i]))
      else c
    case Set(i, offset, b) =>
      if i < |c.held| && offset < blockSize then c.(data := c.data[Cell(c.held[i], offset) := b]) else c
  }

  /** The course of the first `n` steps. */
  ghost function Played(k: Terms, blockSize: nat, c: Course, steps: seq<Step>, n: nat): Course
    requires n <= |steps|
  {
    if n == 0 then c else Turn(k, blockSize, Played(k, blockSize, c, steps, n - 1), steps[n - 1])
  }

  /** A plain and a hardened pool, on heaps of their own, with the same chunks counts, the same free
      slots in the same order, and nothing to report. */
  ghost predicate Alike(plain: MemoryPool, hard: MemoryPool)
    reads plain, plain.heap, hard, hard.heap
  {
    && plain.Valid() && hard.Valid() && !plain.hardened && hard.hardened && plain.heap != hard.heap
    && plain.blockSize == hard.blockSize && plain.growFactor == hard.growFactor
    && plain.Now() == hard.Now() && hard.tainted == {} == hard.stomped
  }

  /** `p` and `q` are the addresses of slot `s` in either pool. */
  ghost predicate SameSlot(plain: MemoryPool, hard: MemoryPool, p: nat, q: nat, s: Slot)
    reads plain, hard
  {
    IsSlot(plain.chunks, s) && p == plain.AddrOf(s) && IsSlot(hard.chunks, s) && q == hard.AddrOf(s)
  }

  ghost predicate Held(plain: MemoryPool, hard: MemoryPool, p: nat, q: nat, s: Slot)
    reads plain, hard
  {
    SameSlot(plain, hard, p, q, s) && s !in plain.free
  }

  /** Both pools allocate. Unless just one of the heaps refused a growth, they vend the same slot. */
  method GetBoth(plain: MemoryPool, hard: MemoryPool, ghost data: Data) returns (p: nat, q: nat)
    requires Alike(plain, hard) && Retained(plain, data) && Retained(hard, data)
    modifies plain, plain.heap, hard, hard.heap
    ensures hard.reports == old(hard.reports) && plain.reports == old(plain.reports)
    ensures (p == 0) == (q == 0) ==> Alike(plain, hard)
    ensures p == 0 && q == 0 ==> plain.Unchanged() && hard.Unchanged()
    ensures old(plain.free) != [] ==> p != 0 && q != 0
    ensures var ready := Ready(old(plain.Now()), old(plain.growFactor));
      p != 0 && q != 0 ==> ready.free != [] && SameSlot(plain, hard, p, q, ready.free[0]) && plain.free == ready.free[1..]
    ensures old(plain.chunks) <= plain.chunks && old(hard.chunks) <= hard.chunks
    ensures plain.Terms() == old(plain.Terms()) && plain.Image() == PoppedImage(plain.Terms(), old(plain.Image()))
    ensures hard.Terms() == old(hard.Terms()) && hard.Image() == PoppedImage(hard.Terms(), old(hard.Image()))
    ensures p == 0 <==> PrimedImage(plain.Terms(), old(plain.Image())).free == []
    ensures q == 0 <==> PrimedImage(hard.Terms(), old(hard.Image())).free == []
    ensures Retained(plain, data) && Retained(hard, data)
  {
    hide MemoryPool.Valid, PrimedImage, PoppedImage, VendedAddress, GrownImage, KeptBut, MemoryPool.CanGrow, Retains;
    p := Vend(plain, data);
    q := Vend(hard, data);
  }

  /** The view decides what an address stands for: a block that is out may be freed. */
  lemma Holding(pool: MemoryPool, p: nat, s: Slot)
    requires pool.Valid() && IsSlot(pool.chunks, s) && p == pool.AddrOf(s) && s !in pool.free
    ensures IsSlotAddress(pool.chunks, pool.Stride(), p) && SlotAt(pool.chunks, pool.Stride(), p) == s
    ensures pool.MayFree(p) && 0 < p <= SIZE_MAX
  {
    SlotAddressUnique(pool.chunks, pool.Stride(), s, SlotAt(pool.chunks, pool.Stride(), p));
    SlotInChunk(pool.chunks, pool.Stride(), s);
  }

  method PutBoth(plain: MemoryPool, hard: MemoryPool, p: size, q: size, ghost s: Slot)
    requires Alike(plain, hard) && Held(plain, hard, p, q, s)
    modifies plain, plain.heap, hard, hard.heap
    ensures hard.reports == old(hard.reports) && plain.reports == old(plain.reports)
    ensures Alike(plain, hard) && plain.free == [s] + old(plain.free)
    ensures plain.Terms() == old(plain.Terms()) && plain.Image() == old(plain.Image()).(free := [s] + old(plain.free))
    ensures hard.Terms() == old(hard.Terms()) && hard.Image() == old(hard.Image()).(free := [s] + old(hard.free))
    ensures OnlyBytes(old(plain.heap.mem), plain.heap.mem, p, plain.Stride())
    ensures OnlyBytes(old(hard.heap.mem), hard.heap.mem, q, hard.Stride())
  {
    hide MemoryPool.Valid;
    Holding(plain, p, s);
    Holding(hard, q, s);
    MemoryPool.Free(plain, p);
    MemoryPool.Free(hard, q);
  }

  method SetBoth(plain: MemoryPool, hard: MemoryPool, p: nat, q: nat, offset: nat, b: byte, ghost s: Slot)
    requires Alike(plain, hard) && Held(plain, hard, p, q, s) && offset < plain.blockSize
    modifies plain.heap`mem, hard.heap`mem
    ensures Alike(plain, hard)
    ensures plain.heap.mem == old(plain.heap.mem)[p + offset := b] && hard.heap.mem == old(hard.heap.mem)[q + offset := b]
  {
    hide MemoryPool.Valid;
    WriteLive(plain, s, p + offset, b);
    WriteLive(hard, s, q + offset, b);
  }

  // ---- What a client holds -----------------------------------------------------------------

  ghost predicate SameIn(cp: seq<Chunk>, sp: nat, cq: seq<Chunk>, sq: nat, p: nat, q: nat, s: Slot) {
    IsSlot(cp, s) && p == Addr(cp, sp, s) && IsSlot(cq, s) && q == Addr(cq, sq, s)
  }

  /** `ps` and `qs` are the addresses of `slots` in either pool. */
  ghost predicate AllSame(cp: seq<Chunk>, sp: nat, cq: seq<Chunk>, sq: nat, ps: seq<nat>, qs: seq<nat>, slots: seq<Slot>) {
    && |ps| == |qs| == |slots|
    && forall k {:trigger SameIn(cp, sp, cq, sq, ps[k], qs[k], slots[k])} :: 0 <= k < |slots| ==>
         SameIn(cp, sp, cq, sq, ps[k], qs[k], slots[k])
  }

  ghost predicate Same(plain: MemoryPool, hard: MemoryPool, ps: seq<nat>, qs: seq<nat>, slots: seq<Slot>)
    reads plain, hard
  {
    AllSame(plain.chunks, plain.Stride(), hard.chunks, hard.Stride(), ps, qs, slots)
  }

  /** The slots a client holds are different and none is free. */
  ghost predicate Out(slots: seq<Slot>, free: seq<Slot>) {
    NoDup(slots) && NoDup(free) && forall s :: s in slots ==> s !in free
  }

  lemma SameLater(cp: seq<Chunk>, sp: nat, cq: seq<Chunk>, sq: nat, ps: seq<nat>, qs: seq<nat>, slots: seq<Slot>,
                  cp': seq<Chunk>, cq': seq<Chunk>)
    requires AllSame(cp, sp, cq, sq, ps, qs, slots) && cp <= cp' && cq <= cq'
    ensures AllSame(cp', sp, cq', sq, ps, qs, slots) && AllSlots(cp, slots)
  {
    forall k | 0 <= k < |slots|
      ensures SameIn(cp', sp, cq', sq, ps[k], qs[k], slots[k]) && IsSlot(cp, slots[k])
    {
      assert SameIn(cp, sp, cq, sq, ps[k], qs[k], slots[k]);
    }
  }

  /** The slot vended next is none of those held, and it is not on the list any more. */
  lemma OutMore(slots: seq<Slot>, v: View, chunks: seq<Chunk>, factor: nat)
    requires Out(slots, v.free) && AllSlots(chunks, slots) && v.counts == Counts(chunks)
    requires Ready(v, factor).free != []
    ensures var ready := Ready(v, factor).free; Out(slots + [ready[0]], ready[1..])
  {
    var ready := Ready(v, factor).free;
    forall s | s in slots
      ensures s !in ready
    {
      var k :| 0 <= k < |slots| && slots[k] == s;
      assert IsSlot(chunks, slots[k]);
    }
    assert NoDup(ready);
    OutMoved(slots, ready);
  }

  lemma OutMoved(slots: seq<Slot>, ready: seq<Slot>)
    requires NoDup(slots) && NoDup(ready) && ready != [] && forall s :: s in slots ==> s !in ready
    ensures Out(slots + [ready[0]], ready[1..])
  {
    var more := slots + [ready[0]];
    forall i, j | 0 <= i < j < |more|
      ensures more[i] != more[j]
    {
      assert i < |slots| ==> more[i] in slots;
    }
    forall s | s in ready[1..]
      ensures s in ready && s != ready[0]
    {
      var j :| 0 <= j < |ready| - 1 && ready[1..][j] == s;
      assert ready[j + 1] == s;
    }
  }

  lemma OutFewer(slots: seq<Slot>, k: nat, free: seq<Slot>)
    requires Out(slots, free) && k < |slots|
    ensures Out(Without(slots, k), [slots[k]] + free) && slots[k] !in free
  {
    assert slots[k] in slots;
    forall s | s in Without(slots, k)
      ensures s in slots && s != slots[k]
    {
      var j :| 0 <= j < |slots| - 1 && Without(slots, k)[j] == s;
      assert s == slots[if j < k then j else j + 1];
    }
  }

  // ---- Runs --------------------------------------------------------------------------------

  /** The blocks a client was vended by either pool, and those it still holds. */
  datatype Client = Client(ps: seq<nat>, qs: seq<nat>, outP: seq<nat>, outQ: seq<nat>)

  /** The slots behind them, and the bytes written to those held. */
  datatype Ledger = Ledger(vended: seq<Slot>, held: seq<Slot>, data: Data)

  ghost predicate InStep(plain: MemoryPool, hard: MemoryPool, c: Client, l: Ledger)
    reads plain, plain.heap, hard, hard.heap
  {
    && Same(plain, hard, c.ps, c.qs, l.vended) && Same(plain, hard, c.outP, c.outQ, l.held) && Out(l.held, plain.free)
    && Retained(plain, l.data) && Retained(hard, l.data)
  }

  lemma SameMore(cp: seq<Chunk>, sp: nat, cq: seq<Chunk>, sq: nat, ps: seq<nat>, qs: seq<nat>, slots: seq<Slot>, p: nat, q: nat, s: Slot)
    requires AllSame(cp, sp, cq, sq, ps, qs, slots) && SameIn(cp, sp, cq, sq, p, q, s)
    ensures AllSame(cp, sp, cq, sq, ps + [p], qs + [q], slots + [s])
  {
    forall k | 0 <= k < |slots| + 1
      ensures SameIn(cp, sp, cq, sq, (ps + [p])[k], (qs + [q])[k], (slots + [s])[k])
    {
      if k < |slots| {
        assert SameIn(cp, sp, cq, sq, ps[k], qs[k], slots[k]);
      }
    }
  }

  lemma SameFewer(cp: seq<Chunk>, sp: nat, cq: seq<Chunk>, sq: nat, ps: seq<nat>, qs: seq<nat>, slots: seq<Slot>, k: nat)
    requires AllSame(cp, sp, cq, sq, ps, qs, slots) && k < |slots|
    ensures AllSame(cp, sp, cq, sq, Without(ps, k), Without(qs, k), Without(slots, k))
    ensures SameIn(cp, sp, cq, sq, ps[k], qs[k], slots[k])
  {
    forall j | 0 <= j < |slots| - 1
      ensures SameIn(cp, sp, cq, sq, Without(ps, k)[j], Without(qs, k)[j], Without(slots, k)[j])
    {
      var i := if j < k then j else j + 1;
      assert SameIn(cp, sp, cq, sq, ps[i], qs[i], slots[i]);
    }
  }

  /** The course a pool has taken, with the slots its client was vended and holds. */
  ghost function CourseOf(pool: MemoryPool, l: Ledger): Course
    reads pool, pool.heap
  {
    Course(pool.Image(), l.vended, l.held, l.data)
  }

  /** Neither pool has a slot to vend but by growing, and just one of the heaps grants that. */
  ghost predicate Disagree(kp: Terms, ip: Image, kq: Terms, iq: Image) {
    && ip.free == [] == iq.free
    && (PrimedImage(kp, ip).free == []) != (PrimedImage(kq, iq).free == [])
  }

  method DoGet(plain: MemoryPool, hard: MemoryPool, c: Client, ghost l: Ledger) returns (agreed: bool, c': Client, ghost l': Ledger)
    requires Alike(plain, hard) && InStep(plain, hard, c, l)
    modifies plain, plain.heap, hard, hard.heap
    ensures hard.reports == old(hard.reports) && Same(plain, hard, c'.ps, c'.qs, l'.vended)
    ensures plain.Terms() == old(plain.Terms()) && hard.Terms() == old(hard.Terms())
    ensures agreed ==> Alike(plain, hard) && InStep(plain, hard, c', l')
    ensures agreed ==> CourseOf(plain, l') == Turn(plain.Terms(), plain.blockSize, old(CourseOf(plain, l)), Get)
    ensures agreed ==> CourseOf(hard, l') == Turn(hard.Terms(), hard.blockSize, old(CourseOf(hard, l)), Get)
    ensures !agreed ==> l' == l && Disagree(plain.Terms(), old(plain.Image()), hard.Terms(), old(hard.Image()))
  {
    hide MemoryPool.Valid, Out, AllSame, GrownImage, Retains;
    ghost var cp, cq, v, f := plain.chunks, hard.chunks, plain.Now(), plain.growFactor;
    PrimedIsReady(plain.Terms(), plain.Image());
    PrimedIsReady(hard.Terms(), hard.Image());
    var p, q := GetBoth(plain, hard, l.data);
    SameLater(cp, plain.Stride(), cq, hard.Stride(), c.ps, c.qs, l.vended, plain.chunks, hard.chunks);
    SameLater(cp, plain.Stride(), cq, hard.Stride(), c.outP, c.outQ, l.held, plain.chunks, hard.chunks);
    c', l', agreed := c, l, (p == 0) == (q == 0);
    if agreed && p != 0 {
      OutMore(l.held, v, cp, f);
      ghost var s := Ready(v, f).free[0];
      SameMore(plain.chunks, plain.Stride(), hard.chunks, hard.Stride(), c.ps, c.qs, l.vended, p, q, s);
      SameMore(plain.chunks, plain.Stride(), hard.chunks, hard.Stride(), c.outP, c.outQ, l.held, p, q, s);
      c' := Client(c.ps + [p], c.qs + [q], c.outP + [p], c.outQ + [q]);
      l' := l.(vended := l.vended + [s], held := l.held + [s]);
    }
  }

  method DoPut(plain: MemoryPool, hard: MemoryPool, k: nat, c: Client, ghost l: Ledger) returns (c': Client, ghost l': Ledger)
    requires Alike(plain, hard) && InStep(plain, hard, c, l) && k < |c.outP|
    modifies plain, plain.heap, hard, hard.heap
    ensures hard.reports == old(hard.reports) && Alike(plain, hard) && InStep(plain, hard, c', l')
    ensures plain.Terms() == old(plain.Terms()) && CourseOf(plain, l') == Turn(plain.Terms(), plain.blockSize, old(CourseOf(plain, l)), Put(k))
    ensures hard.Terms() == old(hard.Terms()) && CourseOf(hard, l') == Turn(hard.Terms(), hard.blockSize, old(CourseOf(hard, l)), Put(k))
  {
    hide MemoryPool.Valid, Out, Retains;
    plain.Basics();
    hard.Basics();
    ghost var mp, mq, free := plain.heap.mem, hard.heap.mem, plain.free;
    SameFewer(plain.chunks, plain.Stride(), hard.chunks, hard.Stride(), c.outP, c.outQ, l.held, k);
    OutFewer(l.held, k, plain.free);
    Holding(plain, c.outP[k], l.held[k]);
    Holding(hard, c.outQ[k], l.held[k]);
    PutBoth(plain, hard, c.outP[k], c.outQ[k], l.held[k]);
    c' := c.(outP := Without(c.outP, k), outQ := Without(c.outQ, k));
    l' := l.(held := Without(l.held, k), data := Emptied(l.data, l.held[k]));
    RetainsElsewhere(plain.Lay(), plain.chunks, plain.chunks, mp, plain.heap.mem, free, plain.free, l.data, l.held[k]);
    RetainsElsewhere(hard.Lay(), hard.chunks, hard.chunks, mq, hard.heap.mem, free, hard.free, l.data, l.held[k]);
  }

  method DoSet(plain: MemoryPool, hard: MemoryPool, k: nat, offset: nat, b: byte, c: Client, ghost l: Ledger)
    returns (ghost l': Ledger)
    requires Alike(plain, hard) && InStep(plain, hard, c, l) && k < |c.outP| && offset < plain.blockSize
    modifies plain.heap`mem, hard.heap`mem
    ensures Alike(plain, hard) && InStep(plain, hard, c, l')
    ensures CourseOf(plain, l') == Turn(plain.Terms(), plain.blockSize, old(CourseOf(plain, l)), Set(k, offset, b))
    ensures CourseOf(hard, l') == Turn(hard.Terms(), hard.blockSize, old(CourseOf(hard, l)), Set(k, offset, b))
    ensures plain.heap.mem == old(plain.heap.mem)[c.outP[k] + offset := b] && hard.heap.mem == old(hard.heap.mem)[c.outQ[k] + offset := b]
  {
    hide MemoryPool.Valid, Out, Retains;
    plain.Basics();
    hard.Basics();
    ghost var mp, mq := plain.heap.mem, hard.heap.mem;
    SameFewer(plain.chunks, plain.Stride(), hard.chunks, hard.Stride(), c.outP, c.outQ, l.held, k);
    OutFewer(l.held, k, plain.free);
    SetBoth(plain, hard, c.outP[k], c.outQ[k], offset, b, l.held[k]);
    l' := l.(data := l.data[Cell(l.held[k], offset) := b]);
    WriteRetains(plain.Lay(), plain.chunks, mp, plain.free, l.data, l.held[k], offset, b);
    WriteRetains(hard.Lay(), hard.chunks, mq, hard.free, l.data, l.held[k], offset, b);
  }

  method Play(plain: MemoryPool, hard: MemoryPool, step: Step, c: Client, ghost l: Ledger)
    returns (agreed: bool, c': Client, ghost l': Ledger)
    requires Alike(plain, hard) && InStep(plain, hard, c, l)
    modifies plain, plain.heap, hard, hard.heap
    ensures hard.reports == old(hard.reports) && Same(plain, hard, c'.ps, c'.qs, l'.vended)
    ensures plain.Terms() == old(plain.Terms()) && hard.Terms() == old(hard.Terms())
    ensures agreed ==> Alike(plain, hard) && InStep(plain, hard, c', l')
    ensures agreed ==> CourseOf(plain, l') == Turn(plain.Terms(), plain.blockSize, old(CourseOf(plain, l)), step)
    ensures agreed ==> CourseOf(hard, l') == Turn(hard.Terms(), hard.blockSize, old(CourseOf(hard, l)), step)
    ensures !agreed ==> step.Get? && l' == l && Disagree(plain.Terms(), old(plain.Image()), hard.Terms(), old(hard.Image()))
  {
    assert plain.blockSize == hard.blockSize && |c.outP| == |l.held|;
    hide MemoryPool.Valid, Alike, Out, PoppedImage, PrimedImage, Disagree, Retains;
    agreed, c', l' := true, c, l;
    if step.Get? {
      agreed, c', l' := DoGet(plain, hard, c, l);
    } else if step.k < |c.outP| {
      if step.Put? {
        c', l' := DoPut(plain, hard, step.k, c, l);
      } else if step.offset < plain.blockSize {
        l' := DoSet(plain, hard, step.k, step.offset, step.b, c, l);
      }
    }
  }

  /** For every script of a correct client: after the first `n` steps both pools have taken the course
      the script says; the slots vended, in order, and the slots held are the same ones in both, and so are
      the bytes the client wrote to those it holds; the hardened pool has reported nothing. Only one thing keeps `n` from being all of them: a growth that
      one of the heaps grants and the other refuses. */
  method RunBoth(plain: MemoryPool, hard: MemoryPool, steps: seq<Step>) returns (n: nat, c: Client, ghost l: Ledger)
    requires Alike(plain, hard)
    modifies plain, plain.heap, hard, hard.heap
    ensures n <= |steps| && hard.reports == old(hard.reports) && Same(plain, hard, c.ps, c.qs, l.vended)
    ensures var cp := Played(old(plain.Terms()), plain.blockSize, Course(old(plain.Image()), [], [], map[]), steps, n);
      var cq := Played(old(hard.Terms()), hard.blockSize, Course(old(hard.Image()), [], [], map[]), steps, n);
      && l.vended == cp.vended == cq.vended && l.held == cp.held == cq.held && l.data == cp.data == cq.data
      && (n == |steps| ==> Alike(plain, hard) && plain.Image() == cp.image && hard.Image() == cq.image)
      && (n == |steps| ==> Retained(plain, l.data) && Retained(hard, l.data))
      && (n < |steps| ==> steps[n] == Get && Disagree(old(plain.Terms()), cp.image, old(hard.Terms()), cq.image))
  {
    c, l := Client([], [], [], []), Ledger([], [], map[]);
    plain.Basics();
    ghost var kp, kq, ip, iq := plain.Terms(), hard.Terms(), Course(plain.Image(), [], [], map[]), Course(hard.Image(), [], [], map[]);
    n := 0;
    while n < |steps|
      invariant n <= |steps| && Alike(plain, hard) && InStep(plain, hard, c, l) && hard.reports == old(hard.reports)
      invariant plain.Terms() == kp && CourseOf(plain, l) == Played(kp, plain.blockSize, ip, steps, n)
      invariant hard.Terms() == kq && CourseOf(hard, l) == Played(kq, hard.blockSize, iq, steps, n)
      decreases |steps| - n
    {
      hide MemoryPool.Valid, InStep, Alike, Same, Turn, Disagree;
      var agreed: bool;
      agreed, c, l := Play(plain, hard, steps[n], c, l);
      if !agreed {
        return;
      }
      n := n + 1;
    }
  }
}
