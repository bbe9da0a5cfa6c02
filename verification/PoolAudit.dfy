/** What a hardened pool reports over a whole run, judged by what was done to each slot. */
module PoolAudit {
  import opened Common
  import opened Sizes
  import opened Words
  import opened Memory
  import opened Slots
  import opened Heap
  import opened PoolImages
  import opened MemoryPools
  import opened PoolClients
  import opened FreeLists
  import opened BlockContents

  /** What a client may do with an address: allocate, free it (whatever it is, however often), write a
      byte into the block there, or run over its end so that the guard word behind it reads `value`. */
  datatype Act = Allocate | Release(p: size) | Write(p: size, offset: nat, b: byte) | Overwrite(p: size, value: nat)

  datatype Event =
    | Vended(p: nat)
    | Freed(p: nat)
    | Scribbled(p: nat, offset: nat, b: byte)
    | Overran(p: nat)
    | Restored(p: nat)

  // ---- Judging a trace ---------------------------------------------------------------------

  /** A free slot and the offsets beyond its link that do not hold poison, or a live one; and whether the
      guard of the slot was left changed. */
  datatype State = Free(dirty: set<nat>, overrun: bool) | Live(overrun: bool)

  function Drop(trace: seq<Event>): seq<Event>
    requires trace != []
  {
    trace[..|trace| - 1]
  }

  function DirtOf(was: State): set<nat> {
    if was.Free? then was.dirty else {}
  }

  /** What the events on the slot at `p` have made of it; a slot nobody touched is free and clean. */
  function After(trace: seq<Event>, p: nat): State {
    if trace == [] then Free({}, false) else
      var e := trace[|trace| - 1];
      if e.p != p then After(Drop(trace), p)
      else match e
        case Vended(_) => Live(false)
        case Freed(_) => Free({}, false)
        case Scribbled(_, offset, b) =>
          var was := After(Drop(trace), p);
          Free(if b == POISON_BYTE then DirtOf(was) - {offset} else DirtOf(was) + {offset}, was.overrun)
        case Overran(_) => After(Drop(trace), p).(overrun := true)
        case Restored(_) => After(Drop(trace), p).(overrun := false)
  }

  function Verdict(was: State, e: Event): seq<Report> {
    match e
    case Vended(p) => if was.Free? then PopFindings(p, was.overrun, was.dirty != {}) else []
    case Freed(p) => FreeReport(p, was.Free?, was.overrun)
    case _ => []
  }

  function Judge(trace: seq<Event>): seq<Report> {
    if trace == [] then [] else
      var e := trace[|trace| - 1];
      Judge(Drop(trace)) + Verdict(After(Drop(trace), e.p), e)
  }

  /** The event is no vend or free of its slot, and no write at this offset. */
  predicate KeepsDirt(e: Event, offset: nat) {
    match e
    case Vended(_) => false
    case Freed(_) => false
    case Scribbled(_, o, _) => o != offset
    case _ => true
  }

  /** Event `i` wrote a byte that is not poison at this offset of the slot at `p`, and nothing since
      undid it: the slot was not vended, not freed again, and the byte not written again. */
  ghost predicate Stands(trace: seq<Event>, p: nat, offset: nat, i: nat) {
    && i < |trace| && trace[i].Scribbled? && trace[i].p == p && trace[i].offset == offset && trace[i].b != POISON_BYTE
    && forall j :: i < j < |trace| && trace[j].p == p ==> KeepsDirt(trace[j], offset)
  }

  ghost predicate SomeStands(trace: seq<Event>, p: nat, offset: nat) {
    exists i :: Stands(trace, p, offset, i)
  }

  lemma {:induction false} DirtStands(trace: seq<Event>, p: nat, offset: nat)
    ensures offset in DirtOf(After(trace, p)) <==> SomeStands(trace, p, offset)
    decreases |trace|
  {
    if trace != [] {
      var n := |trace| - 1;
      var e, rest := trace[n], Drop(trace);
      DirtStands(rest, p, offset);
      var kept := e.p != p || KeepsDirt(e, offset);
      if i: nat :| Stands(rest, p, offset, i) && kept {
        assert Stands(trace, p, offset, i);
      }
      if i: nat :| Stands(trace, p, offset, i) {
        if i < n {
          assert trace[n] == e && Stands(rest, p, offset, i);
        }
      }
      if e.p == p && e.Scribbled? && e.offset == offset && e.b != POISON_BYTE {
        assert Stands(trace, p, offset, n);
      }
    }
  }

  /** Event `i` changed the guard of the slot at `p`, and nothing since undid it: the slot was neither
      vended nor freed, nor its guard written again. */
  ghost predicate StandsOverrun(trace: seq<Event>, p: nat, i: nat) {
    && i < |trace| && trace[i] == Overran(p)
    && forall j :: i < j < |trace| && trace[j].p == p ==> trace[j].Scribbled?
  }

  ghost predicate SomeOverrun(trace: seq<Event>, p: nat) {
    exists i :: StandsOverrun(trace, p, i)
  }

  lemma {:induction false} OverrunStands(trace: seq<Event>, p: nat)
    ensures After(trace, p).overrun <==> SomeOverrun(trace, p)
    decreases |trace|
  {
    if trace != [] {
      var n := |trace| - 1;
      var e, rest := trace[n], Drop(trace);
      OverrunStands(rest, p);
      if i: nat :| StandsOverrun(rest, p, i) && (e.p != p || e.Scribbled?) {
        assert StandsOverrun(trace, p, i);
      }
      if i: nat :| StandsOverrun(trace, p, i) {
        if i < n {
          assert trace[n] == e && StandsOverrun(rest, p, i);
        }
      }
      if e == Overran(p) {
        assert StandsOverrun(trace, p, n);
      }
    }
  }

  /** What is reported of a free slot vended next: a use after free exactly if some byte beyond its link was,
      since it was last vended or freed, last written with anything but poison; a corrupt free list exactly
      if its guard was, since then, last written with anything but the freed stamp. */
  lemma WriteReportedIff(trace: seq<Event>, p: nat)
    ensures UseAfterFree(p) in Verdict(After(trace, p), Vended(p)) <==> exists offset :: SomeStands(trace, p, offset)
    ensures After(trace, p).Free? ==>
      Verdict(After(trace, p), Vended(p))
        == (if SomeOverrun(trace, p) then [FreeListCorruption(p)] else [])
           + (if exists offset :: SomeStands(trace, p, offset) then [UseAfterFree(p)] else [])
  {
    OverrunStands(trace, p);
    var dirt := DirtOf(After(trace, p));
    forall offset: nat
      ensures offset in dirt <==> SomeStands(trace, p, offset)
    {
      DirtStands(trace, p, offset);
    }
    if dirt != {} {
      var offset :| offset in dirt;
      assert SomeStands(trace, p, offset);
    }
  }

  /** What is reported of a slot freed next: an overflow, if it is live, exactly if its guard was, since it was vended,
      last written with anything but the allocated stamp; a double free, if it is free. */
  lemma FreeReportedIff(trace: seq<Event>, p: nat)
    ensures !After(trace, p).Free? ==>
      Verdict(After(trace, p), Freed(p)) == if SomeOverrun(trace, p) then [BufferOverflow(p)] else []
    ensures After(trace, p).Free? ==> Verdict(After(trace, p), Freed(p)) == [DoubleFree(p)]
  {
    OverrunStands(trace, p);
  }

  /** A write to a free slot that goes unreported because the slot is freed once more. */
  lemma FreedAgainUnreported(p: nat)
    ensures Judge([Scribbled(p, 8, 0), Freed(p), Vended(p)]) == [DoubleFree(p)]
  {
    var t1 := [Scribbled(p, 8, 0)];
    var t2 := t1 + [Freed(p)];
    JudgeLast([], Scribbled(p, 8, 0));
    JudgeLast(t1, Freed(p));
    JudgeLast(t2, Vended(p));
    assert [] + t1 == t1 && Drop(t1) == [] && Drop(t2) == t1;
    assert t2 + [Vended(p)] == [Scribbled(p, 8, 0), Freed(p), Vended(p)];
  }

  /** The same of its guard, which is reported when the slot is vended, and only then. */
  lemma GuardWriteReportedOnce(p: nat)
    ensures Judge([Overran(p), Vended(p), Freed(p), Vended(p)]) == [FreeListCorruption(p)]
    ensures Judge([Overran(p), Restored(p), Vended(p)]) == []
  {
    var t1 := [Overran(p)];
    var t2, u2 := t1 + [Vended(p)], t1 + [Restored(p)];
    var t3 := t2 + [Freed(p)];
    JudgeLast([], Overran(p));
    JudgeLast(t1, Vended(p));
    JudgeLast(t2, Freed(p));
    JudgeLast(t3, Vended(p));
    JudgeLast(t1, Restored(p));
    JudgeLast(u2, Vended(p));
    assert [] + t1 == t1 && Drop(t1) == [] && Drop(t2) == t1 == Drop(u2) && Drop(t3) == t2;
    assert t3 + [Vended(p)] == [Overran(p), Vended(p), Freed(p), Vended(p)];
    assert u2 + [Vended(p)] == [Overran(p), Restored(p), Vended(p)];
  }

  /** One that goes unreported because the byte is written back. */
  lemma WrittenBackUnreported(p: nat)
    ensures Judge([Scribbled(p, 8, 0), Scribbled(p, 8, POISON_BYTE), Vended(p)]) == []
  {
    var t1 := [Scribbled(p, 8, 0)];
    var t2 := t1 + [Scribbled(p, 8, POISON_BYTE)];
    JudgeLast([], Scribbled(p, 8, 0));
    JudgeLast(t1, Scribbled(p, 8, POISON_BYTE));
    JudgeLast(t2, Vended(p));
    assert [] + t1 == t1 && Drop(t1) == [] && Drop(t2) == t1;
    assert After(t2, p) == Free({8} - {8}, false);
    assert t2 + [Vended(p)] == [Scribbled(p, 8, 0), Scribbled(p, 8, POISON_BYTE), Vended(p)];
  }

  /** No slot is vended while it is out. */
  ghost predicate NeverTwice(trace: seq<Event>) {
    forall i {:trigger VendedFree(trace, i)} :: 0 <= i < |trace| ==> VendedFree(trace, i)
  }

  ghost predicate VendedFree(trace: seq<Event>, i: nat)
    requires i < |trace|
  {
    trace[i].Vended? ==> After(trace[..i], trace[i].p).Free?
  }

  lemma JudgeLast(trace: seq<Event>, e: Event)
    ensures Judge(trace + [e]) == Judge(trace) + Verdict(After(trace, e.p), e)
    ensures NeverTwice(trace) && (e.Vended? ==> After(trace, e.p).Free?) ==> NeverTwice(trace + [e])
  {
    var more := trace + [e];
    assert Drop(more) == trace && more[..|trace|] == trace;
    if NeverTwice(trace) && (e.Vended? ==> After(trace, e.p).Free?) {
      forall i | 0 <= i < |more|
        ensures VendedFree(more, i)
      {
        assert more[..i] == if i < |trace| then trace[..i] else trace;
        assert i < |trace| ==> VendedFree(trace, i);
      }
    }
  }

  // ---- What the acts come to ---------------------------------------------------------------

  /** What a write of `value` over the guard of the slot at `p`, free or live, leaves behind. */
  function Overrunning(p: nat, value: nat, isFree: bool): Event {
    if value == (if isFree then GUARD_FREED else GUARD_ALLOCATED) then Restored(p) else Overran(p)
  }

  /** A pool, the events on its slots so far, and the bytes in the blocks that are out. */
  datatype Story = Story(image: Image, trace: seq<Event>, data: Data)

  ghost predicate SlotIs(k: Terms, im: Image, p: nat, free: bool) {
    IsSlotAddress(im.chunks, k.stride, p) && (SlotAt(im.chunks, k.stride, p) in im.free) == free
  }

  /** What one act comes to: the pool it leaves, its event if it is one, and the byte if it wrote one into a
      block that is out. Writes to the link of a free
      slot, the freed stamp over a live guard, and a second free of a slot whose guard was changed while it
      was free, are not among the acts and come to nothing. */
  ghost function Told(k: Terms, blockSize: nat, st: Story, act: Act): Story {
    match act
    case Allocate =>
      var p := VendedAddress(k, st.image);
      Story(PoppedImage(k, st.image),
            if PrimedImage(k, st.image).free == [] then st.trace else st.trace + [Event.Vended(p)], st.data)
    case Release(p) =>
      if !IsSlotAddress(st.image.chunks, k.stride, p) || (SlotIs(k, st.image, p, true) && After(st.trace, p).overrun) then st
      else Story(PushedImage(k, st.image, p), st.trace + [Freed(p)], Emptied(st.data, SlotAt(st.image.chunks, k.stride, p)))
    case Write(p, offset, b) =>
      if SlotIs(k, st.image, p, true) && POINTER_BYTES <= offset < blockSize
      then st.(trace := st.trace + [Scribbled(p, offset, b)])
      else if SlotIs(k, st.image, p, false) && offset < blockSize
      then st.(data := st.data[Cell(SlotAt(st.image.chunks, k.stride, p), offset) := b])
      else st
    case Overwrite(p, value) =>
      if !IsSlotAddress(st.image.chunks, k.stride, p) || value >= WORD_LIMIT then st
      else if SlotIs(k, st.image, p, true) then st.(trace := st.trace + [Overrunning(p, value, true)])
      else if value != GUARD_FREED then st.(trace := st.trace + [Overrunning(p, value, false)])
      else st
  }

  /** The story of the first `n` acts. */
  ghost function StoryOf(k: Terms, blockSize: nat, st: Story, acts: seq<Act>, n: nat): Story
    requires n <= |acts|
  {
    if n == 0 then st else Told(k, blockSize, StoryOf(k, blockSize, st, acts, n - 1), acts[n - 1])
  }

  // ---- Trace and memory --------------------------------------------------------------------

  predicate HoldsPoison(mem: Bytes, p: nat, offset: nat) {
    p + offset in mem && mem[p + offset] == POISON_BYTE
  }

  /** The offsets of a slot beyond its link that do not hold poison. */
  ghost function Dirt(l: Layout, mem: Bytes, p: nat): set<nat> {
    set o: nat | POINTER_BYTES <= o < l.blockSize && !HoldsPoison(mem, p, o)
  }

  lemma PoisonedIsNoDirt(l: Layout, mem: Bytes, p: nat)
    ensures Poisoned(l, mem, p) <==> Dirt(l, mem, p) == {}
  {
    if Poisoned(l, mem, p) {
      assert Dirt(l, mem, p) == {};
    }
    if Dirt(l, mem, p) == {} {
      forall i | p + POINTER_BYTES <= i < p + l.blockSize
        ensures i in mem && mem[i] == POISON_BYTE
      {
        assert i - p !in Dirt(l, mem, p);
        assert HoldsPoison(mem, p, i - p);
      }
    }
  }

  ghost predicate TellsOf(l: Layout, chunks: seq<Chunk>, mem: Bytes, free: seq<Slot>, changed: set<Slot>, trace: seq<Event>, s: Slot)
    requires IsSlot(chunks, s)
  {
    var p := Addr(chunks, l.stride, s);
    var was := After(trace, p);
    (was.overrun <==> s in changed) && if was.Free? then s in free && was.dirty == Dirt(l, mem, p) else s !in free
  }

  ghost predicate OnSlot(chunks: seq<Chunk>, stride: nat, trace: seq<Event>, i: nat)
    requires i < |trace|
  {
    IsSlotAddress(chunks, stride, trace[i].p)
  }

  /** The slots whose guard is not what the pool left there. */
  ghost function Changed(free: seq<Slot>, tainted: set<Slot>, stomped: set<Slot>): set<Slot> {
    (set s | s in tainted && s !in free) + stomped
  }

  /** The trace tells of every slot whether it is free, and what is wrong with it. */
  ghost predicate Matches(l: Layout, chunks: seq<Chunk>, mem: Bytes, free: seq<Slot>, changed: set<Slot>, trace: seq<Event>) {
    && (forall i {:trigger OnSlot(chunks, l.stride, trace, i)} :: 0 <= i < |trace| ==> OnSlot(chunks, l.stride, trace, i))
    && (forall s {:trigger TellsOf(l, chunks, mem, free, changed, trace, s)} ::
          IsSlot(chunks, s) ==> TellsOf(l, chunks, mem, free, changed, trace, s))
  }

  lemma DirtElsewhere(l: Layout, chunks: seq<Chunk>, m: Bytes, m': Bytes, s: Slot, t: Slot)
    requires LayoutOk(l) && ChunksOk(chunks, l.stride) && ChunksMapped(chunks, l.stride, m) && IsSlot(chunks, s) && IsSlot(chunks, t)
    requires s != t && KeptBut(m, m', Addr(chunks, l.stride, s), l.stride)
    ensures Dirt(l, m', Addr(chunks, l.stride, t)) == Dirt(l, m, Addr(chunks, l.stride, t))
  {
    SlotsApart(chunks, l.stride, s, t);
    SlotMapped(chunks, l.stride, m, t);
  }

  /** An event on one slot, with memory changed in that slot only. */
  lemma MatchesEvent(l: Layout, chunks: seq<Chunk>, m: Bytes, m': Bytes, free: seq<Slot>, free': seq<Slot>,
                     changed: set<Slot>, changed': set<Slot>, trace: seq<Event>, e: Event, s: Slot)
    requires LayoutOk(l) && ChunksOk(chunks, l.stride) && ChunksMapped(chunks, l.stride, m)
    requires Matches(l, chunks, m, free, changed, trace)
    requires IsSlot(chunks, s) && e.p == Addr(chunks, l.stride, s) && KeptBut(m, m', e.p, l.stride)
    requires TellsOf(l, chunks, m', free', changed', trace + [e], s)
    requires forall t :: t != s ==> (t in free' <==> t in free) && (t in changed' <==> t in changed)
    ensures Matches(l, chunks, m', free', changed', trace + [e])
  {
    var more := trace + [e];
    assert Drop(more) == trace;
    forall i | 0 <= i < |more|
      ensures OnSlot(chunks, l.stride, more, i)
    {
      assert i < |trace| ==> OnSlot(chunks, l.stride, trace, i);
    }
    forall t | IsSlot(chunks, t)
      ensures TellsOf(l, chunks, m', free', changed', more, t)
    {
      if t != s {
        SlotsApart(chunks, l.stride, s, t);
        DirtElsewhere(l, chunks, m, m', s, t);
        assert TellsOf(l, chunks, m, free, changed, trace, t);
      }
    }
  }

  lemma {:induction false} Untouched(chunks: seq<Chunk>, stride: nat, trace: seq<Event>, p: nat)
    requires !IsSlotAddress(chunks, stride, p)
    requires forall i {:trigger OnSlot(chunks, stride, trace, i)} :: 0 <= i < |trace| ==> OnSlot(chunks, stride, trace, i)
    ensures After(trace, p) == Free({}, false)
    decreases |trace|
  {
    if trace != [] {
      assert OnSlot(chunks, stride, trace, |trace| - 1);
      forall i | 0 <= i < |Drop(trace)|
        ensures OnSlot(chunks, stride, Drop(trace), i)
      {
        assert OnSlot(chunks, stride, trace, i);
      }
      Untouched(chunks, stride, Drop(trace), p);
    }
  }

  /** A pop from a chunk just grown: its other slots are free and clean, nothing was ever done to any of
      them, and the old slots are all live. */
  lemma GrownPop(l: Layout, chunks: seq<Chunk>, m: Bytes, m': Bytes, changed: set<Slot>, trace: seq<Event>, c: Chunk)
    requires ChunksOk(chunks, l.stride) && ChunksOk(chunks + [c], l.stride) && Matches(l, chunks, m, [], changed, trace)
    requires c.count > 0 && forall s :: s in changed ==> IsSlot(chunks, s)
    requires forall i :: 0 < i < c.count ==> Poisoned(l, m', Addr(chunks + [c], l.stride, Slot(|chunks|, i)))
    ensures After(trace, c.base) == Free({}, false)
    ensures Matches(l, chunks + [c], m', ChunkSlots(|chunks|, c.count)[1..], changed, trace + [Event.Vended(c.base)])
  {
    var more, free, told := chunks + [c], ChunkSlots(|chunks|, c.count)[1..], trace + [Event.Vended(c.base)];
    assert Addr(more, l.stride, Slot(|chunks|, 0)) == c.base && Drop(told) == trace;
    NeverTouched(l, chunks, m, changed, trace, c, Slot(|chunks|, 0));
    forall i | 0 <= i < |told|
      ensures OnSlot(more, l.stride, told, i)
    {
      if i < |trace| {
        assert OnSlot(chunks, l.stride, trace, i);
        AddrStable(chunks, more, l.stride, SlotAt(chunks, l.stride, trace[i].p));
      } else {
        assert IsSlot(more, Slot(|chunks|, 0));
      }
    }
    forall s | IsSlot(more, s)
      ensures TellsOf(l, more, m', free, changed, told, s)
    {
      if s.chunk < |chunks| {
        assert TellsOf(l, chunks, m, [], changed, trace, s);
        SlotsApart(more, l.stride, s, Slot(|chunks|, 0));
      } else if s.index > 0 {
        assert free[s.index - 1] == s;
        PoisonedIsNoDirt(l, m', Addr(more, l.stride, s));
        NeverTouched(l, chunks, m, changed, trace, c, s);
        SlotsApart(more, l.stride, s, Slot(|chunks|, 0));
      } else {
        assert forall i :: 0 <= i < |free| ==> free[i] == Slot(|chunks|, i + 1);
      }
    }
  }

  lemma NeverTouched(l: Layout, chunks: seq<Chunk>, m: Bytes, changed: set<Slot>, trace: seq<Event>, c: Chunk, s: Slot)
    requires ChunksOk(chunks + [c], l.stride) && Matches(l, chunks, m, [], changed, trace)
    requires IsSlot(chunks + [c], s) && s.chunk == |chunks|
    ensures After(trace, Addr(chunks + [c], l.stride, s)) == Free({}, false)
  {
    var more := chunks + [c];
    if IsSlotAddress(chunks, l.stride, Addr(more, l.stride, s)) {
      SlotAddressUnique(more, l.stride, s, SlotAt(chunks, l.stride, Addr(more, l.stride, s)));
    }
    Untouched(chunks, l.stride, trace, Addr(more, l.stride, s));
  }

  /** A pop of the first free slot. */
  lemma ListPop(l: Layout, chunks: seq<Chunk>, m: Bytes, m': Bytes, free: seq<Slot>, changed: set<Slot>, trace: seq<Event>, s: Slot)
    requires LayoutOk(l) && ChunksOk(chunks, l.stride) && ChunksMapped(chunks, l.stride, m)
    requires Matches(l, chunks, m, free, changed, trace) && NoDup(free) && free != [] && s == free[0] && IsSlot(chunks, s)
    requires KeptBut(m, m', Addr(chunks, l.stride, s), l.stride)
    ensures var p := Addr(chunks, l.stride, s);
      && Matches(l, chunks, m', free[1..], changed - {s}, trace + [Event.Vended(p)])
      && After(trace, p) == Free(Dirt(l, m, p), s in changed)
  {
    var e := Event.Vended(Addr(chunks, l.stride, s));
    assert TellsOf(l, chunks, m, free, changed, trace, s);
    assert free == [s] + free[1..];
    assert Drop(trace + [e]) == trace;
    MatchesEvent(l, chunks, m, m', free, free[1..], changed, changed - {s}, trace, e, s);
  }

  lemma PopMatches(k: Terms, l: Layout, im: Image, m: Bytes, m': Bytes, changed: set<Slot>, trace: seq<Event>, p: nat)
    requires k.stride == l.stride && LayoutOk(l) && ChunksOk(im.chunks, l.stride) && ChunksMapped(im.chunks, l.stride, m)
    requires Matches(l, im.chunks, m, im.free, changed, trace) && NeverTwice(trace) && NoDup(im.free)
    requires forall s :: s in changed ==> IsSlot(im.chunks, s)
    requires var r := PrimedImage(k, im);
      && r.free != [] && ChunksOk(r.chunks, l.stride) && IsSlot(r.chunks, r.free[0]) && p == Addr(r.chunks, l.stride, r.free[0])
      && AllSlots(r.chunks, r.free[1..])
      && (im.free == [] ==> forall s :: s in r.free[1..] ==> Poisoned(l, m', Addr(r.chunks, l.stride, s)))
    requires KeptBut(m, m', p, l.stride)
    ensures var r, more := PrimedImage(k, im), trace + [Event.Vended(p)];
      && Matches(l, r.chunks, m', r.free[1..], changed - {r.free[0]}, more) && NeverTwice(more)
      && Judge(more) == Judge(trace) + PopFindings(p, r.free[0] in changed, im.free != [] && !Poisoned(l, m, p))
  {
    hide Judge, NeverTwice, Matches;
    var r := PrimedImage(k, im);
    JudgeLast(trace, Event.Vended(p));
    if im.free != [] {
      ListPop(l, im.chunks, m, m', im.free, changed, trace, im.free[0]);
      PoisonedIsNoDirt(l, m, p);
    } else {
      var c := r.chunks[|im.chunks|];
      forall i | 0 < i < c.count
        ensures Poisoned(l, m', Addr(r.chunks, l.stride, Slot(|im.chunks|, i)))
      {
        assert r.free[1..][i - 1] == Slot(|im.chunks|, i);
      }
      GrownPop(l, im.chunks, m, m', changed, trace, c);
      assert changed - {r.free[0]} == changed;
    }
  }

  lemma CleanOnes(pool: MemoryPool)
    requires pool.Valid() && pool.hardened
    ensures AllSlots(pool.chunks, pool.free) && pool.stomped <= Members(pool.free)
    ensures forall s :: s in pool.free ==>
      IsSlot(pool.chunks, s) && (s in pool.tainted <==> !Poisoned(pool.Lay(), pool.heap.mem, pool.AddrOf(s)))
  {
    pool.Basics();
    forall s | s in pool.stomped
      ensures s in pool.free
    {
      pool.SlotAtHand(s);
    }
    forall s | s in pool.free
      ensures IsSlot(pool.chunks, s) && (s in pool.tainted <==> !Poisoned(pool.Lay(), pool.heap.mem, pool.AddrOf(s)))
    {
      pool.TaintShows(s);
    }
  }

  ghost function ChangedIn(pool: MemoryPool): set<Slot>
    reads pool
  {
    Changed(pool.free, pool.tainted, pool.stomped)
  }

  lemma ChangedPopped(chunks: seq<Chunk>, free: seq<Slot>, free': seq<Slot>, tainted: set<Slot>, stomped: set<Slot>, s: Slot)
    requires stomped <= Members(free) && AllSlots(chunks, free) && forall t :: t in tainted ==> IsSlot(chunks, t)
    requires forall t :: t != s && IsSlot(chunks, t) ==> (t in free' <==> t in free)
    requires s in free || !IsSlot(chunks, s)
    ensures Changed(free', tainted - {s}, stomped - {s}) == Changed(free, tainted, stomped) - {s}
    ensures s in Changed(free, tainted, stomped) <==> s in stomped
  {
  }

  lemma ChangedOverrun(free: seq<Slot>, tainted: set<Slot>, stomped: set<Slot>, s: Slot, value: nat)
    requires stomped <= Members(free)
    ensures var changed, e := Changed(free, tainted, stomped), Overrunning(0, value, s in free);
      Changed(free, if s in free then tainted else Restamped(tainted, s, value), if s in free then Stamped(stomped, s, value) else stomped)
        == if e.Overran? then changed + {s} else changed - {s}
  {
  }

  // ---- The acts on a pool ------------------------------------------------------------------

  /** The story is that of the pool: it accounts for the pool's slots, their bytes, and every report since
      `base`. */
  ghost predicate Sound(pool: MemoryPool, base: seq<Report>, st: Story)
    reads pool, pool.heap
  {
    && pool.Image() == st.image && Retained(pool, st.data)
    && Matches(pool.Lay(), pool.chunks, pool.heap.mem, pool.free, ChangedIn(pool), st.trace)
    && NeverTwice(st.trace) && pool.reports == base + Judge(st.trace)
  }

  /** What happened in the guard of a slot happened in the slot. */
  lemma InSlot(l: Layout, m: Bytes, m': Bytes, p: nat)
    requires LayoutOk(l) && l.hardened && KeptBut(m, m', p + l.blockSize, GUARD_BYTES)
    ensures KeptBut(m, m', p, l.stride)
  {
  }

  /** One allocation. */
  method AllocateOnce(pool: MemoryPool, ghost base: seq<Report>, ghost st: Story)
    requires pool.Valid() && pool.hardened && Sound(pool, base, st)
    modifies pool, pool.heap
    ensures pool.Valid() && pool.Terms() == old(pool.Terms())
    ensures Sound(pool, base, Told(pool.Terms(), pool.blockSize, st, Allocate))
  {
    hide MemoryPool.Valid, Matches, NeverTwice, Judge, ChunksOk, NoDup, KeptBut, AllSlots, LayoutOk, HeapOk, GrownImage;
    hide MemoryPool.CanGrow, Retains, PushedImage, Emptied;
    ghost var k, im, m, changed := pool.Terms(), pool.Image(), pool.heap.mem, ChangedIn(pool);
    pool.Basics();
    CleanOnes(pool);
    PrimedIsReady(k, im);
    var p := Vend(pool, st.data);
    if p != 0 {
      pool.Basics();
      CleanOnes(pool);
      InSlot(pool.Lay(), m, pool.heap.mem, p);
      PopMatches(k, pool.Lay(), im, m, pool.heap.mem, changed, st.trace, p);
      ChangedPopped(im.chunks, im.free, pool.free, old(pool.tainted), old(pool.stomped), PrimedImage(k, im).free[0]);
    }
  }

  lemma FreeMatches(l: Layout, chunks: seq<Chunk>, m: Bytes, m': Bytes, free: seq<Slot>, free': seq<Slot>, changed: set<Slot>,
                    trace: seq<Event>, s: Slot)
    requires LayoutOk(l) && ChunksOk(chunks, l.stride) && ChunksMapped(chunks, l.stride, m)
    requires Matches(l, chunks, m, free, changed, trace) && NeverTwice(trace) && IsSlot(chunks, s)
    requires free' == (if s in free then free else [s] + free)
    requires KeptBut(m, m', Addr(chunks, l.stride, s), l.stride) && Poisoned(l, m', Addr(chunks, l.stride, s))
    ensures var p := Addr(chunks, l.stride, s);
      && Matches(l, chunks, m', free', changed - {s}, trace + [Freed(p)]) && NeverTwice(trace + [Freed(p)])
      && Judge(trace + [Freed(p)]) == Judge(trace) + FreeReport(p, s in free, s in changed)
  {
    var p := Addr(chunks, l.stride, s);
    assert TellsOf(l, chunks, m, free, changed, trace, s);
    assert Drop(trace + [Freed(p)]) == trace;
    PoisonedIsNoDirt(l, m', p);
    JudgeLast(trace, Freed(p));
    MatchesEvent(l, chunks, m, m', free, free', changed, changed - {s}, trace, Freed(p), s);
  }

  lemma OnlyBytesKept(m: Bytes, m': Bytes, a: nat, n: nat)
    requires OnlyBytes(m, m', a, n)
    ensures KeptBut(m, m', a, n)
  {
  }

  /** The trace knows whether the guard of a free slot was changed. */
  lemma ReleaseTold(pool: MemoryPool, p: nat, trace: seq<Event>)
    requires pool.Valid() && pool.hardened && Matches(pool.Lay(), pool.chunks, pool.heap.mem, pool.free, ChangedIn(pool), trace)
    ensures pool.MayFree(p) <==> !(SlotIs(pool.Terms(), pool.Image(), p, true) && After(trace, p).overrun)
  {
    if IsSlotAddress(pool.chunks, pool.Stride(), p) {
      var s := SlotAt(pool.chunks, pool.Stride(), p);
      assert TellsOf(pool.Lay(), pool.chunks, pool.heap.mem, pool.free, ChangedIn(pool), trace, s);
    }
  }

  /** A client's free, of any address: of a slot of this pool it is an event, of another nothing. */
  method ReleaseOnce(pool: MemoryPool, p: size, ghost base: seq<Report>, ghost st: Story)
    requires pool.Valid() && pool.hardened && Sound(pool, base, st)
    modifies pool, pool.heap
    ensures pool.Valid() && pool.Terms() == old(pool.Terms())
    ensures Sound(pool, base, Told(pool.Terms(), pool.blockSize, st, Release(p)))
  {
    hide MemoryPool.Valid, Matches, NeverTwice, Judge, ChunksOk, NoDup, KeptBut, OnlyBytes, LayoutOk, HeapOk, AllSlots, Retains;
    ghost var m, free, changed := pool.heap.mem, pool.free, ChangedIn(pool);
    pool.Basics();
    CleanOnes(pool);
    ReleaseTold(pool, p, st.trace);
    var ok := MayFreeNow(pool, p);
    if ok {
      MemoryPool.Free(pool, p);
      if IsSlotAddress(pool.chunks, pool.Stride(), p) {
        ghost var s := SlotAt(pool.chunks, pool.Stride(), p);
        CleanOnes(pool);
        OnlyBytesKept(m, pool.heap.mem, p, pool.Stride());
        FreeMatches(pool.Lay(), pool.chunks, m, pool.heap.mem, free, pool.free, changed, st.trace, s);
        RetainsElsewhere(pool.Lay(), pool.chunks, pool.chunks, m, pool.heap.mem, free, pool.free, st.data, s);
        assert ChangedIn(pool) == changed - {s};
      }
    }
  }

  /** A byte written into slot `s`; it is an event only if the slot is free. */
  lemma WriteMatches(l: Layout, chunks: seq<Chunk>, m: Bytes, free: seq<Slot>, changed: set<Slot>, trace: seq<Event>,
                     s: Slot, offset: nat, b: byte)
    requires LayoutOk(l) && ChunksOk(chunks, l.stride) && ChunksMapped(chunks, l.stride, m)
    requires Matches(l, chunks, m, free, changed, trace) && NeverTwice(trace) && IsSlot(chunks, s)
    requires s in free && POINTER_BYTES <= offset < l.blockSize
    ensures var p, m' := Addr(chunks, l.stride, s), m[Addr(chunks, l.stride, s) + offset := b];
      var more := trace + [Scribbled(p, offset, b)];
      && Matches(l, chunks, m', free, changed, more) && NeverTwice(more) && Judge(more) == Judge(trace)
  {
    var p := Addr(chunks, l.stride, s);
    var m', e := m[p + offset := b], Scribbled(p, offset, b);
    assert KeptBut(m, m', p, l.stride);
    hide Judge, NeverTwice, LayoutOk, ChunksOk, ChunksMapped;
    assert TellsOf(l, chunks, m, free, changed, trace, s);
    assert Drop(trace + [e]) == trace;
    ByteDirt(l, m, p, offset, b);
    JudgeLast(trace, e);
    MatchesEvent(l, chunks, m, m', free, free, changed, changed, trace, e, s);
  }

  lemma ByteDirt(l: Layout, m: Bytes, p: nat, offset: nat, b: byte)
    requires POINTER_BYTES <= offset < l.blockSize
    ensures Dirt(l, m[p + offset := b], p)
      == if b == POISON_BYTE then Dirt(l, m, p) - {offset} else Dirt(l, m, p) + {offset}
  {
  }

  /** A byte written into a live slot is nothing to the trace. */
  lemma LiveWriteMatches(l: Layout, chunks: seq<Chunk>, m: Bytes, m': Bytes, free: seq<Slot>, changed: set<Slot>, changed': set<Slot>,
                         trace: seq<Event>, s: Slot)
    requires LayoutOk(l) && ChunksOk(chunks, l.stride) && ChunksMapped(chunks, l.stride, m)
    requires Matches(l, chunks, m, free, changed, trace) && IsSlot(chunks, s) && s !in free
    requires KeptBut(m, m', Addr(chunks, l.stride, s), l.stride) && changed' == changed
    ensures Matches(l, chunks, m', free, changed', trace)
  {
    forall t | IsSlot(chunks, t)
      ensures TellsOf(l, chunks, m', free, changed', trace, t)
    {
      assert TellsOf(l, chunks, m, free, changed, trace, t);
      if t != s {
        DirtElsewhere(l, chunks, m, m', s, t);
      }
    }
  }

  lemma OverrunMatches(l: Layout, chunks: seq<Chunk>, m: Bytes, m': Bytes, free: seq<Slot>, changed: set<Slot>, trace: seq<Event>,
                       s: Slot, value: nat)
    requires LayoutOk(l) && ChunksOk(chunks, l.stride) && ChunksMapped(chunks, l.stride, m)
    requires Matches(l, chunks, m, free, changed, trace) && NeverTwice(trace) && IsSlot(chunks, s)
    requires var p := Addr(chunks, l.stride, s); KeptBut(m, m', p, l.stride) && Dirt(l, m', p) == Dirt(l, m, p)
    ensures var e := Overrunning(Addr(chunks, l.stride, s), value, s in free);
      && Matches(l, chunks, m', free, if e.Overran? then changed + {s} else changed - {s}, trace + [e])
      && NeverTwice(trace + [e]) && Judge(trace + [e]) == Judge(trace)
  {
    var e := Overrunning(Addr(chunks, l.stride, s), value, s in free);
    assert TellsOf(l, chunks, m, free, changed, trace, s);
    assert Drop(trace + [e]) == trace;
    JudgeLast(trace, e);
    MatchesEvent(l, chunks, m, m', free, free, changed, if e.Overran? then changed + {s} else changed - {s}, trace, e, s);
  }

  /** Whether the slot at `p`, if it is one, is free. */
  method Inspect(pool: MemoryPool, p: size) returns (isSlot: bool, isFree: bool)
    requires pool.Valid()
    modifies pool`reports
    ensures pool.Valid() && pool.reports == old(pool.reports)
    ensures isSlot <==> IsSlotAddress(pool.chunks, pool.Stride(), p)
    ensures isSlot ==> (isFree <==> SlotAt(pool.chunks, pool.Stride(), p) in pool.free)
  {
    hide MemoryPool.Valid;
    isFree := false;
    isSlot := InRange(pool, p);
    if isSlot {
      isFree := OnFreeList(pool, p);
    }
  }

  /** A client's write into the block at `p`. Every one of them is done, but to the link of a free slot. */
  method WriteOnce(pool: MemoryPool, p: size, offset: nat, b: byte, ghost base: seq<Report>, ghost st: Story)
    requires pool.Valid() && pool.hardened && Sound(pool, base, st)
    modifies pool`tainted, pool`reports, pool.heap`mem
    ensures pool.Valid() && Sound(pool, base, Told(pool.Terms(), pool.blockSize, st, Write(p, offset, b)))
    ensures pool.heap.mem ==
      if offset < pool.blockSize && IsSlotAddress(pool.chunks, pool.Stride(), p)
         && (SlotAt(pool.chunks, pool.Stride(), p) in pool.free ==> offset >= POINTER_BYTES)
      then old(pool.heap.mem)[p + offset := b] else old(pool.heap.mem)
  {
    hide MemoryPool.Valid, Matches, NeverTwice, Judge, ChunksOk, NoDup, HeapOk, Retains;
    hide PrimedImage, PoppedImage, PushedImage, VendedAddress, Emptied, AllSlots, LayoutOk, OnlyBytes;
    pool.Basics();
    ghost var m, changed := pool.heap.mem, ChangedIn(pool);
    var isSlot, isFree := Inspect(pool, p);
    if isSlot && offset < pool.blockSize {
      ghost var s := SlotAt(pool.chunks, pool.Stride(), p);
      if !isFree {
        WriteLive(pool, s, p + offset, b);
        LiveWriteMatches(pool.Lay(), pool.chunks, m, pool.heap.mem, pool.free, changed, ChangedIn(pool), st.trace, s);
        WriteRetains(pool.Lay(), pool.chunks, m, pool.free, st.data, s, offset, b);
      } else if offset >= POINTER_BYTES {
        WriteMatches(pool.Lay(), pool.chunks, m, pool.free, changed, st.trace, s, offset, b);
        FreeRetains(pool.Lay(), pool.chunks, m, m[p + offset := b], pool.free, st.data, s);
        Scribble(pool, s, p + offset, b);
        assert ChangedIn(pool) == changed;
      }
    }
  }

  lemma GuardDirt(pool: MemoryPool, s: Slot, value: nat)
    requires pool.Valid() && pool.hardened && IsSlot(pool.chunks, s) && value < WORD_LIMIT
    ensures var l, m, p := pool.Lay(), pool.heap.mem, pool.AddrOf(s);
      && Dirt(l, StoreWord(m, p + l.blockSize, value), p) == Dirt(l, m, p)
      && KeptBut(m, StoreWord(m, p + l.blockSize, value), p, l.stride)
      && KeptBut(m, StoreWord(m, p + l.blockSize, value), p + l.blockSize, GUARD_BYTES)
  {
    pool.SlotAtHand(s);
    GuardStored(pool.Lay(), pool.heap.mem, pool.AddrOf(s), value);
  }

  /** What a write over the guard of slot `s` comes to. */
  lemma OverwriteMatches(pool: MemoryPool, base: seq<Report>, st: Story, s: Slot, value: nat)
    requires pool.Valid() && pool.hardened && Sound(pool, base, st) && IsSlot(pool.chunks, s) && value < WORD_LIMIT
    ensures var p := pool.AddrOf(s);
      var m', e := StoreWord(pool.heap.mem, p + pool.blockSize, value), Overrunning(p, value, s in pool.free);
      var tainted := if s in pool.free then pool.tainted else Restamped(pool.tainted, s, value);
      var stomped := if s in pool.free then Stamped(pool.stomped, s, value) else pool.stomped;
      && Matches(pool.Lay(), pool.chunks, m', pool.free, Changed(pool.free, tainted, stomped), st.trace + [e])
      && NeverTwice(st.trace + [e]) && Judge(st.trace + [e]) == Judge(st.trace)
      && Retains(pool.Lay(), pool.chunks, m', pool.free, st.data)
  {
    hide MemoryPool.Valid, Matches, NeverTwice, Judge, ChunksOk, Changed, Dirt, Restamped, Stamped, KeptBut, Retains;
    var m, p := pool.heap.mem, pool.AddrOf(s);
    var m' := StoreWord(m, p + pool.blockSize, value);
    pool.Basics();
    GuardDirt(pool, s, value);
    GuardRetains(pool.Lay(), pool.chunks, m, m', pool.free, st.data, s);
    CleanOnes(pool);
    ChangedOverrun(pool.free, pool.tainted, pool.stomped, s, value);
    OverrunMatches(pool.Lay(), pool.chunks, m, m', pool.free, ChangedIn(pool), st.trace, s, value);
  }

  /** A client's write over the guard of the slot at `p`, whether it is free or not. */
  method OverwriteOnce(pool: MemoryPool, p: size, value: nat, ghost base: seq<Report>, ghost st: Story)
    requires pool.Valid() && pool.hardened && Sound(pool, base, st)
    modifies pool`tainted, pool`stomped, pool`reports, pool.heap`mem
    ensures pool.Valid() && Sound(pool, base, Told(pool.Terms(), pool.blockSize, st, Overwrite(p, value)))
    ensures pool.heap.mem ==
      if IsSlotAddress(pool.chunks, pool.Stride(), p) && value < WORD_LIMIT
         && (SlotAt(pool.chunks, pool.Stride(), p) !in pool.free ==> value != GUARD_FREED)
      then StoreWord(old(pool.heap.mem), p + pool.blockSize, value) else old(pool.heap.mem)
  {
    hide MemoryPool.Valid, Matches, NeverTwice, Judge, ChunksOk, NoDup, HeapOk, Changed, Restamped, Stamped, Retains;
    hide PrimedImage, PoppedImage, PushedImage, VendedAddress, Emptied, AllSlots;
    pool.Basics();
    var isSlot, isFree := Inspect(pool, p);
    if isSlot && value < WORD_LIMIT && (isFree || value != GUARD_FREED) {
      ghost var s := SlotAt(pool.chunks, pool.Stride(), p);
      OverwriteMatches(pool, base, st, s, value);
      if isFree {
        Stomp(pool, s, p, value);
      } else {
        Overrun(pool, s, p, value);
      }
    }
  }

  /** One act: the pool, the reports and the bytes in the blocks are what the act comes to. */
  method Perform(pool: MemoryPool, act: Act, ghost base: seq<Report>, ghost st: Story)
    requires pool.Valid() && pool.hardened && Sound(pool, base, st)
    modifies pool, pool.heap
    ensures pool.Valid() && pool.Terms() == old(pool.Terms())
    ensures Sound(pool, base, Told(pool.Terms(), pool.blockSize, st, act))
  {
    hide Sound, MemoryPool.Valid, Told;
    if act.Allocate? {
      AllocateOnce(pool, base, st);
    } else if act.Release? {
      ReleaseOnce(pool, act.p, base, st);
    } else if act.Write? {
      WriteOnce(pool, act.p, act.offset, act.b, base, st);
    } else {
      OverwriteOnce(pool, act.p, act.value, base, st);
    }
  }

  /** Before anything was done to a pool, its slots are all free and clean. */
  lemma NothingYet(pool: MemoryPool)
    requires pool.Valid() && pool.hardened && pool.tainted == {} == pool.stomped
    requires forall s :: IsSlot(pool.chunks, s) ==> s in pool.free
    ensures Sound(pool, pool.reports, Story(pool.Image(), [], map[]))
  {
    forall s | IsSlot(pool.chunks, s)
      ensures TellsOf(pool.Lay(), pool.chunks, pool.heap.mem, pool.free, {}, [], s)
    {
      pool.TaintShows(s);
      PoisonedIsNoDirt(pool.Lay(), pool.heap.mem, pool.AddrOf(s));
      assert After([], pool.AddrOf(s)) == Free({}, false);
    }
    assert ChangedIn(pool) == {};
    assert pool.reports == pool.reports + [];
  }

  /** Whatever clients do to a new hardened pool: the pool is what the acts come to, each block that is out
      holds the bytes written to it, whatever was done to other slots, and the reports are the judgement of that trace: a double free for each free of a free slot, a
      use after free for each slot vended whose payload was not all poison, a corrupt free list for each slot
      vended whose guard was left changed, an overflow for each free of a live slot whose guard was, and no
      others. No slot is vended while it is out. */
  method Audit(pool: MemoryPool, acts: seq<Act>) returns (ghost st: Story)
    requires pool.Valid() && pool.hardened && pool.tainted == {} == pool.stomped
    requires forall s :: IsSlot(pool.chunks, s) ==> s in pool.free
    modifies pool, pool.heap
    ensures st == StoryOf(old(pool.Terms()), pool.blockSize, Story(old(pool.Image()), [], map[]), acts, |acts|)
    ensures pool.Valid() && pool.Image() == st.image && Retained(pool, st.data)
    ensures pool.reports == old(pool.reports) + Judge(st.trace) && NeverTwice(st.trace)
    ensures Matches(pool.Lay(), pool.chunks, pool.heap.mem, pool.free, ChangedIn(pool), st.trace)
  {
    NothingYet(pool);
    ghost var base, k, start := pool.reports, pool.Terms(), Story(pool.Image(), [], map[]);
    st := start;
    for i := 0 to |acts|
      invariant pool.Valid() && Sound(pool, base, st) && pool.Terms() == k
      invariant st == StoryOf(k, pool.blockSize, start, acts, i)
    {
      hide Sound, MemoryPool.Valid, Told;
      Perform(pool, acts[i], base, st);
      st := Told(k, pool.blockSize, st, acts[i]);
    }
  }
}
