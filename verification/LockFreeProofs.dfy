/** Every run of the lock-free policy is a run of an atomic LIFO stack. */
module LockFreeProofs {
  import opened Common
  import opened Arithmetic
  import opened Words
  import opened LockFree

  // ---- One step ----------------------------------------------------------------------------

  lemma EncodeRoundTrip(c: Config, slot: nat, value: nat)
    ensures Encode(c.hardened, slot, Encode(c.hardened, slot, value)) == value
  {
    XorLinkRoundTrip(slot, value);
  }

  /** Two dates less than a full turn of the tag apart carry the same tag only if they are equal. */
  lemma TagDates(early: nat, late: nat, m: nat)
    requires m > 0 && early <= late < early + m
    requires early % m == late % m
    ensures early == late
  {
    var q := late / m - early / m;
    assert late - early == m * q;
    assert q == 0;
  }

  lemma NextTagCounts(c: Config, swaps: nat)
    ensures NextTag(c, swaps % Pow2(c.tagBits)) == (swaps + 1) % Pow2(c.tagBits)
  {
    var m := Pow2(c.tagBits);
    var q, r := swaps / m, swaps % m;
    assert swaps + 1 == m * q + (r + 1);
    if r + 1 == m {
      assert swaps + 1 == m * (q + 1) + 0;
      QuotientUnique(swaps + 1, m, q + 1, 0);
      QuotientUnique(r + 1, m, 1, 0);
    } else {
      QuotientUnique(swaps + 1, m, q, r + 1);
      QuotientUnique(r + 1, m, 0, r + 1);
    }
  }

  /** What a thread holds is not on the stack. */
  lemma HeldOffStack(c: Config, s: State, h: History, t: nat, b: nat)
    requires OwnersOk(c, s, h) && t < |s.threads| && b in Holds(s.threads[t])
    ensures b in c.slots && b !in h.stack && h.owner[b] == By(t)
  {
  }

  lemma HeadIsTop(c: Config, s: State, h: History)
    requires ConfigOk(c) && MemoryOk(c, s) && ChainOk(c, s, h)
    ensures if s.head.ptr == NULL then h.stack == [] else h.stack != [] && h.stack[0] == s.head.ptr
    ensures h.stack != [] ==> LinkedAt(c, s.mem, h.stack, 0) && h.stack[0] in c.slots
  {
    if h.stack != [] {
      assert LinkedAt(c, s.mem, h.stack, 0);
    }
  }

  /** The step's event is one the stack allows. */
  lemma EventLegal(c: Config, s: State, h: History, a: Action)
    requires ConfigOk(c) && MemoryOk(c, s) && ChainOk(c, s, h) && OwnersOk(c, s, h) && Enabled(s, a)
    requires a.Run? && s.threads[a.t].pc.PopRead? ==> s.threads[a.t].pc.expected.ptr != NULL
    ensures Legal(h.stack, EventOf(s, a))
  {
    HeadIsTop(c, s, h);
    if a.Run? && s.threads[a.t].pc.PushWritten? {
      HeldOffStack(c, s, h, a.t, s.threads[a.t].pc.block);
    }
  }

  /** `s'` differs from `s` in thread `t` alone, and in memory only at slots `t` holds. */
  ghost predicate Local(c: Config, s: State, s': State, t: nat)
    requires t < |s.threads|
  {
    && MemoryOk(c, s') && s'.mem.Keys == s.mem.Keys
    && (forall b :: b in s.mem && b !in Holds(s.threads[t]) ==> s'.mem[b] == s.mem[b])
    && |s'.threads| == |s.threads|
    && (forall u :: 0 <= u < |s.threads| && u != t ==> s'.threads[u].pc == s.threads[u].pc)
  }

  lemma HardeningIsLocal(c: Config, s: State, t: nat)
    requires MemoryOk(c, s) && t < |s.threads|
    requires InFlight(s.threads[t].pc) != {} && s.threads[t].pc.block in s.mem
    ensures Local(c, s, HardeningStep(c, s, t, s.threads[t].pc.block), t)
  {
  }

  lemma RunIsLocal(c: Config, s: State, t: nat, spurious: bool)
    requires MemoryOk(c, s) && t < |s.threads|
    ensures Local(c, s, RunStep(c, s, t, spurious), t)
  {
    var pc := s.threads[t].pc;
    if InFlight(pc) != {} && pc.block in s.mem {
      HardeningIsLocal(c, s, t);
    }
  }

  /** A step touches the memory of no slot but those its thread holds, and no other thread's
      program. */
  lemma StepIsLocal(c: Config, s: State, a: Action)
    requires MemoryOk(c, s) && Enabled(s, a)
    ensures Local(c, s, Next(c, s, a), a.t)
  {
    if a.Run? {
      RunIsLocal(c, s, a.t, a.spurious);
    }
  }

  lemma StackUntouched(c: Config, s: State, h: History, a: Action)
    requires MemoryOk(c, s) && OwnersOk(c, s, h) && Enabled(s, a)
    ensures forall b :: b in h.stack && b in s.mem ==> b in Next(c, s, a).mem && Next(c, s, a).mem[b] == s.mem[b]
  {
    StepIsLocal(c, s, a);
    forall b | b in h.stack && b in s.mem
      ensures b !in Holds(s.threads[a.t])
    {
      if b in Holds(s.threads[a.t]) {
        HeldOffStack(c, s, h, a.t, b);
      }
    }
  }

  // ---- The chain ---------------------------------------------------------------------------

  lemma ChainKept(c: Config, s: State, h: History, s': State, h': History)
    requires ChainOk(c, s, h) && s'.head == s.head && h'.stack == h.stack && h'.swaps == h.swaps
    requires forall b :: b in h.stack && b in s.mem ==> b in s'.mem && s'.mem[b] == s.mem[b]
    ensures ChainOk(c, s', h')
  {
    forall i | 0 <= i < |h'.stack|
      ensures LinkedAt(c, s'.mem, h'.stack, i)
    {
      assert LinkedAt(c, s.mem, h.stack, i);
    }
  }

  lemma ChainPopped(c: Config, s: State, h: History, s': State, h': History)
    requires ChainOk(c, s, h) && h.stack != [] && h'.stack == h.stack[1..] && h'.swaps == h.swaps + 1
    requires s'.mem == s.mem && s'.head == Head(Successor(h.stack, 0), NextTag(c, s.head.tag))
    ensures ChainOk(c, s', h')
  {
    NextTagCounts(c, h.swaps);
    forall i | 0 <= i < |h'.stack|
      ensures LinkedAt(c, s'.mem, h'.stack, i)
    {
      assert LinkedAt(c, s.mem, h.stack, i + 1);
    }
  }

  lemma ChainPushed(c: Config, s: State, h: History, s': State, h': History, b: nat)
    requires ChainOk(c, s, h) && b !in h.stack && b in s.mem && Encode(c.hardened, b, s.mem[b].link) == s.head.ptr
    requires h'.stack == [b] + h.stack && h'.swaps == h.swaps + 1
    requires s'.mem == s.mem && s'.head == Head(b, NextTag(c, s.head.tag))
    ensures ChainOk(c, s', h')
  {
    NextTagCounts(c, h.swaps);
    forall i | 0 <= i < |h'.stack|
      ensures LinkedAt(c, s'.mem, h'.stack, i)
    {
      assert i > 0 ==> LinkedAt(c, s.mem, h.stack, i - 1);
    }
  }

  /** The load a timely compare-exchange relies on is still current if the exchange succeeds: equal
      tags mean equal dates, so the link it read is the true successor. */
  lemma TimelyIsCurrent(c: Config, s: State, h: History, a: Action)
    requires Enabled(s, a) && EventOf(s, a).Pop? && Timely(c, s, h, a) && |h.loadedAt| == |s.threads|
    requires ChainOk(c, s, h) && ThreadOk(c, s, h, a.t)
    ensures h.loadedAt[a.t] == h.swaps && s.threads[a.t].pc.next == Successor(h.stack, 0)
  {
    TagDates(h.loadedAt[a.t], h.swaps, Pow2(c.tagBits));
  }

  lemma PopEffect(c: Config, s: State, h: History, a: Action)
    requires Enabled(s, a) && |h.loadedAt| == |s.threads| && EventOf(s, a).Pop? && Legal(h.stack, EventOf(s, a))
    ensures var s', h', pc := Next(c, s, a), NextHistory(s, h, a), s.threads[a.t].pc;
      && s'.mem == s.mem && s'.head == Head(pc.next, NextTag(c, s.head.tag))
      && h'.stack == h.stack[1..] && h'.swaps == h.swaps + 1
  {
  }

  lemma PushEffect(c: Config, s: State, h: History, a: Action)
    requires Enabled(s, a) && |h.loadedAt| == |s.threads| && EventOf(s, a).Push? && Legal(h.stack, EventOf(s, a))
    ensures var s', h', pc := Next(c, s, a), NextHistory(s, h, a), s.threads[a.t].pc;
      && s'.mem == s.mem && s'.head == Head(pc.block, NextTag(c, s.head.tag))
      && h'.stack == [pc.block] + h.stack && h'.swaps == h.swaps + 1
  {
  }

  lemma SilentEffect(c: Config, s: State, h: History, a: Action)
    requires Enabled(s, a) && |h.loadedAt| == |s.threads| && Legal(h.stack, EventOf(s, a))
    requires !EventOf(s, a).Pop? && !EventOf(s, a).Push?
    ensures var s', h' := Next(c, s, a), NextHistory(s, h, a);
      s'.head == s.head && h'.stack == h.stack && h'.swaps == h.swaps
  {
  }

  lemma ChainStep(c: Config, s: State, h: History, a: Action)
    requires ConfigOk(c) && MemoryOk(c, s) && ChainOk(c, s, h) && OwnersOk(c, s, h) && Enabled(s, a)
    requires |h.loadedAt| == |s.threads| && ThreadOk(c, s, h, a.t)
    requires Timely(c, s, h, a) && Legal(h.stack, EventOf(s, a))
    ensures ChainOk(c, Next(c, s, a), NextHistory(s, h, a))
  {
    var s', h' := Next(c, s, a), NextHistory(s, h, a);
    if EventOf(s, a).Pop? {
      TimelyIsCurrent(c, s, h, a);
      PopEffect(c, s, h, a);
      ChainPopped(c, s, h, s', h');
    } else if EventOf(s, a).Push? {
      PushEffect(c, s, h, a);
      ChainPushed(c, s, h, s', h', s.threads[a.t].pc.block);
    } else {
      SilentEffect(c, s, h, a);
      StackUntouched(c, s, h, a);
      ChainKept(c, s, h, s', h');
    }
  }

  // ---- Who holds what ----------------------------------------------------------------------

  ghost predicate Apart(th: Thread) {
    th.owned !! InFlight(th.pc)
  }

  /** Thread `t` holds `gain` more and `loss` less than before, and all other threads but `u` hold
      the same. */
  ghost predicate HoldsChange(s: State, s': State, t: nat, gain: set<nat>, loss: set<nat>) {
    && |s'.threads| == |s.threads| && t < |s.threads|
    && Apart(s'.threads[t])
    && Holds(s'.threads[t]) == Holds(s.threads[t]) + gain - loss
    && forall u :: 0 <= u < |s.threads| && u != t ==> s'.threads[u] == s.threads[u]
  }

  /** No step but the swapping ones, and a hand-over, changes what anyone holds. A free that
      detected a double free would drop its block, but then it never held it. */
  lemma HoldsStep(c: Config, s: State, a: Action)
    requires Enabled(s, a) && !a.HandOver? && Apart(s.threads[a.t])
    requires a.Run? && s.threads[a.t].pc.FreeStamp? ==> !s.threads[a.t].pc.doubleFree
    requires EventOf(s, a).Pop? ==> EventOf(s, a).block !in s.threads[a.t].owned
    ensures HoldsChange(s, Next(c, s, a), a.t,
                        if EventOf(s, a).Pop? then {EventOf(s, a).block} else {},
                        if EventOf(s, a).Push? then {EventOf(s, a).block} else {})
  {
    var pc := s.threads[a.t].pc;
    if a.Run? && InFlight(pc) != {} && pc.block in s.mem && !pc.PushLoad? && !pc.PushLoaded? && !pc.PushWritten? {
      HardeningHolds(c, s, a.t);
    }
  }

  lemma HardeningHolds(c: Config, s: State, t: nat)
    requires t < |s.threads| && Apart(s.threads[t])
    requires InFlight(s.threads[t].pc) != {} && s.threads[t].pc.block in s.mem
    requires s.threads[t].pc.FreeStamp? ==> !s.threads[t].pc.doubleFree
    ensures HoldsChange(s, HardeningStep(c, s, t, s.threads[t].pc.block), t, {}, {})
  {
  }

  lemma OwnersChanged(c: Config, s: State, h: History, s': State, h': History, t: nat, gain: set<nat>, loss: set<nat>)
    requires OwnersOk(c, s, h) && HoldsChange(s, s', t, gain, loss) && gain <= c.slots
    requires h'.owner.Keys == c.slots
    requires forall b :: b in c.slots ==> (b in h'.stack <==> h'.owner[b] == OnStack)
    requires forall b :: b in gain ==> h.owner[b] == OnStack
    requires forall b :: b in c.slots ==>
      h'.owner[b] == if b in loss then OnStack else if b in gain then By(t) else h.owner[b]
    requires loss <= Holds(s.threads[t]) && loss !! gain
    ensures OwnersOk(c, s', h')
  {
    forall u, b | 0 <= u < |s'.threads| && b in c.slots
      ensures b in Holds(s'.threads[u]) <==> h'.owner[b] == By(u)
    {
      assert b in Holds(s.threads[u]) <==> h.owner[b] == By(u);
      assert b in Holds(s.threads[t]) <==> h.owner[b] == By(t);
    }
  }

  lemma TailMembers(stack: seq<nat>, b: nat)
    requires NoDup(stack) && stack != []
    ensures b in stack[1..] <==> b in stack && b != stack[0]
  {
    assert stack == [stack[0]] + stack[1..];
    if b in stack[1..] {
      var i :| 0 <= i < |stack[1..]| && stack[1..][i] == b;
      assert stack[i + 1] == b && stack[0] != stack[i + 1];
    }
  }

  /** Popping the top or pushing a new block keeps "on the stack" and "owned by the stack" the same. */
  lemma StackOwners(c: Config, s: State, h: History, a: Action)
    requires h.owner.Keys == c.slots && (forall b :: b in c.slots ==> (b in h.stack <==> h.owner[b] == OnStack))
    requires NoDup(h.stack) && Enabled(s, a) && |h.loadedAt| == |s.threads|
    requires Legal(h.stack, EventOf(s, a)) && !a.HandOver?
    requires EventOf(s, a).Push? || EventOf(s, a).Pop? ==> EventOf(s, a).block in c.slots
    ensures var h' := NextHistory(s, h, a);
      && h'.owner.Keys == c.slots
      && forall b :: b in c.slots ==> (b in h'.stack <==> h'.owner[b] == OnStack)
  {
    var e, h' := EventOf(s, a), NextHistory(s, h, a);
    if e.Pop? {
      forall b | b in c.slots
        ensures b in h'.stack <==> b in h.stack && b != e.block
      {
        TailMembers(h.stack, b);
      }
    }
  }

  /** A hand-over takes the block from the one thread and gives it to the other. */
  lemma HandOverEffect(c: Config, s: State, h: History, a: Action)
    requires Enabled(s, a) && a.HandOver? && |h.loadedAt| == |s.threads| && Apart(s.threads[a.t]) && Apart(s.threads[a.to])
    requires a.block !in Holds(s.threads[a.to])
    ensures var s', h' := Next(c, s, a), NextHistory(s, h, a);
      && |s'.threads| == |s.threads| && h'.stack == h.stack && h'.owner == h.owner[a.block := By(a.to)]
      && Holds(s'.threads[a.t]) == Holds(s.threads[a.t]) - {a.block} && Apart(s'.threads[a.t])
      && Holds(s'.threads[a.to]) == Holds(s.threads[a.to]) + {a.block} && Apart(s'.threads[a.to])
      && forall u :: 0 <= u < |s.threads| && u != a.t && u != a.to ==> s'.threads[u] == s.threads[u]
  {
  }

  lemma OwnersHandedOver(c: Config, s: State, h: History, a: Action)
    requires OwnersOk(c, s, h) && Enabled(s, a) && a.HandOver? && |h.loadedAt| == |s.threads|
    ensures OwnersOk(c, Next(c, s, a), NextHistory(s, h, a))
  {
    hide Next, NextHistory;
    var s', h' := Next(c, s, a), NextHistory(s, h, a);
    var b0 := a.block;
    HeldOffStack(c, s, h, a.t, b0);
    assert b0 !in Holds(s.threads[a.to]);
    assert Apart(s.threads[a.t]) && Apart(s.threads[a.to]);
    HandOverEffect(c, s, h, a);
    forall u | 0 <= u < |s'.threads|
      ensures Apart(s'.threads[u])
    {
      assert Apart(s.threads[u]);
    }
    forall u, b | 0 <= u < |s'.threads| && b in c.slots
      ensures b in Holds(s'.threads[u]) <==> h'.owner[b] == By(u)
    {
      assert b in Holds(s.threads[u]) <==> h.owner[b] == By(u);
    }
    assert h.owner[b0] != By(a.to);
  }

  lemma OwnersStep(c: Config, s: State, h: History, a: Action)
    requires ConfigOk(c) && MemoryOk(c, s) && ChainOk(c, s, h) && OwnersOk(c, s, h) && Enabled(s, a)
    requires |h.loadedAt| == |s.threads| && Legal(h.stack, EventOf(s, a))
    requires a.Run? && s.threads[a.t].pc.FreeStamp? ==> !s.threads[a.t].pc.doubleFree
    ensures OwnersOk(c, Next(c, s, a), NextHistory(s, h, a))
  {
    if a.HandOver? {
      OwnersHandedOver(c, s, h, a);
      return;
    }
    var s', h', e := Next(c, s, a), NextHistory(s, h, a), EventOf(s, a);
    assert Apart(s.threads[a.t]);
    var gain := if e.Pop? then {e.block} else {};
    var loss := if e.Push? then {e.block} else {};
    if e.Pop? {
      assert LinkedAt(c, s.mem, h.stack, 0);
      assert h.owner[e.block] == OnStack;
    }
    if e.Push? {
      HeldOffStack(c, s, h, a.t, e.block);
    }
    HoldsStep(c, s, a);
    StackOwners(c, s, h, a);
    OwnersChanged(c, s, h, s', h', a.t, gain, loss);
  }

  // ---- What each thread knows --------------------------------------------------------------

  /** A thread that does not move keeps what it knows: a swap by another only makes its snapshot
      out of date. */
  lemma BystanderOk(c: Config, s: State, h: History, s': State, h': History, u: nat)
    requires u < |s.threads| == |s'.threads| == |h.loadedAt| == |h'.loadedAt| && ThreadOk(c, s, h, u)
    requires s'.threads[u].pc == s.threads[u].pc && h'.loadedAt[u] == h.loadedAt[u]
    requires (h'.swaps == h.swaps && s'.head == s.head && h'.stack == h.stack) || h'.swaps == h.swaps + 1
    requires forall b :: b in InFlight(s.threads[u].pc) && b in s.mem ==> b in s'.mem && s'.mem[b] == s.mem[b]
    ensures ThreadOk(c, s', h', u)
  {
  }

  lemma HardeningThreadOk(c: Config, s: State, h: History, t: nat)
    requires t < |s.threads| == |h.loadedAt| && ThreadOk(c, s, h, t)
    requires InFlight(s.threads[t].pc) != {} && s.threads[t].pc.block in s.mem
    requires !s.threads[t].pc.PushLoad? && !s.threads[t].pc.PushLoaded? && !s.threads[t].pc.PushWritten?
    ensures ThreadOk(c, HardeningStep(c, s, t, s.threads[t].pc.block), h, t)
  {
  }

  /** The speculative read: if no exchange succeeded since the load, it read the true successor. */
  lemma ReadThreadOk(c: Config, s: State, h: History, t: nat, e: Head)
    requires MemoryOk(c, s) && ChainOk(c, s, h) && ConfigOk(c) && t < |s.threads| == |h.loadedAt|
    requires ThreadOk(c, s, h, t) && s.threads[t].pc == PopLoaded(e)
    ensures ThreadOk(c, ReadLink(c, s, t, e), h, t)
  {
    HeadIsTop(c, s, h);
  }

  lemma LoadThreadOk(c: Config, s: State, h: History, s': State, h': History, t: nat)
    requires MemoryOk(c, s) && ChainOk(c, s, h) && ConfigOk(c)
    requires t < |s.threads| == |h.loadedAt| && |s'.threads| == |s.threads|
    requires s' == PopWith(s, t) && h' == h.(loadedAt := h.loadedAt[t := h.swaps])
    ensures ThreadOk(c, s', h', t)
  {
    HeadIsTop(c, s, h);
  }

  lemma PopCasThreadOk(c: Config, s: State, h: History, a: Action)
    requires ConfigOk(c) && MemoryOk(c, s) && ChainOk(c, s, h)
    requires Enabled(s, a) && a.Run? && s.threads[a.t].pc.PopRead?
    requires |h.loadedAt| == |s.threads| && Legal(h.stack, EventOf(s, a))
    ensures ThreadOk(c, Next(c, s, a), NextHistory(s, h, a), a.t)
  {
    if !EventOf(s, a).Pop? {
      LoadThreadOk(c, s, h, Next(c, s, a), NextHistory(s, h, a), a.t);
    }
  }

  lemma PushThreadOk(c: Config, s: State, h: History, a: Action)
    requires ConfigOk(c) && MemoryOk(c, s) && ChainOk(c, s, h) && Enabled(s, a) && a.Run?
    requires |h.loadedAt| == |s.threads| && ThreadOk(c, s, h, a.t) && Legal(h.stack, EventOf(s, a))
    requires var pc := s.threads[a.t].pc; pc.PushLoad? || pc.PushLoaded? || pc.PushWritten?
    ensures ThreadOk(c, Next(c, s, a), NextHistory(s, h, a), a.t)
  {
    var pc := s.threads[a.t].pc;
    if pc.PushLoaded? {
      EncodeRoundTrip(c, pc.block, pc.expected.ptr);
    }
  }

  /** The thread that moves knows what its new place in the program needs. */
  lemma MoverOk(c: Config, s: State, h: History, a: Action)
    requires ConfigOk(c) && MemoryOk(c, s) && ChainOk(c, s, h) && Enabled(s, a) && a.Run?
    requires |h.loadedAt| == |s.threads| && ThreadOk(c, s, h, a.t) && Legal(h.stack, EventOf(s, a))
    requires InFlight(s.threads[a.t].pc) <= s.mem.Keys
    ensures ThreadOk(c, Next(c, s, a), NextHistory(s, h, a), a.t)
  {
    var pc := s.threads[a.t].pc;
    match pc {
      case PopLoaded(e) => ReadThreadOk(c, s, h, a.t, e);
      case PopRead(_, _) => PopCasThreadOk(c, s, h, a);
      case PushLoad(_) => PushThreadOk(c, s, h, a);
      case PushLoaded(_, _) => PushThreadOk(c, s, h, a);
      case PushWritten(_, _) => PushThreadOk(c, s, h, a);
      case _ => HardeningThreadOk(c, s, h, a.t);
    }
  }

  lemma ClientMoverOk(c: Config, s: State, h: History, a: Action)
    requires ConfigOk(c) && MemoryOk(c, s) && ChainOk(c, s, h) && OwnersOk(c, s, h) && Enabled(s, a) && !a.Run?
    requires |h.loadedAt| == |s.threads| && ThreadOk(c, s, h, a.t) && Legal(h.stack, EventOf(s, a))
    ensures ThreadOk(c, Next(c, s, a), NextHistory(s, h, a), a.t)
  {
    if a.BeginPop? {
      LoadThreadOk(c, s, h, Next(c, s, a), NextHistory(s, h, a), a.t);
    } else if a.Write? {
      assert Apart(s.threads[a.t]);
      assert !(s.threads[a.t].pc.PushWritten? && s.threads[a.t].pc.block == a.block);
    }
  }

  // ---- Hardening: correct clients are never reported ---------------------------------------

  /** No step of a thread whose program phase matches its block's stamps reports anything, and no
      step leaves the pool's memory. */
  lemma NoReport(c: Config, s: State, h: History, a: Action)
    requires ConfigOk(c) && MemoryOk(c, s) && Enabled(s, a) && a.Run?
    requires |h.loadedAt| == |s.threads| && ThreadOk(c, s, h, a.t)
    requires InFlight(s.threads[a.t].pc) <= s.mem.Keys && (c.hardened ==> PhaseOk(s, a.t))
    ensures Next(c, s, a).reports == s.reports && Next(c, s, a).fault == s.fault
  {
  }

  lemma HardeningPhase(c: Config, s: State, t: nat)
    requires MemoryOk(c, s) && t < |s.threads| && Apart(s.threads[t]) && PhaseOk(s, t)
    requires InFlight(s.threads[t].pc) != {} && s.threads[t].pc.block in s.mem
    requires !s.threads[t].pc.PushLoad? && !s.threads[t].pc.PushLoaded? && !s.threads[t].pc.PushWritten?
    ensures PhaseOk(HardeningStep(c, s, t, s.threads[t].pc.block), t)
  {
  }

  lemma RunPhase(c: Config, s: State, a: Action)
    requires MemoryOk(c, s) && Enabled(s, a) && a.Run? && Apart(s.threads[a.t]) && PhaseOk(s, a.t)
    requires InFlight(s.threads[a.t].pc) <= s.mem.Keys && c.hardened
    requires s.threads[a.t].pc.PopRead? && s.head.ptr in s.mem ==> Fresh(s.mem[s.head.ptr])
    ensures PhaseOk(Next(c, s, a), a.t)
  {
    var pc := s.threads[a.t].pc;
    if InFlight(pc) != {} && !pc.PushLoad? && !pc.PushLoaded? && !pc.PushWritten? {
      HardeningPhase(c, s, a.t);
    }
  }

  lemma ClientPhase(c: Config, s: State, a: Action, u: nat)
    requires MemoryOk(c, s) && Enabled(s, a) && !a.Run? && u < |s.threads| && Apart(s.threads[u]) && PhaseOk(s, u)
    requires forall t :: 0 <= t < |s.threads| ==> PhaseOk(s, t)
    requires a.Write? ==> a.block !in InFlight(s.threads[u].pc)
    requires c.hardened
    ensures PhaseOk(Next(c, s, a), u)
  {
    assert PhaseOk(s, a.t);
  }

  lemma BystanderPhase(s: State, s': State, u: nat)
    requires u < |s.threads| == |s'.threads| && PhaseOk(s, u) && s'.threads[u] == s.threads[u]
    requires s'.mem.Keys == s.mem.Keys
    requires forall b :: b in Holds(s.threads[u]) && b in s.mem ==> s'.mem[b] == s.mem[b]
    ensures PhaseOk(s', u)
  {
  }

  lemma StackFresh(c: Config, s: State, h: History, a: Action)
    requires MemoryOk(c, s) && OwnersOk(c, s, h) && Enabled(s, a) && HardenedOk(s, h) && |h.loadedAt| == |s.threads|
    requires Legal(h.stack, EventOf(s, a))
    ensures forall b :: b in NextHistory(s, h, a).stack && b in s.mem ==>
      b in Next(c, s, a).mem && Fresh(Next(c, s, a).mem[b])
  {
    StackUntouched(c, s, h, a);
    var e := EventOf(s, a);
    if e.Push? {
      PushEffect(c, s, h, a);
      assert PhaseOk(s, a.t);
      HeldOffStack(c, s, h, a.t, e.block);
    }
  }

  lemma PhaseStep(c: Config, s: State, h: History, a: Action, u: nat)
    requires MemoryOk(c, s) && ChainOk(c, s, h) && OwnersOk(c, s, h) && Enabled(s, a) && HardenedOk(s, h)
    requires ConfigOk(c) && c.hardened && u < |s.threads| && a.Run?
    ensures PhaseOk(Next(c, s, a), u)
  {
    if u == a.t {
      HeadIsTop(c, s, h);
      assert PhaseOk(s, u) && Apart(s.threads[u]) && Holds(s.threads[u]) <= c.slots;
      RunPhase(c, s, a);
    } else {
      assert PhaseOk(s, u);
      StepIsLocal(c, s, a);
      HeldApart(c, s, h, a.t, u);
      OnlyMover(c, s, a, u);
      BystanderPhase(s, Next(c, s, a), u);
    }
  }

  lemma OnlyMover(c: Config, s: State, a: Action, u: nat)
    requires Enabled(s, a) && a.Run? && u < |s.threads| && u != a.t
    ensures Next(c, s, a).threads[u] == s.threads[u]
  {
  }

  lemma HardenedStep(c: Config, s: State, h: History, a: Action)
    requires ConfigOk(c) && c.hardened && MemoryOk(c, s) && ChainOk(c, s, h) && OwnersOk(c, s, h) && HardenedOk(s, h)
    requires Enabled(s, a) && |h.loadedAt| == |s.threads| && Legal(h.stack, EventOf(s, a))
    ensures HardenedOk(Next(c, s, a), NextHistory(s, h, a))
  {
    var s', h' := Next(c, s, a), NextHistory(s, h, a);
    StepIsLocal(c, s, a);
    StackFresh(c, s, h, a);
    assert s'.mem.Keys == s.mem.Keys;
    forall u | 0 <= u < |s'.threads|
      ensures PhaseOk(s', u)
    {
      if a.Run? {
        PhaseStep(c, s, h, a, u);
      } else {
        NotInFlightElsewhere(c, s, h, a, u);
        assert Apart(s.threads[u]);
        ClientPhase(c, s, a, u);
      }
    }
  }

  lemma NotInFlightElsewhere(c: Config, s: State, h: History, a: Action, u: nat)
    requires OwnersOk(c, s, h) && Enabled(s, a) && u < |s.threads|
    ensures a.Write? ==> a.block !in InFlight(s.threads[u].pc)
  {
    if a.Write? {
      HeldOffStack(c, s, h, a.t, a.block);
      assert Apart(s.threads[u]);
      assert a.block in Holds(s.threads[u]) <==> h.owner[a.block] == By(u);
    }
  }

  lemma HeldApart(c: Config, s: State, h: History, t: nat, u: nat)
    requires OwnersOk(c, s, h) && t < |s.threads| && u < |s.threads| && t != u
    ensures Holds(s.threads[t]) !! Holds(s.threads[u])
  {
    forall b | b in Holds(s.threads[t])
      ensures b !in Holds(s.threads[u])
    {
      HeldOffStack(c, s, h, t, b);
      assert b in Holds(s.threads[u]) <==> h.owner[b] == By(u);
    }
  }

  lemma ThreadsStep(c: Config, s: State, h: History, a: Action)
    requires Inv(c, s, h) && Enabled(s, a) && Legal(h.stack, EventOf(s, a))
    ensures forall u :: 0 <= u < |s.threads| ==> ThreadOk(c, Next(c, s, a), NextHistory(s, h, a), u)
  {
    StepIsLocal(c, s, a);
    forall u | 0 <= u < |s.threads|
      ensures ThreadOk(c, Next(c, s, a), NextHistory(s, h, a), u)
    {
      assert ThreadOk(c, s, h, u) && Holds(s.threads[u]) <= c.slots;
      if u != a.t {
        HeldApart(c, s, h, a.t, u);
        BystanderStep(c, s, h, a, u);
      } else if a.Run? {
        MoverOk(c, s, h, a);
      } else {
        ClientMoverOk(c, s, h, a);
      }
    }
  }

  lemma BystanderStep(c: Config, s: State, h: History, a: Action, u: nat)
    requires MemoryOk(c, s) && Enabled(s, a) && |h.loadedAt| == |s.threads| && Legal(h.stack, EventOf(s, a))
    requires u < |s.threads| && u != a.t && ThreadOk(c, s, h, u) && Holds(s.threads[a.t]) !! Holds(s.threads[u])
    ensures ThreadOk(c, Next(c, s, a), NextHistory(s, h, a), u)
  {
    StepIsLocal(c, s, a);
    if !Swaps(s, a) {
      SilentEffect(c, s, h, a);
    }
    BystanderOk(c, s, h, Next(c, s, a), NextHistory(s, h, a), u);
  }

  lemma InvEventLegal(c: Config, s: State, h: History, a: Action)
    requires Inv(c, s, h) && Enabled(s, a)
    ensures Legal(h.stack, EventOf(s, a))
  {
    assert ThreadOk(c, s, h, a.t);
    EventLegal(c, s, h, a);
  }

  /** The invariant is kept by every step, with the abstract stack moving by the step's event. */
  lemma InvStep(c: Config, s: State, h: History, a: Action)
    requires Inv(c, s, h) && Enabled(s, a) && Timely(c, s, h, a) && Legal(h.stack, EventOf(s, a))
    ensures Inv(c, Next(c, s, a), NextHistory(s, h, a))
  {
    assert ThreadOk(c, s, h, a.t) && Holds(s.threads[a.t]) <= c.slots;
    assert c.hardened ==> PhaseOk(s, a.t);
    StepIsLocal(c, s, a);
    ChainStep(c, s, h, a);
    OwnersStep(c, s, h, a);
    ThreadsStep(c, s, h, a);
    if c.hardened {
      HardenedStep(c, s, h, a);
    }
    if a.Run? {
      NoReport(c, s, h, a);
    }
  }

  // ---- Whole runs --------------------------------------------------------------------------

  /** Every pop's exchange in the run is timely. */
  ghost predicate AllTimely(c: Config, s: State, h: History, acts: seq<Action>)
    decreases |acts|
  {
    acts == [] ||
    (Enabled(s, acts[0]) && |h.loadedAt| == |s.threads| && Legal(h.stack, EventOf(s, acts[0])) ==>
       Timely(c, s, h, acts[0]) && AllTimely(c, Next(c, s, acts[0]), NextHistory(s, h, acts[0]), acts[1..]))
  }

  /** Slot `i` of a new pool stores the link to the next one, the last one to null. */
  ghost predicate StoredAt(c: Config, mem: map<nat, Cell>, order: seq<nat>, i: nat)
    requires i < |order|
  {
    order[i] in mem && mem[order[i]].link == Encode(c.hardened, order[i], Successor(order, i))
  }

  /** A pool just created: the slots in `order`, linked into one chain, and idle threads. */
  ghost predicate Initial(c: Config, s: State, order: seq<nat>) {
    && ConfigOk(c) && MemoryOk(c, s) && NoDup(order) && order != []
    && (forall b :: b in order <==> b in c.slots)
    && s.head == Head(order[0], 0)
    && (forall i {:trigger StoredAt(c, s.mem, order, i)} :: 0 <= i < |order| ==> StoredAt(c, s.mem, order, i))
    && (c.hardened ==> forall b :: b in s.mem ==> Fresh(s.mem[b]))
    && (forall t :: 0 <= t < |s.threads| ==> s.threads[t] == Thread(Idle, {}))
    && s.reports == [] && !s.fault
  }

  ghost function InitialHistory(c: Config, s: State, order: seq<nat>): History {
    History(order, map b | b in c.slots :: OnStack, 0, seq(|s.threads|, _ => 0))
  }

  lemma InitialInv(c: Config, s: State, order: seq<nat>)
    requires Initial(c, s, order)
    ensures Inv(c, s, InitialHistory(c, s, order))
  {
    var h := InitialHistory(c, s, order);
    forall i | 0 <= i < |order|
      ensures LinkedAt(c, s.mem, order, i)
    {
      assert StoredAt(c, s.mem, order, i);
      EncodeRoundTrip(c, order[i], Successor(order, i));
    }
    assert 0 % Pow2(c.tagBits) == 0;
    forall t, b | 0 <= t < |s.threads| && b in c.slots
      ensures b in Holds(s.threads[t]) <==> h.owner[b] == By(t)
    {
      assert s.threads[t] == Thread(Idle, {});
    }
    forall t | 0 <= t < |s.threads|
      ensures Holds(s.threads[t]) <= c.slots && Apart(s.threads[t]) && ThreadOk(c, s, h, t) && PhaseOk(s, t)
    {
      assert s.threads[t] == Thread(Idle, {});
    }
  }

  /** Induction over a run: the stack's history is legal and the invariant holds at its end. */
  lemma {:induction false} RunInv(c: Config, s: State, h: History, acts: seq<Action>) returns (h': History)
    requires Inv(c, s, h) && Exec(c, s, acts).Some? && AllTimely(c, s, h, acts)
    ensures LegalHistory(h.stack, Events(c, s, acts))
    ensures Inv(c, Exec(c, s, acts).value, h') && h'.stack == ApplyAll(h.stack, Events(c, s, acts))
    decreases |acts|
  {
    if acts == [] {
      return h;
    }
    InvEventLegal(c, s, h, acts[0]);
    InvStep(c, s, h, acts[0]);
    h' := RunInv(c, Next(c, s, acts[0]), NextHistory(s, h, acts[0]), acts[1..]);
    var rest := Events(c, Next(c, s, acts[0]), acts[1..]);
    assert Events(c, s, acts)[1..] == rest;
  }

  /** Linearizability. In every interleaving of any number of threads the steps that pop, push and
      give up form a run of an atomic LIFO stack, and the chain in memory spells its final content. */
  lemma Linearizable(c: Config, s: State, order: seq<nat>, acts: seq<Action>)
    requires Initial(c, s, order) && Exec(c, s, acts).Some?
    requires AllTimely(c, s, InitialHistory(c, s, order), acts)
    ensures LegalHistory(order, Events(c, s, acts))
    ensures Spells(c, Exec(c, s, acts).value, ApplyAll(order, Events(c, s, acts)))
  {
    InitialInv(c, s, order);
    var h' := RunInv(c, s, InitialHistory(c, s, order), acts);
  }

  /** Following the links from the head visits exactly `stack` and then null. */
  ghost predicate Spells(c: Config, s: State, stack: seq<nat>) {
    && s.head.ptr == Successor(stack, -1)
    && forall i {:trigger LinkedAt(c, s.mem, stack, i)} :: 0 <= i < |stack| ==> LinkedAt(c, s.mem, stack, i)
  }

  /** Each slot is on the acyclic chain or held by one thread, never both, never two, never neither. */
  ghost predicate Partitioned(c: Config, s: State, stack: seq<nat>) {
    && Spells(c, s, stack) && NoDup(stack)
    && (forall t, u :: 0 <= t < u < |s.threads| ==> Holds(s.threads[t]) !! Holds(s.threads[u]))
    && (forall t, b :: 0 <= t < |s.threads| && b in Holds(s.threads[t]) ==> b !in stack && b in c.slots)
    && (forall b :: b in stack ==> b in c.slots)
    && (forall b :: b in c.slots && b !in stack ==> exists t :: 0 <= t < |s.threads| && b in Holds(s.threads[t]))
  }

  lemma StackInMemory(c: Config, s: State, h: History, b: nat)
    requires ChainOk(c, s, h) && b in h.stack
    ensures b in s.mem
  {
    var i :| 0 <= i < |h.stack| && h.stack[i] == b;
    assert LinkedAt(c, s.mem, h.stack, i);
  }

  lemma OwnersPartition(c: Config, s: State, h: History)
    requires MemoryOk(c, s) && ChainOk(c, s, h) && OwnersOk(c, s, h)
    ensures Partitioned(c, s, h.stack)
  {
    forall t, u | 0 <= t < u < |s.threads|
      ensures Holds(s.threads[t]) !! Holds(s.threads[u])
    {
      HeldApart(c, s, h, t, u);
    }
    forall t, b | 0 <= t < |s.threads| && b in Holds(s.threads[t])
      ensures b !in h.stack && b in c.slots
    {
      HeldOffStack(c, s, h, t, b);
    }
    forall b | b in h.stack
      ensures b in c.slots
    {
      StackInMemory(c, s, h, b);
    }
    forall b | b in c.slots && b !in h.stack
      ensures exists t :: 0 <= t < |s.threads| && b in Holds(s.threads[t])
    {
      var t := h.owner[b].t;
      assert b in Holds(s.threads[t]) <==> h.owner[b] == By(t);
    }
  }

  /** No double vend and no loss, in every reachable state. */
  lemma SlotsPartitioned(c: Config, s: State, order: seq<nat>, acts: seq<Action>)
    requires Initial(c, s, order) && Exec(c, s, acts).Some?
    requires AllTimely(c, s, InitialHistory(c, s, order), acts)
    ensures exists stack :: Partitioned(c, Exec(c, s, acts).value, stack)
  {
    InitialInv(c, s, order);
    var h := RunInv(c, s, InitialHistory(c, s, order), acts);
    OwnersPartition(c, Exec(c, s, acts).value, h);
  }

  /** No run of correct clients ever reports a violation or reads outside the pool. */
  lemma NoFalseReport(c: Config, s: State, order: seq<nat>, acts: seq<Action>)
    requires Initial(c, s, order) && Exec(c, s, acts).Some?
    requires AllTimely(c, s, InitialHistory(c, s, order), acts)
    ensures Exec(c, s, acts).value.reports == [] && !Exec(c, s, acts).value.fault
  {
    InitialInv(c, s, order);
    var h' := RunInv(c, s, InitialHistory(c, s, order), acts);
  }

  /** Lock-freedom: an exchange that fails, other than spuriously, fails because another exchange
      has succeeded since this thread loaded the head. */
  lemma FailureMeansProgress(c: Config, s: State, h: History, t: nat)
    requires Inv(c, s, h) && t < |s.threads|
    requires s.threads[t].pc.PopRead? || s.threads[t].pc.PushWritten?
    ensures s.head != s.threads[t].pc.expected ==> h.loadedAt[t] < h.swaps
  {
    assert ThreadOk(c, s, h, t);
  }
}
