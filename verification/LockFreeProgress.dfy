/** What a thread of the lock-free policy does when it runs alone: it comes to the end of its call, and the
    call has done what it should. */
module LockFreeProgress {
  import opened Common
  import opened Words
  import opened LockFree
  import opened LockFreeProofs
  import opened LockFreeCalls

  /** `n` steps of thread `t` and of no other, with no spurious failure. */
  function Alone(t: nat, n: nat): (r: seq<Action>)
    ensures |r| == n && forall i :: 0 <= i < n ==> r[i] == Run(t, false)
  {
    seq(n, _ => Run(t, false))
  }

  lemma OneMore(c: Config, s: State, t: nat, n: nat)
    requires t < |s.threads| && s.threads[t].pc != Idle
    ensures Exec(c, s, Alone(t, n + 1)) == Exec(c, Next(c, s, Run(t, false)), Alone(t, n))
  {
    assert Alone(t, n + 1)[1..] == Alone(t, n);
  }

  lemma TwoSteps(c: Config, s: State, t: nat)
    requires t < |s.threads| && s.threads[t].pc != Idle && Next(c, s, Run(t, false)).threads[t].pc != Idle
    ensures Exec(c, s, Alone(t, 2)) == Some(Next(c, Next(c, s, Run(t, false)), Run(t, false)))
  {
    hide Next;
    OneMore(c, s, t, 1);
    OneMore(c, Next(c, s, Run(t, false)), t, 0);
  }

  // ---- Coming to an end --------------------------------------------------------------------

  /** Nothing a thread is about to touch is outside the pool. */
  ghost predicate Runnable(c: Config, s: State, t: nat) {
    && t < |s.threads| && MemoryOk(c, s) && !s.fault
    && InFlight(s.threads[t].pc) <= s.mem.Keys
    && (s.threads[t].pc.PopLoaded? || s.threads[t].pc.PopRead? ==>
      s.threads[t].pc.expected.ptr in s.mem && (s.head.ptr == NULL || s.head.ptr in s.mem))
  }

  lemma InvRunnable(c: Config, s: State, h: History, t: nat)
    requires Inv(c, s, h) && t < |s.threads|
    ensures Runnable(c, s, t)
  {
    assert ThreadOk(c, s, h, t);
    HeadIsTop(c, s, h);
    HoldsMapped(c, s, h, t);
  }

  /** How many words of the payload are still to do. */
  function ToScan(c: Config, i: nat): nat {
    if i < c.payloadWords then c.payloadWords - i else 0
  }

  /** How many steps thread `t` is from the end of its call, if it runs alone. */
  function Left(c: Config, s: State, t: nat): nat
    requires t < |s.threads|
  {
    match s.threads[t].pc
    case Idle => 0
    case AllocStamp(_) => 1
    case AllocPoison(_, i) => ToScan(c, i) + 2
    case AllocGuard(_) => c.payloadWords + 3
    case PopRead(e, _) => if s.head == e then c.payloadWords + 4 else c.payloadWords + 6
    case PopLoaded(e) => if s.head == e then c.payloadWords + 5 else c.payloadWords + 7
    case PushWritten(_, e) => if s.head == e then 1 else 3
    case PushLoaded(_, e) => if s.head == e then 2 else 4
    case PushLoad(_) => 3
    case FreeStamp(_, _) => 4
    case FreePoison(_, i, _) => ToScan(c, i) + 5
    case FreeGuard(_) => c.payloadWords + 6
  }

  lemma HardeningNearer(c: Config, s: State, t: nat)
    requires Runnable(c, s, t) && InFlight(s.threads[t].pc) != {}
    requires !s.threads[t].pc.PushLoad? && !s.threads[t].pc.PushLoaded? && !s.threads[t].pc.PushWritten?
    ensures var s' := HardeningStep(c, s, t, s.threads[t].pc.block); Runnable(c, s', t) && Left(c, s', t) < Left(c, s, t)
  {
  }

  /** Each step brings the thread nearer to the end. */
  lemma Nearer(c: Config, s: State, t: nat)
    requires Runnable(c, s, t) && s.threads[t].pc != Idle
    ensures Runnable(c, Next(c, s, Run(t, false)), t) && Left(c, Next(c, s, Run(t, false)), t) < Left(c, s, t)
  {
    var pc := s.threads[t].pc;
    if InFlight(pc) != {} && !pc.PushLoad? && !pc.PushLoaded? && !pc.PushWritten? {
      HardeningNearer(c, s, t);
    }
  }

  /** From wherever it is in a call, whatever it has loaded and whatever is in its block, a thread that runs
      alone is idle again after at most seven steps and one for each word of the payload. */
  lemma {:induction false} Finishes(c: Config, s: State, t: nat) returns (n: nat, s': State)
    requires t < |s.threads| && Runnable(c, s, t)
    ensures n <= c.payloadWords + 7 && Exec(c, s, Alone(t, n)) == Some(s')
    ensures t < |s'.threads| && s'.threads[t].pc == Idle
    ensures n <= Left(c, s, t)
    decreases Left(c, s, t)
  {
    hide Runnable, Next;
    if s.threads[t].pc == Idle {
      return 0, s;
    }
    Nearer(c, s, t);
    n, s' := Finishes(c, Next(c, s, Run(t, false)), t);
    OneMore(c, s, t, n);
    n := n + 1;
    assert Left(c, s, t) <= c.payloadWords + 7;
  }

  // ---- What a call has done ----------------------------------------------------------------

  /** No exchange has succeeded since the thread loaded the head it relies on. */
  ghost predicate Current(s: State, h: History, t: nat)
    requires t < |s.threads| == |h.loadedAt|
  {
    var pc := s.threads[t].pc;
    pc.PopLoaded? || pc.PopRead? || pc.PushLoaded? || pc.PushWritten? ==> h.loadedAt[t] == h.swaps
  }

  ghost predicate OthersSame(s: State, s': State, t: nat) {
    |s'.threads| == |s.threads| && forall u :: 0 <= u < |s.threads| && u != t ==> s'.threads[u] == s.threads[u]
  }

  /** The rest of the call thread `t` is in: a pop takes the top of the stack, an allocation that has popped
      returns its block, a free puts its block on top. */
  ghost predicate Completed(s: State, s': State, h: History, h': History, t: nat)
    requires t < |s.threads|
  {
    var pc, owned := s.threads[t].pc, s.threads[t].owned;
    && OthersSame(s, s', t)
    && match pc
       case Idle => h'.stack == h.stack && s'.threads[t] == s.threads[t]
       case PopLoaded(_) => TopTaken(h, h') && s'.threads[t] == Thread(Idle, owned + {h.stack[0]})
       case PopRead(_, _) => TopTaken(h, h') && s'.threads[t] == Thread(Idle, owned + {h.stack[0]})
       case AllocGuard(b) => h'.stack == h.stack && s'.threads[t] == Thread(Idle, owned + {b})
       case AllocPoison(b, _) => h'.stack == h.stack && s'.threads[t] == Thread(Idle, owned + {b})
       case AllocStamp(b) => h'.stack == h.stack && s'.threads[t] == Thread(Idle, owned + {b})
       case _ => h'.stack == [pc.block] + h.stack && s'.threads[t] == Thread(Idle, owned)
  }

  ghost predicate TopTaken(h: History, h': History) {
    h.stack != [] && h'.stack == h.stack[1..]
  }

  lemma SoloTimely(c: Config, s: State, h: History, t: nat)
    requires Inv(c, s, h) && t < |s.threads| && s.threads[t].pc != Idle && Current(s, h, t)
    ensures Timely(c, s, h, Run(t, false)) && Legal(h.stack, EventOf(s, Run(t, false)))
  {
    InvEventLegal(c, s, h, Run(t, false));
  }

  /** What one step contributes to the call. */
  lemma Contributes(c: Config, s: State, h: History, t: nat)
    requires Inv(c, s, h) && t < |s.threads| && s.threads[t].pc != Idle && Current(s, h, t)
    requires Legal(h.stack, EventOf(s, Run(t, false)))
    ensures var a := Run(t, false);
      var s1, h1 := Next(c, s, a), NextHistory(s, h, a);
      && OthersSame(s, s1, t) && Current(s1, h1, t)
      && forall s', h' :: Completed(s1, s', h1, h', t) ==> Completed(s, s', h, h', t)
  {
    hide ChainOk, OwnersOk, HardenedOk, PhaseOk;
    NotDropped(c, s, h, t);
    assert ThreadOk(c, s, h, t);
    HoldsMapped(c, s, h, t);
    InvTop(c, s, h);
  }

  lemma InvTop(c: Config, s: State, h: History)
    requires Inv(c, s, h)
    ensures if s.head.ptr == NULL then h.stack == [] else h.stack != [] && h.stack[0] == s.head.ptr
  {
    HeadIsTop(c, s, h);
  }

  /** Alone, a thread comes to the end of its call, which has then done what it should. */
  lemma {:induction false} Completes(c: Config, s: State, h: History, t: nat) returns (n: nat, s': State, h': History)
    requires Inv(c, s, h) && t < |s.threads| && Current(s, h, t)
    ensures n <= Left(c, s, t) && Exec(c, s, Alone(t, n)) == Some(s') && Inv(c, s', h') && Completed(s, s', h, h', t)
    decreases Left(c, s, t)
  {
    if s.threads[t].pc == Idle {
      return 0, s, h;
    }
    hide Inv, Next, Current, Completed, NextHistory, EventOf, Legal, Runnable, Left, Timely;
    SoloTimely(c, s, h, t);
    InvRunnable(c, s, h, t);
    Nearer(c, s, t);
    Contributes(c, s, h, t);
    InvStep(c, s, h, Run(t, false));
    n, s', h' := Completes(c, Next(c, s, Run(t, false)), NextHistory(s, h, Run(t, false)), t);
    OneMore(c, s, t, n);
    n := n + 1;
  }

  /** An allocation by a thread that then runs alone ends, after no more steps than it takes to look at each
      word of the payload: the thread has the block that was on top of the stack, or nothing if there was none. */
  lemma SoloPop(c: Config, s: State, h: History, t: nat) returns (n: nat, s': State, h': History)
    requires Inv(c, s, h) && Enabled(s, BeginPop(t))
    ensures n <= c.payloadWords + 5 && Exec(c, s, [BeginPop(t)] + Alone(t, n)) == Some(s') && Inv(c, s', h')
    ensures OthersSame(s, s', t) && s'.threads[t].pc == Idle
    ensures if h.stack == [] then h'.stack == [] && s'.threads[t].owned == s.threads[t].owned
            else h'.stack == h.stack[1..] && s'.threads[t].owned == s.threads[t].owned + {h.stack[0]}
  {
    hide Inv, Legal;
    var a := BeginPop(t);
    InvTop(c, s, h);
    Begins(c, s, h, a);
    n, s', h' := Completes(c, Next(c, s, a), NextHistory(s, h, a), t);
    Begun(c, s, a, n);
  }

  /** A free by a thread that then runs alone ends with its block on top of the stack. */
  lemma SoloFree(c: Config, s: State, h: History, t: nat, b: nat) returns (n: nat, s': State, h': History)
    requires Inv(c, s, h) && Enabled(s, BeginFree(t, b))
    ensures n <= c.payloadWords + 6 && Exec(c, s, [BeginFree(t, b)] + Alone(t, n)) == Some(s') && Inv(c, s', h')
    ensures OthersSame(s, s', t) && s'.threads[t] == Thread(Idle, s.threads[t].owned - {b})
    ensures h'.stack == [b] + h.stack
  {
    hide Inv, Legal;
    var a := BeginFree(t, b);
    Begins(c, s, h, a);
    n, s', h' := Completes(c, Next(c, s, a), NextHistory(s, h, a), t);
    Begun(c, s, a, n);
  }

  lemma Begins(c: Config, s: State, h: History, a: Action)
    requires Inv(c, s, h) && Enabled(s, a) && (a.BeginPop? || a.BeginFree?)
    ensures |h.loadedAt| == |s.threads| && Legal(h.stack, EventOf(s, a))
    ensures Inv(c, Next(c, s, a), NextHistory(s, h, a)) && Current(Next(c, s, a), NextHistory(s, h, a), a.t)
  {
    hide ChainOk, OwnersOk, HardenedOk, LockFree.ThreadOk, MemoryOk;
    InvEventLegal(c, s, h, a);
    InvStep(c, s, h, a);
  }

  lemma Begun(c: Config, s: State, a: Action, n: nat)
    requires Enabled(s, a)
    ensures Exec(c, s, [a] + Alone(a.t, n)) == Exec(c, Next(c, s, a), Alone(a.t, n))
  {
    assert ([a] + Alone(a.t, n))[1..] == Alone(a.t, n);
  }

  /** An exchange whose head is the one that was loaded takes effect, unless it fails spuriously; any other leaves the
      head as it is. */
  lemma ExchangeTakesEffect(c: Config, s: State, t: nat, spurious: bool)
    requires t < |s.threads| && (s.threads[t].pc.PopRead? || s.threads[t].pc.PushWritten?)
    ensures var pc, s' := s.threads[t].pc, Next(c, s, Run(t, spurious));
      var taken := s.head == pc.expected && !spurious;
      && s'.head == (if !taken then s.head
                     else Head(if pc.PopRead? then pc.next else pc.block, (pc.expected.tag + 1) % Pow2(c.tagBits)))
      && EventOf(s, Run(t, spurious)) == (if taken then if pc.PopRead? then Pop(pc.expected.ptr) else Push(pc.block)
                                          else if pc.PopRead? && s.head.ptr == NULL then PopEmpty else Silent)
      && (taken && pc.PopRead? ==> s'.threads[t] == if c.hardened then Thread(AllocGuard(pc.expected.ptr), s.threads[t].owned)
                                                    else Thread(Idle, s.threads[t].owned + {pc.expected.ptr}))
      && (taken && pc.PushWritten? ==> s'.threads[t] == Thread(Idle, s.threads[t].owned))
  {
  }

  // ---- What the hardened build finds -------------------------------------------------------

  ghost predicate Clean(cell: Cell, i: nat) {
    forall k :: i <= k < |cell.payload| ==> cell.payload[k] == POISON_WORD
  }

  /** Only the cell of `b`, the reports, and what thread `t` is at and holds, are not as in `s`. */
  ghost predicate OnlyBlock(s: State, s': State, t: nat, b: nat) {
    && OthersSame(s, s', t) && s'.head == s.head && s'.fault == s.fault && b in s.mem
    && s'.mem.Keys == s.mem.Keys && forall a :: a in s.mem && a != b ==> s'.mem[a] == s.mem[a]
  }

  /** The scan of an allocation, whatever is in the block: a use after free is reported exactly if some word still to
      be looked at is not poison; then the block is stamped and vended. */
  lemma {:induction false} Scans(c: Config, s: State, t: nat, b: nat, i: nat) returns (n: nat, s': State)
    requires t < |s.threads| && b in s.mem && s.threads[t].pc == AllocPoison(b, i) && i <= |s.mem[b].payload|
    ensures n <= |s.mem[b].payload| - i + 2 && Exec(c, s, Alone(t, n)) == Some(s') && OnlyBlock(s, s', t, b)
    ensures s'.threads[t] == Thread(Idle, s.threads[t].owned + {b}) && s'.mem[b] == s.mem[b].(guard := GUARD_ALLOCATED)
    ensures s'.reports == s.reports + (if Clean(s.mem[b], i) then [] else [UseAfterFree(b)])
    decreases |s.mem[b].payload| - i
  {
    var s1 := Next(c, s, Run(t, false));
    hide Exec;
    if i == |s.mem[b].payload| || s.mem[b].payload[i] != POISON_WORD {
      n, s' := 2, Next(c, s1, Run(t, false));
      TwoSteps(c, s, t);
    } else {
      n, s' := Scans(c, s1, t, b, i + 1);
      OneMore(c, s, t, n);
      n := n + 1;
    }
  }

  /** What on_alloc makes of a popped block, whatever its guard and payload are. */
  lemma Vets(c: Config, s: State, t: nat, b: nat) returns (n: nat, s': State)
    requires t < |s.threads| && b in s.mem && s.threads[t].pc == AllocGuard(b)
    ensures n <= |s.mem[b].payload| + 3 && Exec(c, s, Alone(t, n)) == Some(s') && OnlyBlock(s, s', t, b)
    ensures s'.threads[t] == Thread(Idle, s.threads[t].owned + {b}) && s'.mem[b] == s.mem[b].(guard := GUARD_ALLOCATED)
    ensures s'.reports == s.reports
      + (if s.mem[b].guard == GUARD_FREED then [] else [FreeListCorruption(b)])
      + (if Clean(s.mem[b], 0) then [] else [UseAfterFree(b)])
  {
    n, s' := Scans(c, Next(c, s, Run(t, false)), t, b, 0);
    OneMore(c, s, t, n);
    n := n + 1;
  }

  lemma FillStep(c: Config, s: State, t: nat, b: nat, i: nat, d: bool)
    requires t < |s.threads| && b in s.mem && s.threads[t].pc == FreePoison(b, i, d) && i < |s.mem[b].payload|
    ensures var s1 := Next(c, s, Run(t, false));
      && s1.mem[b] == s.mem[b].(payload := s.mem[b].payload[i := POISON_WORD]) && s1.reports == s.reports
      && OnlyBlock(s, s1, t, b) && s1.threads[t] == s.threads[t].(pc := FreePoison(b, i + 1, d))
  {
  }

  /** The fill of a free: the rest of the payload is poisoned and the block stamped; a block that was free already is
      dropped. */
  lemma {:induction false} Fills(c: Config, s: State, t: nat, b: nat, i: nat, d: bool) returns (n: nat, s': State)
    requires t < |s.threads| && b in s.mem && s.threads[t].pc == FreePoison(b, i, d) && i <= |s.mem[b].payload|
    ensures n <= |s.mem[b].payload| - i + 2 && Exec(c, s, Alone(t, n)) == Some(s') && OnlyBlock(s, s', t, b)
    ensures s'.threads[t] == s.threads[t].(pc := if d then Idle else PushLoad(b)) && s'.reports == s.reports
    ensures s'.mem[b].link == s.mem[b].link && s'.mem[b].guard == GUARD_FREED && |s'.mem[b].payload| == |s.mem[b].payload|
    ensures s'.mem[b].payload[..i] == s.mem[b].payload[..i] && Clean(s'.mem[b], i)
    decreases |s.mem[b].payload| - i
  {
    var s1 := Next(c, s, Run(t, false));
    hide Exec;
    if i == |s.mem[b].payload| {
      n, s' := 2, Next(c, s1, Run(t, false));
      TwoSteps(c, s, t);
    } else {
      FillStep(c, s, t, b, i, d);
      hide Next;
      n, s' := Fills(c, s1, t, b, i + 1, d);
      OneMore(c, s, t, n);
      n := n + 1;
      assert s'.mem[b].payload[..i + 1][i] == s1.mem[b].payload[..i + 1][i];
      assert s'.mem[b].payload[..i] == s'.mem[b].payload[..i + 1][..i];
      assert s1.mem[b].payload[..i + 1][..i] == s.mem[b].payload[..i];
    }
  }

  /** What on_free makes of a block, whatever its guard and payload are. */
  lemma Returns(c: Config, s: State, t: nat, b: nat) returns (n: nat, s': State)
    requires t < |s.threads| && b in s.mem && s.threads[t].pc == FreeGuard(b)
    ensures n <= |s.mem[b].payload| + 3 && Exec(c, s, Alone(t, n)) == Some(s') && OnlyBlock(s, s', t, b)
    ensures var freed := s.mem[b].guard == GUARD_FREED;
      && s'.threads[t] == s.threads[t].(pc := if freed then Idle else PushLoad(b))
      && s'.reports == s.reports
         + (if freed then [DoubleFree(b)] else if s.mem[b].guard != GUARD_ALLOCATED then [BufferOverflow(b)] else [])
    ensures s'.mem[b].link == s.mem[b].link && s'.mem[b].guard == GUARD_FREED
    ensures |s'.mem[b].payload| == |s.mem[b].payload| && Clean(s'.mem[b], 0)
  {
    n, s' := Fills(c, Next(c, s, Run(t, false)), t, b, 0, s.mem[b].guard == GUARD_FREED);
    OneMore(c, s, t, n);
    n := n + 1;
  }
}
