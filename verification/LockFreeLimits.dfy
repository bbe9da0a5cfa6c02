/**
 The limits of the lock-free policy, as concrete runs: what happens when a full turn of the tag
 goes by between a load and its exchange, and what the rejected checked read would report.
 */
module LockFreeLimits {
  import opened Common
  import opened Arithmetic
  import opened Words
  import opened LockFree
  import opened LockFreeProofs

  function Solo(t: nat): seq<Action> {
    [Run(t, false), Run(t, false)]
  }

  function PopRun(t: nat): seq<Action> {
    [BeginPop(t)] + Solo(t)
  }

  function PushRun(t: nat, b: nat): seq<Action> {
    [BeginFree(t, b), Run(t, false)] + Solo(t)
  }

  lemma {:induction false} ExecConcat(c: Config, s: State, a: seq<Action>, b: seq<Action>)
    requires Exec(c, s, a).Some?
    ensures Exec(c, s, a + b) == Exec(c, Exec(c, s, a).value, b)
    decreases |a|
  {
    if a == [] {
      assert a + b == b;
    } else {
      ExecConcat(c, Next(c, s, a[0]), a[1..], b);
      assert (a + b)[1..] == a[1..] + b;
    }
  }

  function SwapOf(s: State, a: Action): nat
    requires Enabled(s, a)
  {
    match EventOf(s, a) case Pop(_) => 1 case Push(_) => 1 case _ => 0
  }

  /** The number of successful exchanges in a run. */
  function SwapCount(c: Config, s: State, acts: seq<Action>): nat
    requires Exec(c, s, acts).Some?
    decreases |acts|
  {
    if acts == [] then 0
    else SwapOf(s, acts[0]) + SwapCount(c, Next(c, s, acts[0]), acts[1..])
  }

  lemma {:induction false} SwapCountConcat(c: Config, s: State, a: seq<Action>, b: seq<Action>)
    requires Exec(c, s, a).Some? && Exec(c, Exec(c, s, a).value, b).Some?
    ensures Exec(c, s, a + b).Some?
    ensures SwapCount(c, s, a + b) == SwapCount(c, s, a) + SwapCount(c, Exec(c, s, a).value, b)
    decreases |a|
  {
    ExecConcat(c, s, a, b);
    if a == [] {
      assert a + b == b;
    } else {
      SwapCountConcat(c, Next(c, s, a[0]), a[1..], b);
      assert (a + b)[1..] == a[1..] + b;
    }
  }

  /** A thread running alone pops the head. */
  function Popped(c: Config, s: State, t: nat): State
    requires t < |s.threads| && s.head.ptr in s.mem
  {
    Vend(s.(head := Head(s.mem[s.head.ptr].link, NextTag(c, s.head.tag))), t, s.head.ptr)
  }

  lemma SoloPop(c: Config, s: State, t: nat)
    requires !c.hardened && t < |s.threads| && s.threads[t].pc == Idle && s.head.ptr in s.mem && s.head.ptr != NULL
    ensures Exec(c, s, PopRun(t)) == Some(Popped(c, s, t)) && SwapCount(c, s, PopRun(t)) == 1
  {
    var s1 := Next(c, s, BeginPop(t));
    var s2 := Next(c, s1, Run(t, false));
    var s3 := Next(c, s2, Run(t, false));
    assert s3.threads == Popped(c, s, t).threads;
    ThreeSteps(c, s, PopRun(t), s1, s2, s3);
  }

  lemma ThreeSteps(c: Config, s: State, acts: seq<Action>, s1: State, s2: State, s3: State)
    requires |acts| == 3 && Enabled(s, acts[0]) && s1 == Next(c, s, acts[0])
    requires Enabled(s1, acts[1]) && s2 == Next(c, s1, acts[1])
    requires Enabled(s2, acts[2]) && s3 == Next(c, s2, acts[2])
    requires EventOf(s, acts[0]).Silent? && EventOf(s1, acts[1]).Silent?
    ensures Exec(c, s, acts) == Some(s3)
    ensures SwapCount(c, s, acts) == SwapOf(s2, acts[2])
  {
    assert acts[1..][0] == acts[1] && acts[1..][1..][0] == acts[2] && acts[1..][1..][1..] == [];
    assert Exec(c, s3, []) == Some(s3);
    assert Exec(c, s2, acts[1..][1..]) == Some(s3);
    assert Exec(c, s1, acts[1..]) == Some(s3);
    assert SwapCount(c, s2, acts[1..][1..]) == SwapOf(s2, acts[2]) + SwapCount(c, s3, []);
    assert SwapCount(c, s1, acts[1..]) == SwapOf(s1, acts[1]) + SwapCount(c, s2, acts[1..][1..]);
    assert SwapCount(c, s, acts) == SwapOf(s, acts[0]) + SwapCount(c, s1, acts[1..]);
  }

  /** A thread running alone pushes its block. */
  function Pushed(c: Config, s: State, t: nat, b: nat): State
    requires t < |s.threads| && b in s.mem
  {
    State(Head(b, NextTag(c, s.head.tag)), s.mem[b := s.mem[b].(link := s.head.ptr)],
          s.threads[t := Thread(Idle, s.threads[t].owned - {b})], s.reports, s.fault)
  }

  lemma SoloPush(c: Config, s: State, t: nat, b: nat)
    requires !c.hardened && t < |s.threads| && s.threads[t].pc == Idle && b in s.threads[t].owned && b in s.mem
    ensures Exec(c, s, PushRun(t, b)) == Some(Pushed(c, s, t, b)) && SwapCount(c, s, PushRun(t, b)) == 1
  {
    var a0 := [BeginFree(t, b)];
    var acts := [Run(t, false)] + Solo(t);
    var s0 := Next(c, s, BeginFree(t, b));
    var s1 := Next(c, s0, Run(t, false));
    var s2 := Next(c, s1, Run(t, false));
    var s3 := Next(c, s2, Run(t, false));
    assert s3.threads == Pushed(c, s, t, b).threads;
    ThreeSteps(c, s0, acts, s1, s2, s3);
    assert PushRun(t, b)[0] == BeginFree(t, b) && PushRun(t, b)[1..] == acts;
  }

  // ---- A full turn of the tag --------------------------------------------------------------

  /** A plain pool of four blocks, its tag `w` bits wide, and two threads. */
  function FourBlocks(w: nat): Config {
    Config({16, 32, 48, 64}, 0, w, false, false)
  }

  const ORDER: seq<nat> := [16, 32, 48, 64]

  function Start(w: nat): State {
    State(Head(16, 0),
          map[16 := Cell(32, [], 0), 32 := Cell(48, [], 0), 48 := Cell(64, [], 0), 64 := Cell(NULL, [], 0)],
          [Thread(Idle, {}), Thread(Idle, {})], [], false)
  }

  lemma StartIsInitial(w: nat)
    ensures Initial(FourBlocks(w), Start(w), ORDER)
  {
  }

  /** Thread 0 has loaded the head and read its link, and is about to exchange. */
  function Preempted(w: nat): State {
    Start(w).(threads := [Thread(PopRead(Head(16, 0), 32), {}), Thread(Idle, {})])
  }

  /** Block 16 is back on top with another successor; thread 1 holds 32 and 48. */
  function Recycled(w: nat, tag: nat): State {
    Preempted(w).(
      head := Head(16, tag),
      mem := Start(w).mem[16 := Cell(64, [], 0)],
      threads := [Thread(PopRead(Head(16, 0), 32), {}), Thread(Idle, {32, 48})])
  }

  function Tag(w: nat, swaps: nat): nat {
    swaps % Pow2(w)
  }

  /** Thread 1 pops three blocks and pushes the first one back. */
  function Shuffle(): seq<Action> {
    (PopRun(1) + PopRun(1)) + (PopRun(1) + PushRun(1, 16))
  }

  lemma TagSteps(w: nat, swaps: nat)
    ensures NextTag(FourBlocks(w), Tag(w, swaps)) == Tag(w, swaps + 1)
  {
    NextTagCounts(FourBlocks(w), swaps);
  }

  function Taken(k: nat): set<nat>
    requires k <= 3
  {
    if k == 0 then {} else Taken(k - 1) + {ORDER[k - 1]}
  }

  /** Thread 1 has popped the first `k` blocks. */
  function Drained(w: nat, k: nat): State
    requires k <= 3
  {
    Preempted(w).(
      head := Head(ORDER[k], Tag(w, k)),
      threads := [Thread(PopRead(Head(16, 0), 32), {}),
                  Thread(Idle, Taken(k))])
  }

  lemma DrainOne(w: nat, k: nat)
    requires k < 3
    ensures Exec(FourBlocks(w), Drained(w, k), PopRun(1)) == Some(Drained(w, k + 1))
    ensures SwapCount(FourBlocks(w), Drained(w, k), PopRun(1)) == 1
  {
    var c, s := FourBlocks(w), Drained(w, k);
    SoloPop(c, s, 1);
    TagSteps(w, k);
    assert Popped(c, s, 1).threads == Drained(w, k + 1).threads;
  }

  lemma PushFirstBack(w: nat)
    ensures Exec(FourBlocks(w), Drained(w, 3), PushRun(1, 16)) == Some(Recycled(w, Tag(w, 4)))
    ensures SwapCount(FourBlocks(w), Drained(w, 3), PushRun(1, 16)) == 1
  {
    var c, s := FourBlocks(w), Drained(w, 3);
    SoloPush(c, s, 1, 16);
    TagSteps(w, 3);
    assert Taken(3) == {16, 32, 48} && Taken(3) - {16} == {32, 48};
    assert Pushed(c, s, 1, 16).threads == Recycled(w, Tag(w, 4)).threads;
    assert Pushed(c, s, 1, 16).mem == Recycled(w, Tag(w, 4)).mem;
  }

  lemma DrainTwo(w: nat)
    ensures Exec(FourBlocks(w), Drained(w, 0), PopRun(1) + PopRun(1)) == Some(Drained(w, 2))
    ensures SwapCount(FourBlocks(w), Drained(w, 0), PopRun(1) + PopRun(1)) == 2
  {
    DrainOne(w, 0);
    DrainOne(w, 1);
    Joined2(FourBlocks(w), Drained(w, 0), Drained(w, 1), Drained(w, 2), PopRun(1), PopRun(1));
  }

  lemma DrainThirdPushFirst(w: nat)
    ensures Exec(FourBlocks(w), Drained(w, 2), PopRun(1) + PushRun(1, 16)) == Some(Recycled(w, Tag(w, 4)))
    ensures SwapCount(FourBlocks(w), Drained(w, 2), PopRun(1) + PushRun(1, 16)) == 2
  {
    DrainOne(w, 2);
    PushFirstBack(w);
    Joined2(FourBlocks(w), Drained(w, 2), Drained(w, 3), Recycled(w, Tag(w, 4)), PopRun(1), PushRun(1, 16));
  }

  lemma ShuffleRecycles(w: nat)
    ensures Exec(FourBlocks(w), Drained(w, 0), Shuffle()) == Some(Recycled(w, Tag(w, 4)))
    ensures SwapCount(FourBlocks(w), Drained(w, 0), Shuffle()) == 4
  {
    DrainTwo(w);
    DrainThirdPushFirst(w);
    Joined2(FourBlocks(w), Drained(w, 0), Drained(w, 2), Recycled(w, Tag(w, 4)),
            PopRun(1) + PopRun(1), PopRun(1) + PushRun(1, 16));
  }

  lemma Joined2(c: Config, s: State, s1: State, s2: State, a: seq<Action>, b: seq<Action>)
    requires Exec(c, s, a) == Some(s1) && Exec(c, s1, b) == Some(s2)
    ensures Exec(c, s, a + b) == Some(s2)
    ensures SwapCount(c, s, a + b) == SwapCount(c, s, a) + SwapCount(c, s1, b)
  {
    Joined(c, s, a, b);
  }

  lemma Joined(c: Config, s: State, a: seq<Action>, b: seq<Action>)
    requires Exec(c, s, a).Some? && Exec(c, Exec(c, s, a).value, b).Some?
    ensures Exec(c, s, a + b) == Exec(c, Exec(c, s, a).value, b)
    ensures SwapCount(c, s, a + b) == SwapCount(c, s, a) + SwapCount(c, Exec(c, s, a).value, b)
  {
    ExecConcat(c, s, a, b);
    SwapCountConcat(c, s, a, b);
  }

  /** Thread 1 pops and pushes block 16 `k` times over. */
  function Spin(k: nat): seq<Action> {
    if k == 0 then [] else PopRun(1) + PushRun(1, 16) + Spin(k - 1)
  }

  lemma OneSpin(w: nat, n: nat)
    ensures var c, s := FourBlocks(w), Recycled(w, Tag(w, n));
      && Exec(c, s, PopRun(1) + PushRun(1, 16)) == Some(Recycled(w, Tag(w, n + 2)))
      && SwapCount(c, s, PopRun(1) + PushRun(1, 16)) == 2
  {
    var c, s := FourBlocks(w), Recycled(w, Tag(w, n));
    var s1 := Popped(c, s, 1);
    SoloPop(c, s, 1);
    SoloPush(c, s1, 1, 16);
    Joined(c, s, PopRun(1), PushRun(1, 16));
    TagSteps(w, n);
    TagSteps(w, n + 1);
    assert Pushed(c, s1, 1, 16).threads == s.threads;
    assert Pushed(c, s1, 1, 16).mem == s.mem;
  }

  lemma {:induction false} SpinTurnsTag(w: nat, n: nat, k: nat)
    ensures var c, s := FourBlocks(w), Recycled(w, Tag(w, n));
      && Exec(c, s, Spin(k)) == Some(Recycled(w, Tag(w, n + 2 * k)))
      && SwapCount(c, s, Spin(k)) == 2 * k
    decreases k
  {
    if k > 0 {
      OneSpin(w, n);
      SpinTurnsTag(w, n + 2, k - 1);
      Joined(FourBlocks(w), Recycled(w, Tag(w, n)), PopRun(1) + PushRun(1, 16), Spin(k - 1));
    }
  }

  lemma FullTurn(w: nat, n: nat)
    requires n == (if w <= 2 then 4 else Pow2(w))
    ensures Tag(w, n) == 0
  {
    var m := Pow2(w);
    if w <= 2 {
      assert Pow2(0) == 1 && Pow2(1) == 2 && Pow2(2) == 4;
      assert m == 1 || m == 2 || m == 4;
      QuotientUnique(4, m, 4 / m, 0);
    } else {
      QuotientUnique(n, m, 1, 0);
    }
  }

  lemma Pow2AtLeast(w: nat)
    requires w > 2
    ensures Pow2(w) >= 8 && Pow2(w) % 2 == 0
  {
    assert Pow2(w) == 2 * Pow2(w - 1);
    if w > 3 {
      Pow2AtLeast(w - 1);
    } else {
      assert Pow2(2) == 4;
    }
  }

  /** The middle of the run: thread 1 alone, exactly one full turn of the tag (at least four
      exchanges), after which the head looks to thread 0 as it did before. */
  lemma TurnTheTag(w: nat, k: nat) returns (acts: seq<Action>)
    requires 4 + 2 * k == if w <= 2 then 4 else Pow2(w)
    ensures Exec(FourBlocks(w), Drained(w, 0), acts) == Some(Recycled(w, 0))
    ensures SwapCount(FourBlocks(w), Drained(w, 0), acts) == 4 + 2 * k
  {
    var c, m := FourBlocks(w), Recycled(w, Tag(w, 4));
    ShuffleRecycles(w);
    SpinTurnsTag(w, 4, k);
    FullTurn(w, 4 + 2 * k);
    acts := Shuffle() + Spin(k);
    Joined2(c, Drained(w, 0), m, Recycled(w, 0), Shuffle(), Spin(k));
  }

  lemma PreemptedAfterRead(w: nat)
    ensures Exec(FourBlocks(w), Start(w), [BeginPop(0), Run(0, false)]) == Some(Drained(w, 0))
  {
    var c := FourBlocks(w);
    var s1 := Next(c, Start(w), BeginPop(0));
    var s2 := Next(c, s1, Run(0, false));
    assert s2.threads == Drained(w, 0).threads;
    assert Tag(w, 0) == 0;
    assert [BeginPop(0), Run(0, false)][1..] == [Run(0, false)];
    assert Exec(c, s2, []) == Some(s2);
    assert Exec(c, s1, [Run(0, false)]) == Some(s2);
  }

  /** Thread 0's exchange succeeds and installs block 32, which thread 1 holds; its next pop vends
      it a second time. */
  lemma VendsTwice(w: nat)
    ensures var r := Exec(FourBlocks(w), Recycled(w, 0), [Run(0, false)] + PopRun(0));
      r.Some? && |r.value.threads| == 2 && 32 in Holds(r.value.threads[0]) && 32 in Holds(r.value.threads[1])
  {
    var c, s := FourBlocks(w), Recycled(w, 0);
    var s1 := Next(c, s, Run(0, false));
    assert s.threads[0].pc == PopRead(Head(16, 0), 32);
    SoloPop(c, s1, 0);
    assert ([Run(0, false)] + PopRun(0))[1..] == PopRun(0);
  }

  /** For every tag width the bound is needed: if, between a load and its exchange, one full turn of
      the tag goes by (2^w exchanges, four if the turn is shorter), the exchange succeeds on a stale
      link and one block ends up held by two threads. Width 0 is the untagged head. */
  lemma FullTurnBreaks(w: nat) returns (load: seq<Action>, others: seq<Action>, exchange: seq<Action>)
    ensures Initial(FourBlocks(w), Start(w), ORDER)
    ensures load == [BeginPop(0), Run(0, false)] && exchange == [Run(0, false)] + PopRun(0)
    ensures var c := FourBlocks(w);
      && Exec(c, Start(w), load).Some?
      && Exec(c, Exec(c, Start(w), load).value, others).Some?
      && SwapCount(c, Exec(c, Start(w), load).value, others) == (if w <= 2 then 4 else Pow2(w))
      && Exec(c, Start(w), load + (others + exchange)).Some?
    ensures var f := Exec(FourBlocks(w), Start(w), load + (others + exchange)).value;
      |f.threads| == 2 && 32 in Holds(f.threads[0]) && 32 in Holds(f.threads[1])
  {
    var c := FourBlocks(w);
    StartIsInitial(w);
    load := [BeginPop(0), Run(0, false)];
    exchange := [Run(0, false)] + PopRun(0);
    PreemptedAfterRead(w);
    var n := if w <= 2 then 4 else Pow2(w);
    if w > 2 {
      Pow2AtLeast(w);
    }
    others := TurnTheTag(w, (n - 4) / 2);
    VendsTwice(w);
    ExecConcat(c, Drained(w, 0), others, exchange);
    ExecConcat(c, Start(w), load, others + exchange);
  }

  // ---- The rejected checked read -----------------------------------------------------------

  /** A hardened pool of two blocks whose speculative read is checked. */
  function CheckedBuild(): Config {
    Config({16, 32}, 0, 64, true, true)
  }

  function CheckedStart(): State {
    State(Head(16, 0),
          map[16 := Cell(XorLink(16, 32), [], GUARD_FREED), 32 := Cell(XorLink(32, NULL), [], GUARD_FREED)],
          [Thread(Idle, {}), Thread(Idle, {})], [], false)
  }

  lemma CheckedStartIsInitial()
    ensures Initial(CheckedBuild().(checkedRead := false), CheckedStart(), [16, 32])
  {
  }

  /** A thread running alone in a hardened build pops the head: load, read, exchange, then the three
      stages of on_alloc. */
  function HardenedPopRun(t: nat): seq<Action> {
    PopRun(t) + ([Run(t, false)] + Solo(t))
  }

  function HardenedPopped(c: Config, s: State, t: nat, next: nat): State
    requires t < |s.threads| && s.head.ptr in s.mem
  {
    var b := s.head.ptr;
    Vend(s.(head := Head(next, NextTag(c, s.head.tag)), mem := s.mem[b := s.mem[b].(guard := GUARD_ALLOCATED)]), t, b)
  }

  lemma HardenedSoloPop(c: Config, s: State, t: nat, next: nat)
    requires c.hardened && t < |s.threads| && s.threads[t].pc == Idle && s.head.ptr in s.mem && s.head.ptr != NULL
    requires s.mem[s.head.ptr].payload == [] && s.mem[s.head.ptr].guard == GUARD_FREED
    requires Encode(c.hardened, s.head.ptr, s.mem[s.head.ptr].link) == next && next % POINTER_ALIGNMENT == 0
    ensures Exec(c, s, HardenedPopRun(t)) == Some(HardenedPopped(c, s, t, next))
  {
    var b := s.head.ptr;
    var s1 := Next(c, s, BeginPop(t));
    var s2 := Next(c, s1, Run(t, false));
    var s3 := Next(c, s2, Run(t, false));
    assert s3.threads[t].pc == AllocGuard(b) && s3.mem == s.mem && s3.reports == s.reports;
    ThreeSteps(c, s, PopRun(t), s1, s2, s3);
    HardenedVend(c, s3, t, b);
    assert HardenedPopped(c, s, t, next).threads == HardenedVended(s3, t, b).threads;
    ExecConcat(c, s, PopRun(t), [Run(t, false)] + Solo(t));
  }

  function HardenedVended(s: State, t: nat, b: nat): State
    requires t < |s.threads| && b in s.mem
  {
    Vend(s.(mem := s.mem[b := s.mem[b].(guard := GUARD_ALLOCATED)]), t, b)
  }

  lemma HardenedVend(c: Config, s: State, t: nat, b: nat)
    requires t < |s.threads| && s.threads[t].pc == AllocGuard(b) && b in s.mem
    requires s.mem[b].payload == [] && s.mem[b].guard == GUARD_FREED
    ensures Exec(c, s, [Run(t, false)] + Solo(t)) == Some(HardenedVended(s, t, b))
  {
    var s1 := Next(c, s, Run(t, false));
    var s2 := Next(c, s1, Run(t, false));
    var s3 := Next(c, s2, Run(t, false));
    assert s3.threads == HardenedVended(s, t, b).threads;
    ThreeSteps(c, s, [Run(t, false)] + Solo(t), s1, s2, s3);
  }

  /** The owner of a block writes a value into it that reveals as unaligned, and then a thread that
      loaded the block as the head, before it was popped, reads its link. */
  lemma StaleCheckedRead(c: Config, s: State, t: nat, u: nat, b: nat, tag: nat, value: nat)
    requires c.hardened && c.checkedRead && t < |s.threads| && u < |s.threads| && t != u
    requires s.threads[t].pc == PopLoaded(Head(b, tag)) && b in s.threads[u].owned && b in s.mem
    requires Encode(c.hardened, b, value) % POINTER_ALIGNMENT != 0
    ensures var r := Exec(c, s, [Write(u, b, LinkField, value), Run(t, false)]);
      r.Some? && r.value.reports == s.reports + [FreeListCorruption(b)]
  {
    var acts := [Write(u, b, LinkField, value), Run(t, false)];
    var s1 := Next(c, s, acts[0]);
    var s2 := Next(c, s1, acts[1]);
    assert acts[1..] == [Run(t, false)];
    assert Exec(c, s2, []) == Some(s2);
    assert Exec(c, s1, acts[1..]) == Some(s2);
  }

  /** With the check on the speculative read, a run of correct clients reports corruption of a slot
      that is not corrupt: thread 0 loads the head, thread 1 pops that block and writes into it, as
      it may, and thread 0 reads the link. */
  lemma CheckedReadRaisesFalseAlarm() returns (acts: seq<Action>)
    ensures Initial(CheckedBuild().(checkedRead := false), CheckedStart(), [16, 32])
    ensures var r := Exec(CheckedBuild(), CheckedStart(), acts); r.Some? && r.value.reports == [FreeListCorruption(16)]
  {
    CheckedStartIsInitial();
    var c, s := CheckedBuild(), CheckedStart();
    var s1 := Next(c, s, BeginPop(0));
    assert s1.threads[0] == Thread(PopLoaded(Head(16, 0)), {}) && s1.threads[1] == Thread(Idle, {});
    XorLinkRoundTrip(16, 32);
    HardenedSoloPop(c, s1, 1, 32);
    var s2 := HardenedPopped(c, s1, 1, 32);
    XorZero(1);
    StaleCheckedRead(c, s2, 0, 1, 16, 0, 1);
    var last := [Write(1, 16, LinkField, 1), Run(0, false)];
    ExecConcat(c, s1, HardenedPopRun(1), last);
    acts := [BeginPop(0)] + (HardenedPopRun(1) + last);
    assert acts[1..] == HardenedPopRun(1) + last;
  }
}
