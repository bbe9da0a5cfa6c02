/** What the counters of an instrumented pool mean, in every state of every run. */
module InstrumentedProofs {
  import opened InstrumentedThreads

  lemma RunMoves(s: State, a: Action)
    requires Enabled(s, a) && !a.HandOver?
    ensures Next(s, a).threads == s.threads[a.t := Next(s, a).threads[a.t]]
  {
  }

  lemma Moved(f: Thread -> int, s: State, a: Action)
    requires Enabled(s, a) && !a.HandOver?
    ensures var s' := Next(s, a);
      Sum(f, s'.threads) == Sum(f, s.threads) + f(s'.threads[a.t]) - f(s.threads[a.t])
  {
    RunMoves(s, a);
    SumUpdate(f, s.threads, a.t, Next(s, a).threads[a.t]);
  }

  lemma HandedOver(f: Thread -> int, s: State, a: Action)
    requires Enabled(s, a) && a.HandOver?
    ensures var s' := Next(s, a);
      Sum(f, s'.threads) == Sum(f, s.threads) + f(s'.threads[a.t]) - f(s.threads[a.t]) + f(s'.threads[a.to]) - f(s.threads[a.to])
  {
    var from := s.threads[a.t].(owned := s.threads[a.t].owned - 1);
    SumUpdate(f, s.threads, a.t, from);
    SumUpdate(f, s.threads[a.t := from], a.to, s.threads[a.to].(owned := s.threads[a.to].owned + 1));
  }

  /** A thread's own blocks are among those out, and among those counted. */
  lemma OwnShare(s: State, t: nat)
    requires Inv(s) && t < |s.threads|
    ensures s.out >= Blocks(s.threads[t]) && s.live >= Counted(s.threads[t])
  {
    SumAtLeast(Blocks, s.threads, t);
    SumAtLeast(Counted, s.threads, t);
  }

  ghost predicate SumsOk(s: State) {
    && s.out == Sum(Blocks, s.threads) && s.live == Sum(Counted, s.threads)
    && s.allocations - s.deallocations == s.live + Sum(Between, s.threads)
    && s.clamped == 0 && s.events + Sum(Telling, s.threads) == |s.raised|
  }

  /** The change of a sum is what the one thread that moved contributes. */
  ghost predicate Changes(f: Thread -> int, s: State, s': State, delta: int) {
    Sum(f, s'.threads) == Sum(f, s.threads) + delta
  }

  lemma Contribution(f: Thread -> int, s: State, a: Action)
    requires Enabled(s, a) && !a.HandOver?
    ensures var s' := Next(s, a); Changes(f, s, s', f(s'.threads[a.t]) - f(s.threads[a.t]))
  {
    Moved(f, s, a);
  }

  lemma RunBlocks(s: State, a: Action)
    requires Inv(s) && Enabled(s, a) && a.Run?
    ensures var s' := Next(s, a); Changes(Blocks, s, s', s'.out - s.out)
  {
    hide Sum, Changes;
    OwnShare(s, a.t);
    assert ThreadOk(s, s.threads[a.t]);
    Contribution(Blocks, s, a);
  }

  lemma RunCounted(s: State, a: Action)
    requires Inv(s) && Enabled(s, a) && a.Run?
    ensures var s' := Next(s, a); Changes(Counted, s, s', s'.live - s.live) && s'.clamped == s.clamped
  {
    hide Sum, Changes;
    OwnShare(s, a.t);
    assert ThreadOk(s, s.threads[a.t]);
    Contribution(Counted, s, a);
  }

  lemma RunBetween(s: State, a: Action)
    requires Inv(s) && Enabled(s, a) && a.Run?
    ensures var s' := Next(s, a); Changes(Between, s, s', s'.allocations - s'.deallocations - s'.live - (s.allocations - s.deallocations - s.live))
  {
    hide Sum, Changes;
    OwnShare(s, a.t);
    assert ThreadOk(s, s.threads[a.t]);
    Contribution(Between, s, a);
  }

  lemma RunTelling(s: State, a: Action)
    requires Inv(s) && Enabled(s, a) && a.Run?
    ensures var s' := Next(s, a); Changes(Telling, s, s', |s'.raised| - s'.events - (|s.raised| - s.events))
  {
    hide Sum, Changes;
    OwnShare(s, a.t);
    assert ThreadOk(s, s.threads[a.t]);
    Contribution(Telling, s, a);
  }

  lemma ClientSums(s: State, a: Action)
    requires Enabled(s, a) && !a.Run?
    ensures var s' := Next(s, a);
      Changes(Blocks, s, s', 0) && Changes(Counted, s, s', 0) && Changes(Between, s, s', 0) && Changes(Telling, s, s', 0)
  {
    if a.HandOver? {
      HandedOver(Blocks, s, a);
      HandedOver(Counted, s, a);
      HandedOver(Between, s, a);
      HandedOver(Telling, s, a);
    } else {
      Contribution(Blocks, s, a);
      Contribution(Counted, s, a);
      Contribution(Between, s, a);
      Contribution(Telling, s, a);
    }
  }

  lemma ClientCounters(s: State, a: Action)
    requires Enabled(s, a) && !a.Run?
    ensures Next(s, a) == s.(threads := Next(s, a).threads)
  {
  }

  lemma SumsStep(s: State, a: Action)
    requires Inv(s) && Enabled(s, a)
    ensures SumsOk(Next(s, a))
  {
    hide Next, ThreadOk, PeakPending;
    if a.Run? {
      RunBlocks(s, a);
      RunCounted(s, a);
      RunBetween(s, a);
      RunTelling(s, a);
    } else {
      ClientSums(s, a);
      ClientCounters(s, a);
    }
  }

  lemma BoundsStep(s: State, a: Action)
    requires Inv(s) && Enabled(s, a)
    ensures var s' := Next(s, a);
      && s'.live <= s'.maxLive && s'.peak <= s'.maxLive && s'.last <= s'.growths
      && s.peak <= s'.peak && s.last <= s'.last && s.maxLive <= s'.maxLive && s.growths <= s'.growths
  {
    assert ThreadOk(s, s.threads[a.t]);
  }

  /** Counters a thread relies on only rise. */
  lemma BystanderOk(s: State, s': State, th: Thread)
    requires ThreadOk(s, th) && s.peak <= s'.peak && s.last <= s'.last && s.maxLive <= s'.maxLive && s.growths <= s'.growths
    ensures ThreadOk(s', th)
  {
  }

  lemma MoverOk(s: State, a: Action)
    requires Inv(s) && Enabled(s, a) && a.Run?
    ensures ThreadOk(Next(s, a), Next(s, a).threads[a.t])
  {
    hide Sum;
    OwnShare(s, a.t);
    assert ThreadOk(s, s.threads[a.t]);
  }

  lemma ClientOk(s: State, a: Action)
    requires Inv(s) && Enabled(s, a) && !a.Run?
    ensures ThreadOk(Next(s, a), Next(s, a).threads[a.t]) && (a.HandOver? ==> ThreadOk(Next(s, a), Next(s, a).threads[a.to]))
  {
    assert ThreadOk(s, s.threads[a.t]);
    assert a.HandOver? ==> ThreadOk(s, s.threads[a.to]);
  }

  lemma OtherUnmoved(s: State, a: Action, u: nat)
    requires Enabled(s, a) && u < |s.threads| && u != a.t && (a.HandOver? ==> u != a.to)
    ensures Next(s, a).threads[u] == s.threads[u]
  {
  }

  lemma ThreadsStep(s: State, a: Action, u: nat)
    requires Inv(s) && Enabled(s, a) && u < |s.threads|
    ensures ThreadOk(Next(s, a), Next(s, a).threads[u])
  {
    hide Next, Sum, PeakPending;
    if u != a.t && (a.HandOver? ==> u != a.to) {
      OtherUnmoved(s, a, u);
      BoundsStep(s, a);
      BystanderOk(s, Next(s, a), s.threads[u]);
    } else if a.Run? {
      MoverOk(s, a);
    } else {
      ClientOk(s, a);
    }
  }

  /** While the peak is behind, some thread is about to lift it. */
  lemma PeakStep(s: State, a: Action)
    requires Inv(s) && Enabled(s, a)
    ensures var s' := Next(s, a);
      s'.peak == s'.maxLive || exists t :: 0 <= t < |s'.threads| && PeakPending(s'.threads[t], s'.maxLive)
  {
    var s' := Next(s, a);
    assert ThreadOk(s, s.threads[a.t]);
    if s'.maxLive > s.maxLive {
      assert PeakPending(s'.threads[a.t], s'.maxLive);
    } else if s.peak != s.maxLive {
      var t :| 0 <= t < |s.threads| && PeakPending(s.threads[t], s.maxLive);
      if t != a.t {
        assert PeakPending(s'.threads[t], s'.maxLive);
      } else if s'.peak != s'.maxLive {
        assert PeakPending(s'.threads[t], s'.maxLive);
      }
    }
  }

  lemma InvStep(s: State, a: Action)
    requires Inv(s) && Enabled(s, a)
    ensures Inv(Next(s, a))
  {
    hide Next, ThreadOk, PeakPending;
    var s' := Next(s, a);
    SumsStep(s, a);
    BoundsStep(s, a);
    PeakStep(s, a);
    forall u | 0 <= u < |s'.threads|
      ensures ThreadOk(s', s'.threads[u])
    {
      ThreadsStep(s, a, u);
    }
  }

  lemma RisingStep(s: State, a: Action)
    requires Inv(s) && Enabled(s, a) && Rising(s)
    ensures Rising(Next(s, a))
  {
    assert ThreadOk(s, s.threads[a.t]);
  }

  lemma CaughtUpStep(s: State, a: Action)
    requires Inv(s) && Enabled(s, a) && CaughtUp(s)
    ensures CaughtUp(Next(s, a))
  {
    var s' := Next(s, a);
    assert ThreadOk(s, s.threads[a.t]);
    BoundsStep(s, a);
    if s'.growths > s.growths {
      assert s'.threads[a.t].owes == s'.growths;
    } else if s.last != s.growths {
      var t :| 0 <= t < |s.threads| && s.threads[t].owes == s.growths;
      if s'.last != s'.growths {
        assert s'.threads[t].owes == s'.growths;
      }
    }
  }

  // ---- Runs --------------------------------------------------------------------------------

  lemma {:induction false} SumZero(f: Thread -> int, ths: seq<Thread>)
    requires forall u :: 0 <= u < |ths| ==> f(ths[u]) == 0
    ensures Sum(f, ths) == 0
    decreases |ths|
  {
    if ths != [] {
      SumZero(f, ths[..|ths| - 1]);
    }
  }

  lemma InitialInv(n: nat, growths: nat)
    ensures Inv(Initial(n, growths)) && Rising(Initial(n, growths)) && (growths == 0 ==> CaughtUp(Initial(n, growths)))
  {
    var s := Initial(n, growths);
    SumZero(Blocks, s.threads);
    SumZero(Counted, s.threads);
    SumZero(Between, s.threads);
    SumZero(Telling, s.threads);
  }

  lemma {:induction false} InvRun(states: seq<State>, actions: seq<Action>, k: nat)
    requires Exec(states, actions) && k < |states| && Inv(states[0]) && Rising(states[0])
    ensures Inv(states[k]) && Rising(states[k]) && (CaughtUp(states[0]) ==> CaughtUp(states[k]))
    ensures states[0].growths <= states[k].growths
    decreases k
  {
    hide Inv, Rising, CaughtUp, Next, Enabled;
    if k > 0 {
      InvRun(states, actions, k - 1);
      var s, a := states[k - 1], actions[k - 1];
      assert Enabled(s, a);
      InvStep(s, a);
      RisingStep(s, a);
      BoundsStep(s, a);
      if CaughtUp(states[0]) {
        CaughtUpStep(s, a);
      }
    }
  }

  /** The largest value `live` had in the first `k + 1` states. */
  ghost function Highest(states: seq<State>, k: nat): nat
    requires k < |states|
  {
    if k == 0 then states[0].live else Max(Highest(states, k - 1), states[k].live)
  }

  lemma {:induction false} MaxLiveIsHighest(states: seq<State>, actions: seq<Action>, k: nat)
    requires Exec(states, actions) && k < |states| && Inv(states[0]) && Rising(states[0]) && states[0].maxLive == states[0].live
    ensures states[k].maxLive == Highest(states, k)
    decreases k
  {
    if k > 0 {
      MaxLiveIsHighest(states, actions, k - 1);
      MaxLiveStep(states[k - 1], actions[k - 1], states, actions, k - 1);
    }
  }

  lemma MaxLiveStep(s: State, a: Action, states: seq<State>, actions: seq<Action>, k: nat)
    requires Exec(states, actions) && k < |actions| && Inv(states[0]) && Rising(states[0])
    requires s == states[k] && a == actions[k]
    ensures states[k + 1] == Next(s, a) && states[k + 1].maxLive == Max(s.maxLive, states[k + 1].live)
  {
    InvRun(states, actions, k);
    assert ThreadOk(s, s.threads[a.t]);
  }

  lemma LiveAtMostOut(s: State)
    requires Inv(s)
    ensures s.live <= s.out
  {
    SumOrder(Counted, Blocks, s.threads);
  }

  lemma QuietCounters(s: State)
    requires Inv(s) && Quiet(s)
    ensures s.live == s.out && s.allocations - s.deallocations == s.live && s.peak == s.maxLive && s.events == |s.raised|
    ensures CaughtUp(s) ==> s.last == s.growths
  {
    SumOrder(Counted, Blocks, s.threads);
    SumOrder(Blocks, Counted, s.threads);
    SumZero(Between, s.threads);
    SumZero(Telling, s.threads);
    forall t | 0 <= t < |s.threads|
      ensures ThreadOk(s, s.threads[t])
    {
    }
  }

  /** In every state of every run: `live_` is at most the number of blocks out, the clamp at zero has
      never fired, and `peak_live_` is at most the largest `live_` there was; when no call is in
      progress all three are exact, and `live_` is allocations minus deallocations. */
  lemma CountersSound(n: nat, growths: nat, states: seq<State>, actions: seq<Action>, k: nat)
    requires Exec(states, actions) && states[0] == Initial(n, growths) && k < |states|
    ensures var s := states[k];
      && s.live <= s.out && s.clamped == 0 && s.peak <= Highest(states, k)
      && (Quiet(s) ==> s.live == s.out == s.allocations - s.deallocations && s.peak == Highest(states, k))
  {
    InitialInv(n, growths);
    InvRun(states, actions, k);
    MaxLiveIsHighest(states, actions, k);
    LiveAtMostOut(states[k]);
    if Quiet(states[k]) {
      QuietCounters(states[k]);
    }
  }

  lemma {:induction false} RisingCount(raised: seq<nat>, k: nat)
    requires k < |raised| && raised[0] > 0 && forall i, j :: 0 <= i < j < |raised| ==> raised[i] < raised[j]
    ensures k + 1 <= raised[k]
    decreases k
  {
    if k > 0 {
      RisingCount(raised, k - 1);
    }
  }

  /** Each event told of a higher growth count than the one before, none higher than the core's; so
      there are at most as many events as the core counter, and if the pool was adopted before it
      ever grew, at most as many as growths seen here. When no call is in progress such a pool's
      watermark is the core counter. */
  lemma GrowthEventsSound(n: nat, growths: nat, states: seq<State>, actions: seq<Action>, k: nat)
    requires Exec(states, actions) && states[0] == Initial(n, growths) && k < |states|
    ensures var s := states[k];
      && Rising(s) && s.last <= s.growths && s.events <= |s.raised| <= s.growths
      && (growths == 0 && Quiet(s) ==> s.last == s.growths)
  {
    InitialInv(n, growths);
    InvRun(states, actions, k);
    var s := states[k];
    if s.raised != [] {
      RisingCount(s.raised, |s.raised| - 1);
    }
    SumOrder(NoShare, Telling, s.threads);
    SumZero(NoShare, s.threads);
    if growths == 0 && Quiet(s) {
      QuietCounters(s);
    }
  }

  function NoShare(th: Thread): int {
    0
  }

  // ---- Adopting a pool that has grown ------------------------------------------------------

  function Lone(growths: nat, out: nat, allocations: nat, live: nat, peak: nat, last: nat, pc: Pc, raised: seq<nat>): State {
    State(out, growths, allocations, 0, 0, live, peak, last, [Thread(pc, 0, 0)], live, 0, raised, 0)
  }

  /** One allocation that does not make the pool grow, until its observers have been told. */
  function FirstAllocation(g: nat): seq<State> {
    [Lone(g, 0, 0, 0, 0, 0, Idle, []), Lone(g, 0, 0, 0, 0, 0, Allocating, []), Lone(g, 1, 0, 0, 0, 0, CountAllocation, []),
     Lone(g, 1, 1, 0, 0, 0, RaiseLive, []), Lone(g, 1, 1, 1, 0, 0, LoadPeak(1), []),
     Lone(g, 1, 1, 1, 0, 0, RaisePeak(1, 0), []), Lone(g, 1, 1, 1, 1, 0, ReadGrowths, []),
     Lone(g, 1, 1, 1, 1, 0, LoadLast(g), []), Lone(g, 1, 1, 1, 1, 0, RaiseLast(g, 0), []),
     Lone(g, 1, 1, 1, 1, g, Notify, [g]), Lone(g, 1, 1, 1, 1, g, Return, [g]).(events := 1)]
  }

  function AllocationSteps(): seq<Action> {
    [BeginAllocate(0)] + seq(9, i => Run(0, false, false, false))
  }

  lemma FirstAllocationRuns(g: nat)
    requires g > 0
    ensures Exec(FirstAllocation(g), AllocationSteps()) && FirstAllocation(g)[0] == Initial(1, g)
  {
    var states, actions := FirstAllocation(g), AllocationSteps();
    forall i | 0 <= i < |actions|
      ensures Enabled(states[i], actions[i]) && states[i + 1] == Next(states[i], actions[i])
    {
      assert states[i + 1].threads == Next(states[i], actions[i]).threads;
    }
    assert states[0].threads == Initial(1, g).threads;
  }

  /** In some run of a pool adopted after `g` growths the observers are told of more growths than there
      were since. */
  ghost predicate Overreported(g: nat) {
    exists n: nat, states, actions, k: nat :: Overreports(g, n, states, actions, k)
  }

  ghost predicate Overreports(g: nat, n: nat, states: seq<State>, actions: seq<Action>, k: nat) {
    Exec(states, actions) && k < |states| && states[0] == Initial(n, g) && states[k].events > states[k].growths - g
  }

  /** Observers can be told of growths that were not, exactly when the pool was adopted after it had
      already grown. */
  lemma OverreportedIff(g: nat)
    ensures Overreported(g) <==> g > 0
  {
    if g > 0 {
      FirstAllocationRuns(g);
      assert Overreports(g, 1, FirstAllocation(g), AllocationSteps(), 10);
    } else if Overreported(g) {
      var n: nat, states, actions, k: nat :| Overreports(g, n, states, actions, k);
      GrowthEventsSound(n, g, states, actions, k);
    }
  }
}
