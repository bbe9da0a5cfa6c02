/** When the observers of an instrumented pool are told of each growth once, and when they are not. */
module InstrumentedGrowth {
  import opened InstrumentedThreads
  import opened InstrumentedProofs

  // ---- Runs --------------------------------------------------------------------------------

  /** An allocating thread's steps, with nothing spurious. */
  function Go(t: nat): Action {
    Run(t, false, false, false)
  }

  function Grow(t: nat): Action {
    Run(t, true, false, false)
  }

  /** The same threads and `m` more that are idle throughout. */
  function Widened(s: State, m: nat): State {
    s.(threads := s.threads + seq(m, _ => Thread(Idle, 0, 0)))
  }

  /** What a step makes of the counters and of its own thread. */
  ghost predicate SameEffect(r: State, s: State, t: nat)
    requires t < |r.threads| && t < |s.threads|
  {
    && r == s.(threads := r.threads) && r.threads[t] == s.threads[t]
  }

  lemma AllocatingEffect(s: State, w: State, a: Action)
    requires a.Run? && a.t < |s.threads| && a.t < |w.threads|
    requires w == s.(threads := w.threads) && w.threads[a.t] == s.threads[a.t]
    requires var pc := s.threads[a.t].pc; pc.Idle? || pc.Allocating? || pc.CountFailure? || pc.CountAllocation? || pc.RaiseLive? || pc.LoadPeak?
    ensures SameEffect(Step(w, a), Step(s, a), a.t)
  {
  }

  lemma TellingEffect(s: State, w: State, a: Action)
    requires a.Run? && a.t < |s.threads| && a.t < |w.threads|
    requires w == s.(threads := w.threads) && w.threads[a.t] == s.threads[a.t]
    requires var pc := s.threads[a.t].pc; pc.RaisePeak? || pc.ReadGrowths? || pc.LoadLast? || pc.RaiseLast? || pc.Notify? || pc.Return?
    ensures SameEffect(Step(w, a), Step(s, a), a.t)
  {
  }

  lemma DeallocatingEffect(s: State, w: State, a: Action)
    requires a.Run? && a.t < |s.threads| && a.t < |w.threads|
    requires w == s.(threads := w.threads) && w.threads[a.t] == s.threads[a.t]
    requires var pc := s.threads[a.t].pc; pc.CountDeallocation? || pc.LoadLive? || pc.LowerLive? || pc.Deallocating?
    ensures SameEffect(Step(w, a), Step(s, a), a.t)
  {
  }

  lemma RunEffect(s: State, w: State, a: Action)
    requires a.Run? && a.t < |s.threads| && a.t < |w.threads|
    requires w == s.(threads := w.threads) && w.threads[a.t] == s.threads[a.t]
    ensures SameEffect(Step(w, a), Step(s, a), a.t)
  {
    hide Step, SameEffect;
    var pc := s.threads[a.t].pc;
    if pc.Idle? || pc.Allocating? || pc.CountFailure? || pc.CountAllocation? || pc.RaiseLive? || pc.LoadPeak? {
      AllocatingEffect(s, w, a);
    } else if pc.RaisePeak? || pc.ReadGrowths? || pc.LoadLast? || pc.RaiseLast? || pc.Notify? || pc.Return? {
      TellingEffect(s, w, a);
    } else {
      DeallocatingEffect(s, w, a);
    }
  }

  lemma BeginEffect(s: State, w: State, a: Action)
    requires (a.BeginAllocate? || a.BeginDeallocate?) && Enabled(s, a) && Enabled(w, a)
    requires w == s.(threads := w.threads) && w.threads[a.t] == s.threads[a.t]
    ensures SameEffect(Next(w, a), Next(s, a), a.t)
  {
  }

  lemma WidenedEffect(s: State, a: Action, m: nat)
    requires Enabled(s, a) && !a.HandOver?
    ensures Enabled(Widened(s, m), a) && SameEffect(Next(Widened(s, m), a), Next(s, a), a.t)
  {
    hide Step;
    assert Widened(s, m).threads[a.t] == s.threads[a.t];
    if a.Run? {
      RunEffect(s, Widened(s, m), a);
    } else {
      BeginEffect(s, Widened(s, m), a);
    }
  }

  lemma WidenedStep(s: State, a: Action, m: nat)
    requires Enabled(s, a) && !a.HandOver?
    ensures Enabled(Widened(s, m), a) && Next(Widened(s, m), a) == Widened(Next(s, a), m)
  {
    hide Next;
    WidenedEffect(s, a, m);
    RunMoves(s, a);
    RunMoves(Widened(s, m), a);
    assert Next(Widened(s, m), a).threads == Widened(Next(s, a), m).threads;
  }

  ghost function WidenedRun(states: seq<State>, m: nat): (r: seq<State>)
    ensures |r| == |states| && forall i :: 0 <= i < |r| ==> r[i] == Widened(states[i], m)
  {
    seq(|states|, i requires 0 <= i < |states| => Widened(states[i], m))
  }

  lemma WidenedExec(states: seq<State>, actions: seq<Action>, m: nat)
    requires Exec(states, actions) && forall i :: 0 <= i < |actions| ==> !actions[i].HandOver?
    ensures Exec(WidenedRun(states, m), actions)
  {
    hide Enabled, Next, Widened;
    var wide := WidenedRun(states, m);
    forall i | 0 <= i < |actions|
      ensures Enabled(wide[i], actions[i]) && wide[i + 1] == Next(wide[i], actions[i])
    {
      assert Enabled(states[i], actions[i]);
      WidenedStep(states[i], actions[i], m);
    }
  }

  // ---- The promise -------------------------------------------------------------------------

  ghost predicate Miscounts(n: nat, g: nat, states: seq<State>, actions: seq<Action>) {
    && Exec(states, actions) && states[0] == Initial(n, g)
    && var end := states[|actions|]; Quiet(end) && end.events != end.growths - g
  }

  /** Some run of `n` threads over a pool adopted after `g` growths ends, with no call in progress, having
      told the observers of more growths or fewer than there were. */
  ghost predicate Miscounted(n: nat, g: nat) {
    exists states, actions :: Miscounts(n, g, states, actions)
  }

  // ---- A growth that was not ---------------------------------------------------------------

  /** One allocation of a pool that had grown, to its end. */
  function WholeAllocation(g: nat): seq<State> {
    FirstAllocation(g) + [Lone(g, 1, 1, 1, 1, g, Idle, [g]).(events := 1, threads := [Thread(Idle, 1, 0)])]
  }

  lemma WholeAllocationRuns(g: nat)
    requires g > 0
    ensures Miscounts(1, g, WholeAllocation(g), AllocationSteps() + [Go(0)])
  {
    FirstAllocationRuns(g);
    var states, actions := WholeAllocation(g), AllocationSteps() + [Go(0)];
    forall i | 0 <= i < |actions|
      ensures Enabled(states[i], actions[i]) && states[i + 1] == Next(states[i], actions[i])
    {
      if i < 10 {
        assert states[i] == FirstAllocation(g)[i] && states[i + 1] == FirstAllocation(g)[i + 1];
        assert actions[i] == AllocationSteps()[i];
      } else {
        assert states[11].threads == Next(states[10], actions[10]).threads;
      }
    }
  }

  // ---- Two growths told as one -------------------------------------------------------------

  function Pair(growths: nat, out: nat, allocations: nat, live: nat, peak: nat, th0: Thread, th1: Thread): State {
    State(out, growths, allocations, 0, 0, live, peak, 0, [th0, th1], live, 0, [], 0)
  }

  function Told(events: nat, th0: Thread, th1: Thread): State {
    State(2, 2, 2, 0, 0, 2, 2, 2, [th0, th1], 2, 0, [2], events)
  }

  const Rests: Thread := Thread(Idle, 0, 0)
  const Waits: Thread := Thread(ReadGrowths, 0, 1)

  /** Thread 0 allocates, and makes the pool grow; it is about to read the growth counter. */
  function FirstGrows(): seq<State> {
    [Pair(0, 0, 0, 0, 0, Rests, Rests),
     Pair(0, 0, 0, 0, 0, Thread(Allocating, 0, 0), Rests),
     Pair(1, 0, 0, 0, 0, Thread(Allocating, 0, 1), Rests),
     Pair(1, 1, 0, 0, 0, Thread(CountAllocation, 0, 1), Rests),
     Pair(1, 1, 1, 0, 0, Thread(RaiseLive, 0, 1), Rests),
     Pair(1, 1, 1, 1, 0, Thread(LoadPeak(1), 0, 1), Rests),
     Pair(1, 1, 1, 1, 0, Thread(RaisePeak(1, 0), 0, 1), Rests),
     Pair(1, 1, 1, 1, 1, Waits, Rests)]
  }

  lemma FirstGrowsRuns()
    ensures Exec(FirstGrows(), [BeginAllocate(0), Grow(0), Go(0), Go(0), Go(0), Go(0), Go(0)])
  {
    var states, actions := FirstGrows(), [BeginAllocate(0), Grow(0), Go(0), Go(0), Go(0), Go(0), Go(0)];
    forall i | 0 <= i < |actions|
      ensures Enabled(states[i], actions[i]) && states[i + 1] == Next(states[i], actions[i])
    {
      assert states[i + 1].threads == Next(states[i], actions[i]).threads;
    }
  }

  /** Thread 1 does the same. */
  function SecondGrows(): seq<State> {
    [Pair(1, 1, 1, 1, 1, Waits, Rests),
     Pair(1, 1, 1, 1, 1, Waits, Thread(Allocating, 0, 0)),
     Pair(2, 1, 1, 1, 1, Waits, Thread(Allocating, 0, 2)),
     Pair(2, 2, 1, 1, 1, Waits, Thread(CountAllocation, 0, 2)),
     Pair(2, 2, 2, 1, 1, Waits, Thread(RaiseLive, 0, 2)),
     Pair(2, 2, 2, 2, 1, Waits, Thread(LoadPeak(2), 0, 2)),
     Pair(2, 2, 2, 2, 1, Waits, Thread(RaisePeak(2, 1), 0, 2)),
     Pair(2, 2, 2, 2, 2, Waits, Thread(ReadGrowths, 0, 2))]
  }

  lemma SecondGrowsRuns()
    ensures Exec(SecondGrows(), [BeginAllocate(1), Grow(1), Go(1), Go(1), Go(1), Go(1), Go(1)])
  {
    var states, actions := SecondGrows(), [BeginAllocate(1), Grow(1), Go(1), Go(1), Go(1), Go(1), Go(1)];
    forall i | 0 <= i < |actions|
      ensures Enabled(states[i], actions[i]) && states[i + 1] == Next(states[i], actions[i])
    {
      assert states[i + 1].threads == Next(states[i], actions[i]).threads;
    }
  }

  /** Thread 0 reads 2, raises the watermark from 0 and tells the observers. */
  function FirstTells(): seq<State> {
    [Pair(2, 2, 2, 2, 2, Waits, Thread(ReadGrowths, 0, 2)),
     Pair(2, 2, 2, 2, 2, Thread(LoadLast(2), 0, 1), Thread(ReadGrowths, 0, 2)),
     Pair(2, 2, 2, 2, 2, Thread(RaiseLast(2, 0), 0, 1), Thread(ReadGrowths, 0, 2)),
     Told(0, Thread(Notify, 0, 0), Thread(ReadGrowths, 0, 2)),
     Told(1, Thread(Return, 0, 0), Thread(ReadGrowths, 0, 2)),
     Told(1, Thread(Idle, 1, 0), Thread(ReadGrowths, 0, 2))]
  }

  lemma FirstTellsRuns()
    ensures Exec(FirstTells(), [Go(0), Go(0), Go(0), Go(0), Go(0)])
  {
    var states, actions := FirstTells(), [Go(0), Go(0), Go(0), Go(0), Go(0)];
    forall i | 0 <= i < |actions|
      ensures Enabled(states[i], actions[i]) && states[i + 1] == Next(states[i], actions[i])
    {
      assert states[i + 1].threads == Next(states[i], actions[i]).threads;
    }
  }

  /** Thread 1 reads 2 too, and has nothing to tell. */
  function SecondIsSilent(): seq<State> {
    [Told(1, Thread(Idle, 1, 0), Thread(ReadGrowths, 0, 2)),
     Told(1, Thread(Idle, 1, 0), Thread(LoadLast(2), 0, 2)),
     Told(1, Thread(Idle, 1, 0), Thread(Return, 0, 0)),
     Told(1, Thread(Idle, 1, 0), Thread(Idle, 1, 0))]
  }

  lemma SecondIsSilentRuns()
    ensures Exec(SecondIsSilent(), [Go(1), Go(1), Go(1)])
  {
    var states, actions := SecondIsSilent(), [Go(1), Go(1), Go(1)];
    forall i | 0 <= i < |actions|
      ensures Enabled(states[i], actions[i]) && states[i + 1] == Next(states[i], actions[i])
    {
      assert states[i + 1].threads == Next(states[i], actions[i]).threads;
    }
  }

  lemma Joined(states: seq<State>, actions: seq<Action>, more: seq<State>, onward: seq<Action>)
    requires Exec(states, actions) && Exec(more, onward) && more[0] == states[|actions|]
    ensures Exec(states + more[1..], actions + onward)
  {
    hide Enabled, Next;
    var all, acts := states + more[1..], actions + onward;
    forall i | 0 <= i < |acts|
      ensures Enabled(all[i], acts[i]) && all[i + 1] == Next(all[i], acts[i])
    {
      if i >= |actions| {
        assert all[i] == more[i - |actions|] && all[i + 1] == more[i + 1 - |actions|];
      }
    }
  }

  /** Two growths, and the observers are told once. */
  lemma TwoToldAsOne() returns (states: seq<State>, actions: seq<Action>)
    ensures Miscounts(2, 0, states, actions) && forall i :: 0 <= i < |actions| ==> !actions[i].HandOver?
    ensures states[|actions|].growths == 2 && states[|actions|].events == 1
  {
    FirstGrowsRuns();
    SecondGrowsRuns();
    FirstTellsRuns();
    SecondIsSilentRuns();
    var a1, a2 := [BeginAllocate(0), Grow(0), Go(0), Go(0), Go(0), Go(0), Go(0)], [BeginAllocate(1), Grow(1), Go(1), Go(1), Go(1), Go(1), Go(1)];
    var a3, a4 := [Go(0), Go(0), Go(0), Go(0), Go(0)], [Go(1), Go(1), Go(1)];
    Joined(FirstGrows(), a1, SecondGrows(), a2);
    Joined(FirstTells(), a3, SecondIsSilent(), a4);
    states, actions := FirstGrows() + SecondGrows()[1..], a1 + a2;
    Joined(states, actions, FirstTells() + SecondIsSilent()[1..], a3 + a4);
    states, actions := states + (FirstTells() + SecondIsSilent()[1..])[1..], actions + (a3 + a4);
    assert states[0].threads == Initial(2, 0).threads;
  }

  // ---- One thread --------------------------------------------------------------------------

  /** A lone thread over a pool adopted before it grew: the watermark is behind by the one growth it has not
      told of, and every value it was raised to was a growth. */
  ghost predicate Solo(s: State) {
    && |s.threads| == 1 && s.last == |s.raised|
    && s.growths == s.last + (if s.threads[0].owes > 0 then 1 else 0)
    && (s.threads[0].owes > 0 ==> s.threads[0].owes == s.growths)
  }

  lemma SoloStep(s: State, a: Action)
    requires Inv(s) && Enabled(s, a) && Solo(s)
    ensures Solo(Next(s, a))
  {
    assert ThreadOk(s, s.threads[0]);
  }

  lemma {:induction false} SoloRun(states: seq<State>, actions: seq<Action>, k: nat)
    requires Exec(states, actions) && k < |states| && Inv(states[0]) && Rising(states[0]) && Solo(states[0])
    ensures Solo(states[k])
    decreases k
  {
    hide Inv, Solo, Rising, Next, Enabled;
    if k > 0 {
      SoloRun(states, actions, k - 1);
      InvRun(states, actions, k - 1);
      assert Enabled(states[k - 1], actions[k - 1]);
      SoloStep(states[k - 1], actions[k - 1]);
    }
  }

  /** One thread, and a pool adopted before it grew: whenever no call is in progress, the observers have been
      told once for each growth. */
  lemma OncePerGrowth(states: seq<State>, actions: seq<Action>, k: nat)
    requires Exec(states, actions) && states[0] == Initial(1, 0) && k < |states| && Quiet(states[k])
    ensures states[k].events == states[k].growths
  {
    var s := states[k];
    InitialInv(1, 0);
    SoloRun(states, actions, k);
    InvRun(states, actions, k);
    QuietCounters(s);
    assert ThreadOk(s, s.threads[0]);
  }

  // ---- Exactly when ------------------------------------------------------------------------

  lemma NobodyMoves(states: seq<State>, actions: seq<Action>)
    requires Exec(states, actions) && |states[0].threads| == 0
    ensures actions == []
  {
  }

  /** More threads that stay idle change nothing. */
  lemma MiscountsWidened(n: nat, g: nat, states: seq<State>, actions: seq<Action>, m: nat)
    requires Miscounts(n, g, states, actions) && forall i :: 0 <= i < |actions| ==> !actions[i].HandOver?
    ensures Miscounted(n + m, g)
  {
    WidenedExec(states, actions, m);
    var wide := WidenedRun(states, m);
    assert wide[0].threads == Initial(n + m, g).threads;
    assert Miscounts(n + m, g, wide, actions);
  }

  /** The observers can be told of more or fewer growths than there were exactly if two threads or more use
      the pool, or if it was adopted after it had grown and anyone uses it. */
  lemma MiscountedIff(n: nat, g: nat)
    ensures Miscounted(n, g) <==> n >= 2 || (n == 1 && g > 0)
  {
    if n >= 1 && g > 0 {
      WholeAllocationRuns(g);
      MiscountsWidened(1, g, WholeAllocation(g), AllocationSteps() + [Go(0)], n - 1);
    } else if n >= 2 {
      var states, actions := TwoToldAsOne();
      MiscountsWidened(2, 0, states, actions, n - 2);
    } else if Miscounted(n, g) {
      var states, actions :| Miscounts(n, g, states, actions);
      if n == 1 {
        OncePerGrowth(states, actions, |actions|);
      } else {
        NobodyMoves(states, actions);
      }
    }
  }

  lemma {:induction false} RisingGap(raised: seq<nat>, i: nat, j: nat)
    requires i <= j < |raised| && forall i, j :: 0 <= i < j < |raised| ==> raised[i] < raised[j]
    ensures raised[i] + (j - i) <= raised[j]
    decreases j - i
  {
    if i < j {
      RisingGap(raised, i, j - 1);
    }
  }

  /** In a run over a pool adopted before it grew, growths are told as one exactly where the watermark rose by
      more than one: at rest there was an event for each growth exactly if it always rose by one. */
  lemma EachToldIff(n: nat, states: seq<State>, actions: seq<Action>, k: nat)
    requires Exec(states, actions) && states[0] == Initial(n, 0) && k < |states| && Quiet(states[k])
    ensures var s := states[k];
      s.events <= s.growths && (s.events == s.growths <==> forall i :: 0 <= i < |s.raised| ==> s.raised[i] == i + 1)
  {
    var s := states[k];
    GrowthEventsSound(n, 0, states, actions, k);
    InitialInv(n, 0);
    InvRun(states, actions, k);
    QuietCounters(s);
    forall i | 0 <= i < |s.raised|
      ensures i + 1 <= s.raised[i] && s.raised[i] + (|s.raised| - 1 - i) <= s.growths
    {
      RisingCount(s.raised, i);
      RisingGap(s.raised, i, |s.raised| - 1);
    }
  }
}
