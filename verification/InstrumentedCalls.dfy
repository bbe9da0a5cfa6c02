/** What the counters of an instrumented pool say of the calls of a run, and that every call comes to an end. */
module InstrumentedCalls {
  import opened InstrumentedThreads
  import opened InstrumentedProofs

  // ---- Calls -------------------------------------------------------------------------------

  function One(b: bool): nat {
    if b then 1 else 0
  }

  /** The step gives a block to its thread's client. */
  ghost predicate Vends(s: State, a: Action)
    requires Enabled(s, a)
  {
    a.Run? && Next(s, a).threads[a.t].owned > s.threads[a.t].owned
  }

  /** How many allocations were begun in the first `k` steps. */
  ghost function AllocationsBegun(actions: seq<Action>, k: nat): nat
    requires k <= |actions|
  {
    if k == 0 then 0 else AllocationsBegun(actions, k - 1) + One(actions[k - 1].BeginAllocate?)
  }

  /** How many deallocations were. */
  ghost function DeallocationsBegun(actions: seq<Action>, k: nat): nat
    requires k <= |actions|
  {
    if k == 0 then 0 else DeallocationsBegun(actions, k - 1) + One(actions[k - 1].BeginDeallocate?)
  }

  /** How many calls returned a block in the first `k` steps. */
  ghost function Returned(states: seq<State>, actions: seq<Action>, k: nat): nat
    requires Exec(states, actions) && k <= |actions|
  {
    if k == 0 then 0 else Returned(states, actions, k - 1) + One(Vends(states[k - 1], actions[k - 1]))
  }

  /** An allocation in progress. */
  function Asking(th: Thread): int {
    match th.pc
    case Idle => 0
    case CountDeallocation => 0
    case LoadLive => 0
    case LowerLive(_) => 0
    case Deallocating => 0
    case _ => 1
  }

  /** One that was counted as a success. */
  function Served(th: Thread): int {
    match th.pc
    case Allocating => 0
    case CountFailure => 0
    case CountAllocation => 0
    case _ => Asking(th)
  }

  /** A deallocation that was not counted. */
  function Uncounted(th: Thread): int {
    if th.pc.CountDeallocation? then 1 else 0
  }

  lemma StepCalls(s: State, a: Action)
    requires Enabled(s, a) && ThreadOk(s, s.threads[a.t])
    ensures var s' := Next(s, a);
      && Changes(Asking, s, s', One(a.BeginAllocate?) - One(Vends(s, a)) - (s'.failures - s.failures))
      && Changes(Served, s, s', s'.allocations - s.allocations - One(Vends(s, a)))
      && Changes(Uncounted, s, s', One(a.BeginDeallocate?) - (s'.deallocations - s.deallocations))
  {
    hide Sum, Changes;
    if a.HandOver? {
      HandedOverCalls(s, a);
    } else {
      Contribution(Asking, s, a);
      Contribution(Served, s, a);
      Contribution(Uncounted, s, a);
    }
  }

  lemma HandedOverCalls(s: State, a: Action)
    requires Enabled(s, a) && a.HandOver?
    ensures Changes(Asking, s, Next(s, a), 0) && Changes(Served, s, Next(s, a), 0) && Changes(Uncounted, s, Next(s, a), 0)
  {
    HandedOver(Asking, s, a);
    HandedOver(Served, s, a);
    HandedOver(Uncounted, s, a);
  }

  lemma {:induction false} CallsCounted(n: nat, growths: nat, states: seq<State>, actions: seq<Action>, k: nat)
    requires Exec(states, actions) && states[0] == Initial(n, growths) && k < |states|
    ensures var s := states[k];
      && AllocationsBegun(actions, k) == Returned(states, actions, k) + s.failures + Sum(Asking, s.threads)
      && s.allocations == Returned(states, actions, k) + Sum(Served, s.threads)
      && DeallocationsBegun(actions, k) == s.deallocations + Sum(Uncounted, s.threads)
    decreases k
  {
    if k == 0 {
      SumZero(Asking, states[0].threads);
      SumZero(Served, states[0].threads);
      SumZero(Uncounted, states[0].threads);
    } else {
      hide Next, Enabled, Sum, Initial, Vends;
      CallsCounted(n, growths, states, actions, k - 1);
      var s, a := states[k - 1], actions[k - 1];
      assert Enabled(s, a) && states[k] == Next(s, a);
      StateOk(n, growths, states, actions, k - 1, a.t);
      StepCalls(s, a);
    }
  }

  lemma StateOk(n: nat, growths: nat, states: seq<State>, actions: seq<Action>, k: nat, t: nat)
    requires Exec(states, actions) && states[0] == Initial(n, growths) && k < |actions| && t == actions[k].t
    ensures t < |states[k].threads| && ThreadOk(states[k], states[k].threads[t])
  {
    InitialInv(n, growths);
    InvRun(states, actions, k);
    assert Enabled(states[k], actions[k]);
  }

  /** When no call is in progress, `allocations_` is the number of calls that returned a block, `allocation_failures_` the
      number of allocations that did not, and `deallocations_` the number of deallocations. */
  lemma CallsExact(n: nat, growths: nat, states: seq<State>, actions: seq<Action>, k: nat)
    requires Exec(states, actions) && states[0] == Initial(n, growths) && k < |states| && Quiet(states[k])
    ensures var s := states[k];
      && s.allocations == Returned(states, actions, k)
      && s.failures == AllocationsBegun(actions, k) - Returned(states, actions, k)
      && s.deallocations == DeallocationsBegun(actions, k)
  {
    CallsCounted(n, growths, states, actions, k);
    SumZero(Asking, states[k].threads);
    SumZero(Served, states[k].threads);
    SumZero(Uncounted, states[k].threads);
  }

  // ---- Coming to an end --------------------------------------------------------------------

  /** How many steps thread `t` is from the end of its call, if it runs alone. */
  function Left(s: State, t: nat): nat
    requires t < |s.threads|
  {
    match s.threads[t].pc
    case Idle => 0
    case Allocating => 12
    case CountFailure => 1
    case CountAllocation => 11
    case RaiseLive => 10
    case LoadPeak(_) => 9
    case RaisePeak(_, peak) => if s.peak == peak then 7 else 8
    case ReadGrowths => 6
    case LoadLast(_) => 5
    case RaiseLast(_, last) => if s.last == last then 3 else 4
    case Notify => 2
    case Return => 1
    case CountDeallocation => 5
    case LoadLive => 4
    case LowerLive(live) => if s.live == live then 2 else 3
    case Deallocating => 1
  }

  /** A step of thread `t` with no growth, no refusal and no spurious failure. */
  function Plain(t: nat): Action {
    Run(t, false, false, false)
  }

  lemma Nearer(s: State, t: nat)
    requires t < |s.threads| && s.threads[t].pc != Idle
    ensures Left(Next(s, Plain(t)), t) < Left(s, t)
  {
  }

  /** From wherever it is in a call, whatever the others have done, a thread that runs alone is idle again after at most
      twelve steps. */
  lemma {:induction false} Finishes(s: State, t: nat) returns (states: seq<State>, actions: seq<Action>)
    requires t < |s.threads|
    ensures Exec(states, actions) && states[0] == s && |actions| <= 12
    ensures forall i :: 0 <= i < |actions| ==> actions[i] == Plain(t)
    ensures var end := states[|actions|]; t < |end.threads| && end.threads[t].pc == Idle
    ensures |actions| <= Left(s, t)
    decreases Left(s, t)
  {
    if s.threads[t].pc == Idle {
      return [s], [];
    }
    Nearer(s, t);
    hide Next;
    states, actions := Finishes(Next(s, Plain(t)), t);
    Prefixed(s, Plain(t), states, actions);
    states, actions := [s] + states, [Plain(t)] + actions;
  }

  lemma Prefixed(s: State, a: Action, states: seq<State>, actions: seq<Action>)
    requires Exec(states, actions) && Enabled(s, a) && states[0] == Next(s, a)
    ensures Exec([s] + states, [a] + actions)
  {
    hide Next, Enabled;
    var all, acts := [s] + states, [a] + actions;
    forall i | 0 <= i < |acts|
      ensures Enabled(all[i], acts[i]) && all[i + 1] == Next(all[i], acts[i])
    {
      if i > 0 {
        assert all[i] == states[i - 1] && all[i + 1] == states[i] && acts[i] == actions[i - 1];
      }
    }
  }
}
