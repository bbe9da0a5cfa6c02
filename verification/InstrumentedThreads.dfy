/**
 The counters of an instrumented pool, updated by any number of threads without a lock. Every load,
 fetch-and-add and weak compare-exchange is one step. The pool underneath gives out and takes back
 blocks atomically; clients free only blocks that an allocation has returned.
 */
module InstrumentedThreads {

  datatype Pc =
    | Idle
    | Allocating
    | CountFailure
    | CountAllocation
    | RaiseLive
    | LoadPeak(live: nat)
    | RaisePeak(live: nat, peak: nat)
    | ReadGrowths
    | LoadLast(growths: nat)
    | RaiseLast(growths: nat, last: nat)
    | Notify
    | Return
    | CountDeallocation
    | LoadLive
    | LowerLive(live: nat)
    | Deallocating

  /** `owned` counts the blocks a thread holds; `owes` is the growth count that its latest growth
      made, until its own check for growth is over. */
  datatype Thread = Thread(pc: Pc, owned: nat, owes: nat)

  /** `out` counts the blocks out of the pool, `growths` is the core's counter. `maxLive` is the
      largest `live` ever, `clamped` how often a free found `live` at zero, and `events` the values
      of `last` at which observers were told of a growth. */
  datatype State = State(
    out: nat, growths: nat,
    allocations: nat, deallocations: nat, failures: nat, live: nat, peak: nat, last: nat,
    threads: seq<Thread>, maxLive: nat, clamped: nat, raised: seq<nat>, events: nat)

  /** `grows` makes a step inside the pool a growth; `empty` makes it fail; `spurious` makes a weak
      compare-exchange fail although the value matches. */
  datatype Action =
    | BeginAllocate(t: nat)
    | BeginDeallocate(t: nat)
    | Run(t: nat, grows: bool, empty: bool, spurious: bool)
    | HandOver(t: nat, to: nat)

  function SetPc(s: State, t: nat, pc: Pc): (r: State)
    requires t < |s.threads|
    ensures |r.threads| == |s.threads|
  {
    s.(threads := s.threads[t := s.threads[t].(pc := pc)])
  }

  function SetThread(s: State, t: nat, th: Thread): (r: State)
    requires t < |s.threads|
    ensures |r.threads| == |s.threads|
  {
    s.(threads := s.threads[t := th])
  }

  /** The loop test of record_allocation, with the value of the peak just read. */
  function TryPeak(live: nat, peak: nat): Pc {
    if peak < live then RaisePeak(live, peak) else ReadGrowths
  }

  /** The loop test of notify_if_grew, with the value of the watermark just read. */
  function CheckGrowth(s: State, t: nat, growths: nat, last: nat): (r: State)
    requires t < |s.threads|
    ensures |r.threads| == |s.threads|
  {
    if growths > last then SetPc(s, t, RaiseLast(growths, last))
    else SetThread(s, t, s.threads[t].(pc := Return, owes := 0))
  }

  /** The loop test of deallocate, with the value of the live count just read. */
  function TryLower(s: State, t: nat, live: nat): (r: State)
    requires t < |s.threads|
    ensures |r.threads| == |s.threads|
  {
    if live > 0 then SetPc(s, t, LowerLive(live)) else SetPc(s.(clamped := s.clamped + 1), t, Deallocating)
  }

  function Max(a: nat, b: nat): nat {
    if a < b then b else a
  }

  function Step(s: State, a: Action): (r: State)
    requires a.Run? && a.t < |s.threads|
    ensures |r.threads| == |s.threads|
  {
    var t, th := a.t, s.threads[a.t];
    match th.pc
    case Idle => s
    case Allocating =>
      if a.grows then SetThread(s, t, th.(owes := s.growths + 1)).(growths := s.growths + 1)
      else if a.empty then SetPc(s, t, CountFailure)
      else SetPc(s, t, CountAllocation).(out := s.out + 1)
    case CountFailure => SetPc(s, t, Idle).(failures := s.failures + 1)
    case CountAllocation => SetPc(s, t, RaiseLive).(allocations := s.allocations + 1)
    case RaiseLive => SetPc(s, t, LoadPeak(s.live + 1)).(live := s.live + 1, maxLive := Max(s.maxLive, s.live + 1))
    case LoadPeak(live) => SetPc(s, t, TryPeak(live, s.peak))
    case RaisePeak(live, peak) =>
      if s.peak != peak || a.spurious then SetPc(s, t, TryPeak(live, s.peak))
      else SetPc(s, t, ReadGrowths).(peak := live)
    case ReadGrowths => SetPc(s, t, LoadLast(s.growths))
    case LoadLast(growths) => CheckGrowth(s, t, growths, s.last)
    case RaiseLast(growths, last) =>
      if s.last != last || a.spurious then CheckGrowth(s, t, growths, s.last)
      else SetThread(s, t, th.(pc := Notify, owes := 0)).(last := growths, raised := s.raised + [growths])
    case Notify => SetPc(s, t, Return).(events := s.events + 1)
    case Return => SetThread(s, t, Thread(Idle, th.owned + 1, th.owes))
    case CountDeallocation => SetPc(s, t, LoadLive).(deallocations := s.deallocations + 1)
    case LoadLive => TryLower(s, t, s.live)
    case LowerLive(live) =>
      if s.live != live || a.spurious then TryLower(s, t, s.live)
      else SetPc(s, t, Deallocating).(live := if live > 0 then live - 1 else 0)
    case Deallocating => SetPc(s, t, Idle).(out := if s.out > 0 then s.out - 1 else 0)
  }

  function Next(s: State, a: Action): (r: State)
    requires Enabled(s, a)
    ensures |r.threads| == |s.threads|
  {
    match a
    case BeginAllocate(t) => SetPc(s, t, Allocating)
    case BeginDeallocate(t) => SetThread(s, t, Thread(CountDeallocation, s.threads[t].owned - 1, s.threads[t].owes))
    case Run(_, _, _, _) => Step(s, a)
    case HandOver(t, to) =>
      var from := s.threads[t].(owned := s.threads[t].owned - 1);
      SetThread(SetThread(s, t, from), to, s.threads[to].(owned := s.threads[to].owned + 1))
  }

  /** A growth vends one of its blocks to the thread that made it, so a call grows at most once and
      then does not fail. */
  predicate Enabled(s: State, a: Action) {
    a.t < |s.threads| &&
    match a
    case BeginAllocate(t) => s.threads[t].pc == Idle
    case BeginDeallocate(t) => s.threads[t].pc == Idle && s.threads[t].owned > 0
    case Run(t, grows, empty, _) => s.threads[t].owes > 0 ==> !grows && !empty
    case HandOver(t, to) => to < |s.threads| && t != to && s.threads[t].owned > 0
  }

  /** An instrumented pool just made from a pool that has grown `growths` times. */
  function Initial(n: nat, growths: nat): State {
    State(0, growths, 0, 0, 0, 0, 0, 0, seq(n, i requires 0 <= i < n => Thread(Idle, 0, 0)), 0, 0, [], 0)
  }

  ghost predicate Exec(states: seq<State>, actions: seq<Action>) {
    && |states| == |actions| + 1
    && forall i :: 0 <= i < |actions| ==> Enabled(states[i], actions[i]) && states[i + 1] == Next(states[i], actions[i])
  }

  ghost predicate Quiet(s: State) {
    forall t :: 0 <= t < |s.threads| ==> s.threads[t].pc == Idle
  }

  // ---- Sums over threads -------------------------------------------------------------------

  ghost function Sum(f: Thread -> int, ths: seq<Thread>): int {
    if ths == [] then 0 else Sum(f, ths[..|ths| - 1]) + f(ths[|ths| - 1])
  }

  lemma {:induction false} SumUpdate(f: Thread -> int, ths: seq<Thread>, t: nat, th: Thread)
    requires t < |ths|
    ensures Sum(f, ths[t := th]) == Sum(f, ths) + f(th) - f(ths[t])
    decreases |ths|
  {
    var n := |ths| - 1;
    var more := ths[t := th];
    if t == n {
      assert more[..n] == ths[..n];
    } else {
      SumUpdate(f, ths[..n], t, th);
      assert more[..n] == ths[..n][t := th];
    }
  }

  lemma {:induction false} SumAtLeast(f: Thread -> int, ths: seq<Thread>, t: nat)
    requires t < |ths| && forall u :: 0 <= u < |ths| ==> f(ths[u]) >= 0
    ensures Sum(f, ths) >= f(ths[t])
    decreases |ths|
  {
    var n := |ths| - 1;
    if t < n {
      SumAtLeast(f, ths[..n], t);
    } else if n > 0 {
      SumAtLeast(f, ths[..n], 0);
    }
  }

  lemma {:induction false} SumOrder(f: Thread -> int, g: Thread -> int, ths: seq<Thread>)
    requires forall u :: 0 <= u < |ths| ==> f(ths[u]) <= g(ths[u])
    ensures Sum(f, ths) <= Sum(g, ths)
    decreases |ths|
  {
    if ths != [] {
      SumOrder(f, g, ths[..|ths| - 1]);
    }
  }

  /** Blocks a thread has out of the pool. */
  function Blocks(th: Thread): int {
    th.owned + match th.pc
      case Idle => 0
      case Allocating => 0
      case CountFailure => 0
      case _ => 1
  }

  /** Blocks of a thread that `live` counts. */
  function Counted(th: Thread): int {
    th.owned + match th.pc
      case Idle => 0
      case Allocating => 0
      case CountFailure => 0
      case CountAllocation => 0
      case RaiseLive => 0
      case Deallocating => 0
      case _ => 1
  }

  /** Calls that are counted in one of `allocations` and `deallocations` but not yet in `live`. */
  function Between(th: Thread): int {
    match th.pc
    case RaiseLive => 1
    case LoadLive => -1
    case LowerLive(_) => -1
    case _ => 0
  }

  function Telling(th: Thread): int {
    if th.pc.Notify? then 1 else 0
  }

  // ---- The invariant -----------------------------------------------------------------------

  ghost predicate PeakPending(th: Thread, max: nat) {
    match th.pc
    case LoadPeak(live) => live == max
    case RaisePeak(live, _) => live == max
    case _ => false
  }

  ghost predicate ThreadOk(s: State, th: Thread) {
    && th.owes <= s.growths
    && match th.pc
       case LoadPeak(live) => live <= s.maxLive
       case RaisePeak(live, peak) => peak < live <= s.maxLive && peak <= s.peak
       case LoadLast(growths) => th.owes <= growths <= s.growths
       case RaiseLast(growths, last) => th.owes <= growths <= s.growths && last < growths && last <= s.last
       case LowerLive(live) => live > 0 && th.owes == 0
       case Idle => th.owes == 0
       case CountFailure => th.owes == 0
       case Notify => th.owes == 0
       case Return => th.owes == 0
       case CountDeallocation => th.owes == 0
       case LoadLive => th.owes == 0
       case Deallocating => th.owes == 0
       case _ => true
  }

  ghost predicate Inv(s: State) {
    && s.out == Sum(Blocks, s.threads) && s.live == Sum(Counted, s.threads)
    && s.allocations - s.deallocations == s.live + Sum(Between, s.threads)
    && s.clamped == 0 && s.live <= s.maxLive && s.peak <= s.maxLive && s.last <= s.growths
    && s.events + Sum(Telling, s.threads) == |s.raised|
    && (s.peak == s.maxLive || exists t :: 0 <= t < |s.threads| && PeakPending(s.threads[t], s.maxLive))
    && (forall t :: 0 <= t < |s.threads| ==> ThreadOk(s, s.threads[t]))
  }

  /** Observers are told of ever higher growth counts. */
  ghost predicate Rising(s: State) {
    && (forall i, j :: 0 <= i < j < |s.raised| ==> s.raised[i] < s.raised[j])
    && (s.raised == [] ==> s.last == 0) && (s.raised != [] ==> s.raised[0] > 0 && s.last == s.raised[|s.raised| - 1])
  }

  /** The watermark is behind only while the thread whose growth it missed has not checked. */
  ghost predicate CaughtUp(s: State) {
    s.last == s.growths || exists t :: 0 <= t < |s.threads| && s.threads[t].owes == s.growths
  }
}
