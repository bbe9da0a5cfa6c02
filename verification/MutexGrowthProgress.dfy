/** Under the mutex policy every call comes to an end. */
module MutexGrowthProgress {
  import opened Common
  import opened Slots
  import opened MutexGrowth
  import opened MutexGrowthProofs

  // ---- Steps to the end --------------------------------------------------------------------

  /** Thread `t` is `n` of its own steps, or fewer, from the end of its call. A walk passes each chunk that was linked
      when it read the head of the list. */
  ghost predicate Rank(c: Config, s: State, t: nat, n: nat) {
    t < |s.threads| &&
    match s.threads[t].pc
    case Idle => n == 0
    case Unlock(_) => n == 1
    case PushLocked(_) => n == 2
    case PushWait(_) => n == 3
    case AllocWait => n == 9
    case AllocLocked => n == if s.free != [] then 2 else 8
    case GrowBacking(_) => n == 7
    case GrowCount(_) => n == 6
    case GrowNext(_) => n == 5
    case GrowLink(_) => n == 4
    case GrowHead(_) => n == 3
    case WalkFirst(_) => n == 3 * |s.chunks| + 2
    case WalkHead(_) => n == 3 * |s.chunks| + 1
    case WalkBacking(call, d) => exists k: nat :: At(c, s, call, d, k) && n == 3 * k + 3
    case WalkCount(call, d, base) => exists k: nat :: At(c, s, call, d, k) && base == s.chunks[k].base && n == 3 * k + 2
    case WalkNext(call, d) =>
      exists k: nat :: At(c, s, call, d, k) && !IsChunkSlot(s.chunks[k], c.stride, call.block) && n == 3 * k + 1
  }

  ghost predicate Nearer(c: Config, s: State, t: nat, n: nat) {
    exists m: nat :: m < n && Rank(c, s, t, m)
  }

  lemma AtSame(c: Config, s: State, s': State, call: Call, d: nat, k: nat)
    requires At(c, s, call, d, k) && s'.chunks == s.chunks && s'.addrs == s.addrs
    ensures At(c, s', call, d, k)
  {
  }

  lemma WalkedOn(c: Config, s: State, t: nat, call: Call, k: nat, n: nat)
    requires ListOk(c, s) && t < |s.threads| && 1 <= k <= call.seen <= |s.chunks| && n > 3 * k
    requires !IsChunkSlot(s.chunks[0], c.stride, call.block)
    requires forall j {:trigger s.chunks[j]} :: k <= j < call.seen ==> !IsChunkSlot(s.chunks[j], c.stride, call.block)
    ensures Nearer(c, WalkOn(s, t, call, s.addrs[k - 1]), t, n)
  {
    var s' := WalkOn(s, t, call, s.addrs[k - 1]);
    if k == 1 {
      assert Rank(c, s', t, 0);
    } else {
      assert Described(s, k - 1);
      assert At(c, s', call, s.addrs[k - 1], k - 1);
      assert Rank(c, s', t, 3 * (k - 1) + 3);
    }
  }

  lemma FirstNearer(c: Config, s: State, t: nat, n: nat)
    requires ListOk(c, s) && t < |s.threads| && c.stride > 0 && Rank(c, s, t, n)
    requires s.threads[t].pc.WalkFirst? || s.threads[t].pc.WalkHead?
    requires s.threads[t].pc.WalkHead? ==> !IsChunkSlot(s.chunks[0], c.stride, s.threads[t].pc.call.block)
    ensures Nearer(c, WalkStep(c, s, t), t, n)
  {
    var s', pc := WalkStep(c, s, t), s.threads[t].pc;
    if pc.WalkFirst? {
      assert Rank(c, s', t, 3) || Rank(c, s', t, 3 * |s.chunks| + 1);
    } else {
      WalkedOn(c, s, t, pc.call.(seen := |s.chunks|), |s.chunks|, n);
    }
  }

  lemma BackingNearer(c: Config, s: State, t: nat, n: nat)
    requires ListOk(c, s) && t < |s.threads| && c.stride > 0 && s.threads[t].pc.WalkBacking? && Rank(c, s, t, n)
    ensures Nearer(c, WalkStep(c, s, t), t, n)
  {
    var s', call, d := WalkStep(c, s, t), s.threads[t].pc.call, s.threads[t].pc.chunk;
    var k: nat :| At(c, s, call, d, k) && n == 3 * k + 3;
    assert Described(s, k);
    assert At(c, s', call, d, k);
    assert Rank(c, s', t, 3 * k + 2);
  }

  lemma CountNearer(c: Config, s: State, t: nat, n: nat)
    requires ListOk(c, s) && t < |s.threads| && c.stride > 0 && s.threads[t].pc.WalkCount? && Rank(c, s, t, n)
    ensures Nearer(c, WalkStep(c, s, t), t, n)
  {
    var s', call, d, base := WalkStep(c, s, t), s.threads[t].pc.call, s.threads[t].pc.chunk, s.threads[t].pc.base;
    var k: nat :| At(c, s, call, d, k) && base == s.chunks[k].base && n == 3 * k + 2;
    assert Described(s, k) && ChunkOk(s.chunks[k], c.stride);
    InChunkExact(c, s.chunks[k], call.block);
    assert At(c, s', call, d, k);
    assert Rank(c, s', t, 3) || Rank(c, s', t, 3 * k + 1);
  }

  lemma NextNearer(c: Config, s: State, t: nat, n: nat)
    requires ListOk(c, s) && t < |s.threads| && c.stride > 0 && s.threads[t].pc.WalkNext? && Rank(c, s, t, n)
    ensures Nearer(c, WalkStep(c, s, t), t, n)
  {
    var call, d := s.threads[t].pc.call, s.threads[t].pc.chunk;
    var k: nat :| At(c, s, call, d, k) && !IsChunkSlot(s.chunks[k], c.stride, call.block) && n == 3 * k + 1;
    assert Described(s, k);
    hide Described, Nearer;
    WalkedOn(c, s, t, call, k, n);
  }

  lemma WalkNearer(c: Config, s: State, t: nat, n: nat)
    requires WalkInv(c, s) && t < |s.threads| && c.stride > 0 && Walking(s.threads[t].pc) && Rank(c, s, t, n)
    ensures Nearer(c, WalkStep(c, s, t), t, n)
  {
    hide VerdictOk, Linked, Pending, Rank, Nearer, WalkStep;
    assert ThreadOk(c, s, t);
    match s.threads[t].pc {
      case WalkBacking(_, _) => BackingNearer(c, s, t, n);
      case WalkCount(_, _, _) => CountNearer(c, s, t, n);
      case WalkNext(_, _) => NextNearer(c, s, t, n);
      case _ => FirstNearer(c, s, t, n);
    }
  }

  /** Each step of a call brings its thread nearer to the end, whatever the others have done and whatever is granted. */
  lemma OwnNearer(c: Config, s: State, t: nat, grant: Option<Grant>, n: nat)
    requires WalkInv(c, s) && Enabled(c, s, Run(t, grant)) && Rank(c, s, t, n) && n > 0
    ensures Nearer(c, Next(c, s, Run(t, grant)), t, n)
  {
    var s', pc := Next(c, s, Run(t, grant)), s.threads[t].pc;
    hide VerdictOk, Linked, Grantable, BegunOk, At;
    if Walking(pc) {
      WalkNearer(c, s, t, n);
    } else {
      assert ThreadOk(c, s, t);
      LockerNearer(c, s, t, grant, n);
    }
  }

  lemma LockerNearer(c: Config, s: State, t: nat, grant: Option<Grant>, n: nat)
    requires WalkInv(c, s) && Enabled(c, s, Run(t, grant)) && Rank(c, s, t, n) && n > 0 && !Walking(s.threads[t].pc)
    ensures Nearer(c, Next(c, s, Run(t, grant)), t, n)
  {
    hide VerdictOk, Linked, Grantable, BegunOk, At, Described, Reserved;
    var s', pc := Next(c, s, Run(t, grant)), s.threads[t].pc;
    assert ThreadOk(c, s, t);
    if pc.GrowHead? {
      assert ChunkOk(s.chunks[|s.chunks| - 1], c.stride);
    }
    var m := if pc.AllocWait? then if s.free != [] then 2 else 8
      else if pc.AllocLocked? then if s.free == [] && grant.Some? then 7 else 1
      else n - 1;
    assert Rank(c, s', t, m);
  }

  // ---- Nobody waits for ever ---------------------------------------------------------------

  /** The thread that holds the lock is where it needs it. */
  ghost predicate HolderOk(s: State) {
    s.lock.Some? ==> s.lock.value < |s.threads| && NeedsLock(s.threads[s.lock.value].pc)
  }

  lemma HolderStep(c: Config, s: State, a: Action)
    requires WalkInv(c, s) && Enabled(c, s, a) && HolderOk(s)
    ensures HolderOk(Next(c, s, a))
  {
    hide ListOk, VerdictOk, Linked, Grantable, WalkOk, Pending;
    assert ThreadOk(c, s, a.t) by { MoverExists(c, s, a); }
    if a.Run? && Walking(s.threads[a.t].pc) {
      WalkNeedsNoLock(c, s, a.t);
    }
  }

  lemma WalkNeedsNoLock(c: Config, s: State, t: nat)
    requires t < |s.threads| && c.stride > 0 && Walking(s.threads[t].pc)
    ensures OnlyLooks(s, WalkStep(c, s, t), t) && !NeedsLock(WalkStep(c, s, t).threads[t].pc)
  {
  }

  lemma LockKept(c: Config, s: State, t: nat, grant: Option<Grant>)
    requires Enabled(c, s, Run(t, grant)) && HolderOk(s) && (s.lock == None || s.lock == Some(t))
    ensures var s' := Next(c, s, Run(t, grant)); s'.lock == None || s'.lock == Some(t)
  {
    hide Grantable;
    if Walking(s.threads[t].pc) {
      WalkNeedsNoLock(c, s, t);
    }
  }

  /** Only thread `t` moved, and no chunk was unlinked. */
  ghost predicate OnlyMoved(s: State, s': State, t: nat) {
    && |s'.threads| == |s.threads| && |s.chunks| <= |s'.chunks|
    && forall u :: 0 <= u < |s.threads| && u != t ==> s'.threads[u] == s.threads[u]
  }

  ghost predicate Steps(actions: seq<Action>, t: nat) {
    forall i :: 0 <= i < |actions| ==> actions[i] == Run(t, None)
  }

  lemma OwnMoves(c: Config, s: State, t: nat)
    requires WalkInv(c, s) && HolderOk(s) && (s.lock == None || s.lock == Some(t)) && t < |s.threads|
    ensures c.stride > 0 && Enabled(c, s, Run(t, None))
    ensures var s' := Next(c, s, Run(t, None));
      WalkInv(c, s') && HolderOk(s') && (s'.lock == None || s'.lock == Some(t)) && OnlyMoved(s, s', t)
  {
    ListNotEmpty(c, s);
    hide WalkInv, Next;
    var a := Run(t, None);
    WalkInvStep(c, s, a);
    HolderStep(c, s, a);
    LockKept(c, s, t, None);
    ListStep(c, s, a);
    forall u | 0 <= u < |s.threads| && u != t
      ensures Next(c, s, a).threads[u] == s.threads[u]
    {
      OtherUnmoved(c, s, a, u);
    }
  }

  /** Alone, a thread that no other keeps from the lock comes to the end of its call. */
  lemma {:induction false} RunsToEnd(c: Config, s: State, t: nat, n: nat) returns (states: seq<State>, actions: seq<Action>)
    requires WalkInv(c, s) && HolderOk(s) && (s.lock == None || s.lock == Some(t)) && Rank(c, s, t, n)
    ensures Exec(c, states, actions) && states[0] == s && |actions| <= n && Steps(actions, t)
    ensures var end := states[|actions|];
      && WalkInv(c, end) && HolderOk(end) && OnlyMoved(s, end, t) && t < |end.threads| && end.threads[t].pc == Idle
      && end.lock == None
    decreases n
  {
    if s.threads[t].pc == Idle {
      states, actions := [s], [];
      return;
    }
    assert n > 0;
    hide WalkInv, HolderOk, Rank, Next, Enabled;
    OwnMoves(c, s, t);
    OwnNearer(c, s, t, None, n);
    var s' := Next(c, s, Run(t, None));
    var m: nat :| m < n && Rank(c, s', t, m);
    states, actions := RunsToEnd(c, s', t, m);
    Prefixed(c, s, Run(t, None), states, actions);
    states, actions := [s] + states, [Run(t, None)] + actions;
  }

  lemma Prefixed(c: Config, s: State, a: Action, states: seq<State>, actions: seq<Action>)
    requires Exec(c, states, actions) && Enabled(c, s, a) && states[0] == Next(c, s, a)
    ensures Exec(c, [s] + states, [a] + actions)
  {
    hide Next, Enabled;
    var all, acts := [s] + states, [a] + actions;
    forall i | 0 <= i < |acts|
      ensures Enabled(c, all[i], acts[i]) && all[i + 1] == Next(c, all[i], acts[i])
    {
      if i > 0 {
        assert all[i] == states[i - 1] && all[i + 1] == states[i] && acts[i] == actions[i - 1];
      }
    }
  }

  lemma HasRank(c: Config, s: State, t: nat) returns (n: nat)
    requires WalkInv(c, s) && t < |s.threads|
    ensures Rank(c, s, t, n) && n <= 3 * |s.chunks| + 8
    ensures NeedsLock(s.threads[t].pc) ==> n <= 8
  {
    hide VerdictOk, Linked, BegunOk, Described, Pending;
    assert ThreadOk(c, s, t);
    ListNotEmpty(c, s);
    match s.threads[t].pc {
      case Idle => n := 0;
      case Unlock(_) => n := 1;
      case PushLocked(_) => n := 2;
      case PushWait(_) => n := 3;
      case AllocWait => n := 9;
      case AllocLocked => n := if s.free != [] then 2 else 8;
      case GrowBacking(_) => n := 7;
      case GrowCount(_) => n := 6;
      case GrowNext(_) => n := 5;
      case GrowLink(_) => n := 4;
      case GrowHead(_) => n := 3;
      case WalkFirst(_) => n := 3 * |s.chunks| + 2;
      case WalkHead(_) => n := 3 * |s.chunks| + 1;
      case WalkBacking(call, d) =>
        var k: nat :| At(c, s, call, d, k);
        n := 3 * k + 3;
      case WalkCount(call, d, base) =>
        var k: nat :| At(c, s, call, d, k) && base == s.chunks[k].base;
        n := 3 * k + 2;
      case WalkNext(call, d) =>
        var k: nat :| At(c, s, call, d, k) && !IsChunkSlot(s.chunks[k], c.stride, call.block);
        n := 3 * k + 1;
    }
  }

  lemma Joined(c: Config, states: seq<State>, actions: seq<Action>, more: seq<State>, onward: seq<Action>)
    requires Exec(c, states, actions) && Exec(c, more, onward) && more[0] == states[|actions|]
    ensures Exec(c, states + more[1..], actions + onward)
  {
    hide Enabled, Next;
    var all, acts := states + more[1..], actions + onward;
    forall i | 0 <= i < |acts|
      ensures Enabled(c, all[i], acts[i]) && all[i + 1] == Next(c, all[i], acts[i])
    {
      if i >= |actions| {
        assert all[i] == more[i - |actions|] && all[i + 1] == more[i + 1 - |actions|];
      }
    }
  }

  lemma {:induction false} HolderRun(c: Config, n: nat, states: seq<State>, actions: seq<Action>, k: nat)
    requires Possible(c) && Exec(c, states, actions) && states[0] == Initial(c, n) && k < |states|
    ensures WalkInv(c, states[k]) && HolderOk(states[k])
    decreases k
  {
    InitialWalkInv(c, n);
    hide WalkInv, HolderOk, Next, Enabled, Possible;
    assert k == 0 ==> HolderOk(states[0]) by { NobodyHolds(c, n); }
    if k > 0 {
      HolderRun(c, n, states, actions, k - 1);
      assert Enabled(c, states[k - 1], actions[k - 1]);
      WalkInvStep(c, states[k - 1], actions[k - 1]);
      HolderStep(c, states[k - 1], actions[k - 1]);
    }
  }

  lemma NobodyHolds(c: Config, n: nat)
    ensures HolderOk(Initial(c, n))
  {
  }

  /** In every reachable state every call can be brought to its end, by letting first the thread that holds the lock run,
      if there is one, and then the caller: no more steps than three for each chunk and sixteen. */
  lemma CallsFinish(c: Config, n: nat, states: seq<State>, actions: seq<Action>, k: nat, t: nat)
    returns (more: seq<State>, onward: seq<Action>)
    requires Possible(c) && Exec(c, states, actions) && states[0] == Initial(c, n) && k < |states| && t < |states[k].threads|
    ensures Exec(c, more, onward) && more[0] == states[k]
    ensures forall i :: 0 <= i < |onward| ==> onward[i] == Run(t, None) || (states[k].lock.Some? && onward[i] == Run(states[k].lock.value, None))
    ensures var end := more[|onward|];
      t < |end.threads| && end.threads[t].pc == Idle && |onward| <= 3 * |end.chunks| + 16
  {
    HolderRun(c, n, states, actions, k);
    var s, r := states[k], 0;
    more, onward := [s], [];
    hide WalkInv, Next, Enabled, Rank;
    if s.lock.Some? {
      r := HasRank(c, s, s.lock.value);
      more, onward := RunsToEnd(c, s, s.lock.value, r);
    }
    var s1 := more[|onward|];
    r := HasRank(c, s1, t);
    var later, last := RunsToEnd(c, s1, t, r);
    Joined(c, more, onward, later, last);
    more, onward := more + later[1..], onward + last;
  }
}
