/** The mutex policy with growth as one LIFO list that a growth refills, and what one call sees of it. */
module MutexGrowthCalls {
  import opened Common
  import opened Slots
  import opened MutexGrowth
  import opened MutexGrowthProofs
  import opened MutexGrowthSlots

  // ---- The list ----------------------------------------------------------------------------

  datatype Event = Silent | Pop(block: nat) | Push(block: nat) | Fail | Refill(chunk: Chunk)

  /** What a step does to the list, read off the program: the steps under the lock that take the top, put a block
      there, give up, or make the slots of the chunk just linked the list. */
  ghost function EventOf(c: Config, s: State, a: Action): Event
    requires Enabled(c, s, a)
  {
    if !a.Run? then Silent else
      match s.threads[a.t].pc
      case AllocLocked => if s.free != [] then Pop(s.free[0]) else if a.grant.None? then Fail else Silent
      case GrowHead(g) => Refill(Chunk(g.base, g.count))
      case PushLocked(call) => Push(call.block)
      case _ => Silent
  }

  /** The events such a list allows. */
  ghost predicate Legal(list: seq<nat>, e: Event) {
    match e
    case Silent => true
    case Pop(b) => list != [] && list[0] == b
    case Push(b) => b !in list
    case Fail => list == []
    case Refill(ch) => list == [] && ch.count > 0
  }

  ghost function Apply(stride: nat, list: seq<nat>, e: Event): seq<nat> {
    match e
    case Pop(_) => if list == [] then [] else list[1..]
    case Push(b) => [b] + list
    case Refill(ch) => SlotAddrs(stride, ch)
    case _ => list
  }

  lemma OwnFree(c: Config, s: State, t: nat)
    requires SlotsInv(c, s) && t < |s.threads|
    ensures s.threads[t].pc.PushLocked? ==> s.threads[t].pc.call.block !in s.free
    ensures s.threads[t].pc.GrowHead? ==>
      var g := s.threads[t].pc.g;
      s.free == [] && g.count > 0 && s.chunks != [] && s.chunks[|s.chunks| - 1] == Chunk(g.base, g.count)
  {
    hide Partitioned, VerdictOk, Described;
    assert ThreadOk(c, s, t) && Honest(c, s, s.threads[t]);
    if s.threads[t].pc.PushLocked? {
      HeldNotFree(s.chunks, c.stride, s.free, Helds(c, s), t);
    }
    if s.threads[t].pc.GrowHead? {
      assert ChunkOk(s.chunks[|s.chunks| - 1], c.stride);
    }
  }

  lemma HeldNotFree(chunks: seq<Chunk>, stride: nat, free: seq<nat>, helds: seq<set<nat>>, t: nat)
    requires Partitioned(chunks, stride, free, helds) && t < |helds|
    ensures forall p :: p in helds[t] ==> p !in free
  {
    assert HeldOk(chunks, stride, free, helds[t]);
  }

  /** Every step does to the list what its event says, and the event is one the list allows. */
  lemma StepApplies(c: Config, s: State, a: Action)
    requires SlotsInv(c, s) && Enabled(c, s, a)
    ensures Legal(s.free, EventOf(c, s, a)) && Next(c, s, a).free == Apply(c.stride, s.free, EventOf(c, s, a))
    ensures EventOf(c, s, a).Refill? ==> s.chunks != [] && EventOf(c, s, a).chunk == s.chunks[|s.chunks| - 1]
  {
    hide SlotsInv, Grantable;
    if a.Run? {
      OwnFree(c, s, a.t);
      if Walking(s.threads[a.t].pc) {
        WalkLooks(c, s, a.t);
      }
    }
  }

  /** The list after the first `k` steps: the events applied, in order, to the slots of the first chunk. */
  ghost function ListAfter(c: Config, states: seq<State>, actions: seq<Action>, k: nat): seq<nat>
    requires Exec(c, states, actions) && k < |states|
  {
    if k == 0 then SlotAddrs(c.stride, c.first)
    else Apply(c.stride, ListAfter(c, states, actions, k - 1), EventOf(c, states[k - 1], actions[k - 1]))
  }

  lemma {:induction false} ListIs(c: Config, n: nat, states: seq<State>, actions: seq<Action>, k: nat)
    requires Possible(c) && c.careful && Exec(c, states, actions) && states[0] == Initial(c, n) && k < |states|
    ensures states[k].free == ListAfter(c, states, actions, k) && SlotsInv(c, states[k])
    decreases k
  {
    InitialSlots(c, n);
    hide SlotsInv, Next, Enabled, EventOf, Apply, Possible;
    if k > 0 {
      ListIs(c, n, states, actions, k - 1);
      assert Enabled(c, states[k - 1], actions[k - 1]);
      StepApplies(c, states[k - 1], actions[k - 1]);
      SlotsInvStep(c, states[k - 1], actions[k - 1]);
    }
  }

  /** In every run of careful clients, however the steps interleave and whatever growths are granted, the steps under
      the lock form a run of one LIFO list, which a growth refills, when it is empty, with the slots of the chunk just
      linked in address order. */
  lemma Linearizable(c: Config, n: nat, states: seq<State>, actions: seq<Action>, k: nat)
    requires Possible(c) && c.careful && Exec(c, states, actions) && states[0] == Initial(c, n) && k < |actions|
    ensures states[k].free == ListAfter(c, states, actions, k)
    ensures var e := EventOf(c, states[k], actions[k]);
      && Legal(ListAfter(c, states, actions, k), e)
      && states[k + 1].free == Apply(c.stride, ListAfter(c, states, actions, k), e)
      && (e.Refill? ==> states[k].chunks != [] && e.chunk == states[k].chunks[|states[k].chunks| - 1])
      && (e == Fail ==> states[k].free == [] && actions[k] == Run(actions[k].t, None))
  {
    ListIs(c, n, states, actions, k);
    StepApplies(c, states[k], actions[k]);
  }

  // ---- One call ----------------------------------------------------------------------------

  /** Where the program goes from one of its steps. */
  ghost predicate Goes(c: Config, s: State, s': State, e: Event, t: nat)
    requires t < |s.threads| == |s'.threads|
  {
    var pc, pc' := s.threads[t].pc, s'.threads[t].pc;
    match pc
    case Idle => true
    case AllocWait => e == Silent && pc' == AllocLocked
    case AllocLocked =>
      if s.free != [] then e == Pop(s.free[0]) && s.free[0] != NULL && pc' == Unlock(s.free[0])
      else (e == Fail && pc' == Unlock(NULL)) || (e == Silent && pc'.GrowBacking?)
    case GrowBacking(g) => e == Silent && pc' == GrowCount(g)
    case GrowCount(g) => e == Silent && pc' == GrowNext(g)
    case GrowNext(g) => e == Silent && pc' == GrowLink(g)
    case GrowLink(g) => e == Silent && pc' == GrowHead(g)
    case GrowHead(g) => e == Refill(Chunk(g.base, g.count)) && pc' == AllocLocked && s'.free != [] && s'.free[0] == g.base
    case Unlock(r) => e == Silent && s'.threads[t] == Thread(Idle, s.threads[t].owned + Given(r))
    case PushWait(call) => e == Silent && pc' == PushLocked(call)
    case PushLocked(call) => e == Push(call.block) && pc' == Unlock(NULL)
    case _ => e == Silent && Walks(s, s', t)
  }

  function Given(result: nat): set<nat> {
    if result == NULL then {} else {result}
  }

  /** A walk goes on, or ends; beyond it are just the blocks that were the client's. */
  ghost predicate Walks(s: State, s': State, t: nat)
    requires t < |s.threads| == |s'.threads| && Walking(s.threads[t].pc)
  {
    var call, pc' := CallOf(s.threads[t].pc), s'.threads[t].pc;
    || (Walking(pc') && SameCall(CallOf(pc'), call))
    || (pc'.PushWait? && SameCall(pc'.call, call) && call.live)
    || (s'.threads[t] == Thread(Idle, s.threads[t].owned) && !call.live)
  }

  lemma WalkGoes(c: Config, s: State, t: nat)
    requires SlotsInv(c, s) && t < |s.threads| && c.stride > 0 && Walking(s.threads[t].pc)
    ensures Walks(s, WalkStep(c, s, t), t)
  {
    hide WalkStep, ListOk, VerdictOk, Partitioned, WalkOk, Pending;
    assert ThreadOk(c, s, t) && Honest(c, s, s.threads[t]);
    WalkStepOk(c, s, t);
    WalkHonest(c, s, t);
    WalkShape(c, s, t);
    WalkLooks(c, s, t);
  }

  lemma TopNotNull(c: Config, s: State)
    requires SlotsInv(c, s) && s.free != []
    ensures s.free[0] != NULL
  {
    assert s.free[0] in s.free;
    NotNull(c, s, s.free[0]);
  }

  lemma OwnGoes(c: Config, s: State, a: Action, t: nat)
    requires SlotsInv(c, s) && Enabled(c, s, a) && a.Run? && a.t == t
    ensures Goes(c, s, Next(c, s, a), EventOf(c, s, a), t)
  {
    hide SlotsInv, Grantable;
    if Walking(s.threads[t].pc) {
      WalkGoes(c, s, t);
    } else {
      OwnFree(c, s, t);
      if s.free != [] {
        TopNotNull(c, s);
      }
    }
  }

  /** A step of another thread, or of the client, leaves the call where it was, and the list with the one who holds the
      lock. */
  lemma OthersStep(c: Config, s: State, a: Action, t: nat)
    requires SlotsInv(c, s) && Enabled(c, s, a) && t < |s.threads| && s.threads[t].pc != Idle && !(a.Run? && a.t == t)
    ensures Next(c, s, a).threads[t].pc == s.threads[t].pc && (a.t == t ==> EventOf(c, s, a) == Silent)
    ensures s.threads[t].pc.AllocLocked? ==> Next(c, s, a).free == s.free
  {
    hide ListOk, VerdictOk, Partitioned, Grantable, WalkOk, Pending;
    assert ThreadOk(c, s, t);
    if a.t != t && (a.HandOver? ==> a.to != t) {
      OtherUnmoved(c, s, a, t);
    }
    if s.threads[t].pc.AllocLocked? {
      if a.Run? {
        assert ThreadOk(c, s, a.t);
      }
      OutsideLock(c, s, a);
    }
  }

  /** Thread `t` is in a call from step `i` up to state `j`, where the call has ended. */
  ghost predicate InCall(c: Config, states: seq<State>, actions: seq<Action>, t: nat, i: nat, j: nat) {
    && Exec(c, states, actions) && i < j < |states|
    && (forall k :: i <= k <= j ==> t < |states[k].threads|)
    && (forall k :: i <= k < j ==> states[k].threads[t].pc != Idle)
    && states[j].threads[t].pc == Idle
  }

  /** What thread `t` did to the list in steps `i` to `j`. */
  ghost function EventsOf(c: Config, states: seq<State>, actions: seq<Action>, t: nat, i: nat, j: nat): seq<Event>
    requires Exec(c, states, actions) && i <= j < |states|
    decreases j - i
  {
    if i == j then [] else
      var e := EventOf(c, states[i], actions[i]);
      (if actions[i].t == t && e != Silent then [e] else []) + EventsOf(c, states, actions, t, i + 1, j)
  }

  /** The step into state `j` gives `blocks` to the client of thread `t`. */
  ghost predicate Gives(states: seq<State>, t: nat, j: nat, blocks: set<nat>)
    requires 0 < j < |states| && t < |states[j].threads| && t < |states[j - 1].threads|
  {
    states[j].threads[t].owned == states[j - 1].threads[t].owned + blocks
  }

  /** An allocation found the list empty and was granted no growth, and returns nothing; or it took the top of the list
      and returns it; or it refilled the empty list, and took and returns the first slot of the new chunk. */
  ghost predicate AllocOutcome(c: Config, states: seq<State>, actions: seq<Action>, t: nat, i: nat, j: nat)
    requires Exec(c, states, actions) && i <= j < |states| && 0 < j && t < |states[j].threads| && t < |states[j - 1].threads|
  {
    var did := EventsOf(c, states, actions, t, i, j);
    || (did == [Fail] && Gives(states, t, j, {}))
    || (exists b :: did == [Pop(b)] && Gives(states, t, j, {b}))
    || (exists ch :: did == [Refill(ch), Pop(ch.base)] && Gives(states, t, j, {ch.base}))
  }

  /** What is still to come of a call, by how far its thread has got. */
  ghost predicate Remaining(c: Config, states: seq<State>, actions: seq<Action>, t: nat, i: nat, j: nat)
    requires InCall(c, states, actions, t, i, j)
  {
    var did, pc := EventsOf(c, states, actions, t, i, j), states[i].threads[t].pc;
    match pc
    case AllocWait => AllocOutcome(c, states, actions, t, i, j)
    case AllocLocked =>
      if states[i].free != [] then did == [Pop(states[i].free[0])] && Gives(states, t, j, {states[i].free[0]})
      else AllocOutcome(c, states, actions, t, i, j)
    case GrowBacking(g) => Grown(did, states, t, j, g)
    case GrowCount(g) => Grown(did, states, t, j, g)
    case GrowNext(g) => Grown(did, states, t, j, g)
    case GrowLink(g) => Grown(did, states, t, j, g)
    case GrowHead(g) => Grown(did, states, t, j, g)
    case Unlock(r) => did == [] && Gives(states, t, j, Given(r))
    case PushWait(call) => did == [Push(call.block)] && Gives(states, t, j, {})
    case PushLocked(call) => did == [Push(call.block)] && Gives(states, t, j, {})
    case Idle => true
    case _ => did == (if CallOf(pc).live then [Push(CallOf(pc).block)] else []) && Gives(states, t, j, {})
  }

  ghost predicate Grown(did: seq<Event>, states: seq<State>, t: nat, j: nat, g: Grant)
    requires 0 < j < |states| && t < |states[j].threads| && t < |states[j - 1].threads|
  {
    did == [Refill(Chunk(g.base, g.count)), Pop(g.base)] && Gives(states, t, j, {g.base})
  }

  lemma {:induction false} RestOfCall(c: Config, states: seq<State>, actions: seq<Action>, t: nat, i: nat, j: nat)
    requires InCall(c, states, actions, t, i, j) && forall k :: i <= k < j ==> SlotsInv(c, states[k])
    ensures Remaining(c, states, actions, t, i, j)
    decreases j - i
  {
    hide SlotsInv, Next, Enabled, EventOf, Remaining, Goes;
    var s, a := states[i], actions[i];
    assert Enabled(c, s, a) && states[i + 1] == Next(c, s, a);
    if a.Run? && a.t == t {
      OwnGoes(c, s, a, t);
      if i + 1 < j {
        RestOfCall(c, states, actions, t, i + 1, j);
        EarlierStep(c, states, actions, t, i, j);
      } else {
        LastStep(c, states, actions, t, i);
      }
    } else {
      OthersStep(c, s, a, t);
      RestOfCall(c, states, actions, t, i + 1, j);
      SilentStep(c, states, actions, t, i, j);
    }
  }

  lemma LastStep(c: Config, states: seq<State>, actions: seq<Action>, t: nat, i: nat)
    requires InCall(c, states, actions, t, i, i + 1) && actions[i].t == t
    requires Goes(c, states[i], states[i + 1], EventOf(c, states[i], actions[i]), t)
    ensures Remaining(c, states, actions, t, i, i + 1)
  {
    hide Next, Enabled, EventOf;
    assert EventsOf(c, states, actions, t, i + 1, i + 1) == [];
  }

  lemma EarlierStep(c: Config, states: seq<State>, actions: seq<Action>, t: nat, i: nat, j: nat)
    requires InCall(c, states, actions, t, i, j) && i + 1 < j && actions[i].t == t
    requires Goes(c, states[i], states[i + 1], EventOf(c, states[i], actions[i]), t)
    requires Remaining(c, states, actions, t, i + 1, j)
    ensures Remaining(c, states, actions, t, i, j)
  {
    hide Next, Enabled, EventOf, EventsOf, Exec;
    Unrolled(c, states, actions, t, i, j);
  }

  lemma Unrolled(c: Config, states: seq<State>, actions: seq<Action>, t: nat, i: nat, j: nat)
    requires Exec(c, states, actions) && i < j < |states| && actions[i].t == t
    ensures var e := EventOf(c, states[i], actions[i]);
      EventsOf(c, states, actions, t, i, j) == (if e != Silent then [e] else []) + EventsOf(c, states, actions, t, i + 1, j)
  {
    hide Enabled, EventOf;
  }

  lemma SilentStep(c: Config, states: seq<State>, actions: seq<Action>, t: nat, i: nat, j: nat)
    requires InCall(c, states, actions, t, i, j) && i + 1 < j
    requires actions[i].t == t ==> EventOf(c, states[i], actions[i]) == Silent
    requires states[i + 1].threads[t].pc == states[i].threads[t].pc
    requires states[i].threads[t].pc.AllocLocked? ==> states[i + 1].free == states[i].free
    requires Remaining(c, states, actions, t, i + 1, j)
    ensures Remaining(c, states, actions, t, i, j)
  {
    assert EventsOf(c, states, actions, t, i, j) == EventsOf(c, states, actions, t, i + 1, j);
    hide Next, Enabled, EventOf, EventsOf;
  }

  /** One call, from its first step to its last, whatever the other threads do meanwhile. An allocation is one pop, of the
      block it returns, or a refill and the pop of its first slot, or a failure on an empty list that no growth was
      granted for. A free of a block of the client's is one push of it; any other does nothing. */
  lemma CallsExact(c: Config, n: nat, states: seq<State>, actions: seq<Action>, t: nat, i: nat, j: nat)
    requires Possible(c) && c.careful && Exec(c, states, actions) && states[0] == Initial(c, n)
    requires i + 1 < |states| && InCall(c, states, actions, t, i + 1, j)
    ensures actions[i] == BeginAlloc(t) ==> AllocOutcome(c, states, actions, t, i, j)
    ensures actions[i].BeginFree? && actions[i].t == t ==>
      && EventsOf(c, states, actions, t, i, j)
         == (if t < |states[i].threads| && actions[i].block in states[i].threads[t].owned then [Push(actions[i].block)] else [])
      && Gives(states, t, j, {})
  {
    hide SlotsInv, Possible, Next, Enabled, Remaining, EventsOf, AllocOutcome, Gives, SlotAddrs;
    assert j < |states|;
    hide InCall;
    Throughout(c, n, states, actions, j);
    RestOfCall(c, states, actions, t, i + 1, j);
    assert Enabled(c, states[i], actions[i]) && states[i + 1] == Next(c, states[i], actions[i]);
    if actions[i].t == t && (actions[i].BeginAlloc? || actions[i].BeginFree?) {
      FirstStep(c, states, actions, t, i, j);
    }
  }

  lemma Throughout(c: Config, n: nat, states: seq<State>, actions: seq<Action>, j: nat)
    requires Possible(c) && c.careful && Exec(c, states, actions) && states[0] == Initial(c, n) && j <= |states|
    ensures forall k :: 0 <= k < j ==> SlotsInv(c, states[k])
  {
    hide SlotsInv, Exec, Possible, Initial;
    forall k | 0 <= k < j
      ensures SlotsInv(c, states[k])
    {
      ListIs(c, n, states, actions, k);
    }
  }

  /** The step that begins a call is no event, and leaves all of it to come. */
  lemma FirstStep(c: Config, states: seq<State>, actions: seq<Action>, t: nat, i: nat, j: nat)
    requires Exec(c, states, actions) && i + 1 < |states| && InCall(c, states, actions, t, i + 1, j)
    requires Enabled(c, states[i], actions[i]) && states[i + 1] == Next(c, states[i], actions[i])
    requires actions[i].t == t && (actions[i].BeginAlloc? || actions[i].BeginFree?)
    requires Remaining(c, states, actions, t, i + 1, j)
    ensures actions[i].BeginAlloc? ==> AllocOutcome(c, states, actions, t, i, j)
    ensures actions[i].BeginFree? ==>
      && EventsOf(c, states, actions, t, i, j)
         == (if t < |states[i].threads| && actions[i].block in states[i].threads[t].owned then [Push(actions[i].block)] else [])
      && Gives(states, t, j, {})
  {
    assert EventsOf(c, states, actions, t, i, j) == EventsOf(c, states, actions, t, i + 1, j);
    assert states[i + 1].threads[t].pc == BegunPc(states[i], actions[i]) by { Begun(c, states[i], actions[i]); }
    hide Exec, Enabled, EventsOf, Next;
  }

  ghost function BegunPc(s: State, a: Action): Pc
    requires (a.BeginAlloc? || a.BeginFree?) && a.t < |s.threads|
  {
    if a.BeginAlloc? then AllocWait
    else WalkFirst(Call(a.block, a.block in s.threads[a.t].owned, |s.chunks|, |s.chunks|))
  }

  lemma Begun(c: Config, s: State, a: Action)
    requires Enabled(c, s, a) && (a.BeginAlloc? || a.BeginFree?)
    ensures a.t < |s.threads| && Next(c, s, a).threads[a.t].pc == BegunPc(s, a)
  {
    hide Grantable;
  }
}
