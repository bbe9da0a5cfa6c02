/** Where the slots of a pool under the mutex policy are, in every state of every run. */
module MutexGrowthSlots {
  import opened Common
  import opened Slots
  import opened MutexGrowth
  import opened MutexGrowthProofs

  /** The blocks a thread holds on behalf of a call in progress. */
  ghost function Claim(c: Config, pc: Pc): set<nat> {
    match pc
    case WalkFirst(call) => Freeing(call)
    case WalkHead(call) => Freeing(call)
    case WalkBacking(call, _) => Freeing(call)
    case WalkCount(call, _, _) => Freeing(call)
    case WalkNext(call, _) => Freeing(call)
    case PushWait(call) => Freeing(call)
    case PushLocked(call) => Freeing(call)
    case Unlock(result) => if result == NULL then {} else {result}
    case GrowHead(g) => Members(SlotAddrs(c.stride, Chunk(g.base, g.count)))
    case _ => {}
  }

  ghost function Freeing(call: Call): set<nat> {
    if call.live then {call.block} else {}
  }

  ghost function Members(s: seq<nat>): set<nat> {
    set p | p in s
  }

  ghost function Held(c: Config, th: Thread): set<nat> {
    th.owned + Claim(c, th.pc)
  }

  ghost function Helds(c: Config, s: State): (r: seq<set<nat>>)
    ensures |r| == |s.threads| && forall t :: 0 <= t < |r| ==> r[t] == Held(c, s.threads[t])
  {
    seq(|s.threads|, t requires 0 <= t < |s.threads| => Held(c, s.threads[t]))
  }

  ghost predicate HeldOk(chunks: seq<Chunk>, stride: nat, free: seq<nat>, held: set<nat>) {
    forall p :: p in held ==> IsSlotAddress(chunks, stride, p) && p !in free
  }

  ghost predicate SomewhereOk(free: seq<nat>, helds: seq<set<nat>>, p: nat) {
    p in free || exists t :: 0 <= t < |helds| && p in helds[t]
  }

  /** Every slot is on the list or held by a thread; no slot is on the list twice, held by two, or
      both. */
  ghost predicate Partitioned(chunks: seq<Chunk>, stride: nat, free: seq<nat>, helds: seq<set<nat>>) {
    && NoDup(free) && (forall p :: p in free ==> IsSlotAddress(chunks, stride, p))
    && (forall t {:trigger helds[t]} :: 0 <= t < |helds| ==> HeldOk(chunks, stride, free, helds[t]))
    && (forall t, u :: 0 <= t < u < |helds| ==> helds[t] !! helds[u])
    && (forall p {:trigger SomewhereOk(free, helds, p)} :: IsSlotAddress(chunks, stride, p) ==> SomewhereOk(free, helds, p))
  }

  lemma Placed(chunks: seq<Chunk>, stride: nat, free: seq<nat>, helds: seq<set<nat>>, p: nat)
    requires Partitioned(chunks, stride, free, helds) && IsSlotAddress(chunks, stride, p)
    ensures SomewhereOk(free, helds, p)
  {
  }

  lemma Popped(chunks: seq<Chunk>, stride: nat, free: seq<nat>, helds: seq<set<nat>>, t: nat)
    requires Partitioned(chunks, stride, free, helds) && free != [] && t < |helds|
    ensures free[0] !in helds[t]
    ensures Partitioned(chunks, stride, free[1..], helds[t := helds[t] + {free[0]}])
  {
    var p0, free', helds' := free[0], free[1..], helds[t := helds[t] + {free[0]}];
    assert p0 in free && p0 !in free';
    forall u | 0 <= u < |helds|
      ensures p0 !in helds[u]
    {
      assert HeldOk(chunks, stride, free, helds[u]);
    }
    forall u | 0 <= u < |helds'|
      ensures HeldOk(chunks, stride, free', helds'[u])
    {
      assert HeldOk(chunks, stride, free, helds[u]);
      assert forall p :: p in free' ==> p in free;
    }
    forall p | IsSlotAddress(chunks, stride, p)
      ensures SomewhereOk(free', helds', p)
    {
      Placed(chunks, stride, free, helds, p);
      if p == p0 {
        assert p in helds'[t];
      } else if p !in free {
        var u :| 0 <= u < |helds| && p in helds[u];
        assert p in helds'[u];
      } else {
        assert free == [p0] + free';
      }
    }
  }

  lemma Pushed(chunks: seq<Chunk>, stride: nat, free: seq<nat>, helds: seq<set<nat>>, t: nat, p0: nat)
    requires Partitioned(chunks, stride, free, helds) && t < |helds| && p0 in helds[t]
    ensures Partitioned(chunks, stride, [p0] + free, helds[t := helds[t] - {p0}])
  {
    var free', helds' := [p0] + free, helds[t := helds[t] - {p0}];
    assert HeldOk(chunks, stride, free, helds[t]);
    forall u | 0 <= u < |helds'|
      ensures HeldOk(chunks, stride, free', helds'[u])
    {
      assert HeldOk(chunks, stride, free, helds[u]);
    }
    forall p | IsSlotAddress(chunks, stride, p)
      ensures SomewhereOk(free', helds', p)
    {
      Placed(chunks, stride, free, helds, p);
      if p != p0 && p !in free {
        var u :| 0 <= u < |helds| && p in helds[u];
        assert p in helds'[u];
      }
    }
  }

  lemma SlotAddrsAre(chunks: seq<Chunk>, stride: nat, k: nat)
    requires ChunksOk(chunks, stride) && k < |chunks|
    ensures NoDup(SlotAddrs(stride, chunks[k]))
    ensures forall p :: p in SlotAddrs(stride, chunks[k]) <==> IsChunkSlot(chunks[k], stride, p)
    ensures forall p :: p in SlotAddrs(stride, chunks[k]) ==> IsSlotAddress(chunks, stride, p)
  {
    var slots := SlotAddrs(stride, chunks[k]);
    forall i, j | 0 <= i < j < |slots|
      ensures slots[i] != slots[j]
    {
      SlotsApart(chunks, stride, Slot(k, i), Slot(k, j));
    }
    forall p | p in slots
      ensures IsSlotAddress(chunks, stride, p)
    {
      var i :| 0 <= i < |slots| && slots[i] == p;
      assert IsSlot(chunks, Slot(k, i)) && Addr(chunks, stride, Slot(k, i)) == p;
    }
    forall p | IsChunkSlot(chunks[k], stride, p)
      ensures p in slots
    {
      var i :| 0 <= i < chunks[k].count && p == chunks[k].base + SlotBytes(i, stride);
      assert slots[i] == p;
    }
  }

  lemma ChunkGained(chunks: seq<Chunk>, stride: nat, helds: seq<set<nat>>, t: nat, ch: Chunk)
    requires Partitioned(chunks, stride, [], helds) && t < |helds| && chunks != [] && ChunksOk(chunks + [ch], stride)
    ensures Members(SlotAddrs(stride, ch)) !! helds[t]
    ensures Partitioned(chunks + [ch], stride, [], helds[t := helds[t] + Members(SlotAddrs(stride, ch))])
  {
    var more, slots := chunks + [ch], Members(SlotAddrs(stride, ch));
    var helds' := helds[t := helds[t] + slots];
    SlotAddrsAre(more, stride, |chunks|);
    forall u | 0 <= u < |helds|
      ensures helds[u] !! slots && HeldOk(more, stride, [], helds'[u])
    {
      forall p | p in helds[u]
        ensures p !in slots && IsSlotAddress(more, stride, p)
      {
        assert HeldOk(chunks, stride, [], helds[u]);
        NewOrOld(chunks, stride, ch, p);
      }
    }
    forall p | IsSlotAddress(more, stride, p)
      ensures SomewhereOk([], helds', p)
    {
      NewOrOld(chunks, stride, ch, p);
      if IsChunkSlot(ch, stride, p) {
        assert p in helds'[t];
      } else {
        Placed(chunks, stride, [], helds, p);
        var u :| 0 <= u < |helds| && p in helds[u];
        assert p in helds'[u];
      }
    }
  }

  lemma ChunkReleased(chunks: seq<Chunk>, stride: nat, helds: seq<set<nat>>, t: nat, k: nat)
    requires Partitioned(chunks, stride, [], helds) && t < |helds| && ChunksOk(chunks, stride) && k < |chunks|
    requires Members(SlotAddrs(stride, chunks[k])) <= helds[t]
    ensures var slots := SlotAddrs(stride, chunks[k]);
      Partitioned(chunks, stride, slots, helds[t := helds[t] - Members(slots)])
  {
    var free' := SlotAddrs(stride, chunks[k]);
    var helds' := helds[t := helds[t] - Members(free')];
    SlotAddrsAre(chunks, stride, k);
    forall u | 0 <= u < |helds|
      ensures HeldOk(chunks, stride, free', helds'[u])
    {
      assert HeldOk(chunks, stride, [], helds[u]);
      assert u != t ==> helds[u] !! helds[t];
    }
    forall p | IsSlotAddress(chunks, stride, p)
      ensures SomewhereOk(free', helds', p)
    {
      Placed(chunks, stride, [], helds, p);
      var u :| 0 <= u < |helds| && p in helds[u];
      assert p !in free' ==> p in helds'[u];
    }
  }

  lemma HandedOver(chunks: seq<Chunk>, stride: nat, free: seq<nat>, helds: seq<set<nat>>, t: nat, to: nat, p0: nat)
    requires Partitioned(chunks, stride, free, helds) && t < |helds| && to < |helds| && t != to && p0 in helds[t]
    ensures p0 !in helds[to]
    ensures Partitioned(chunks, stride, free, helds[t := helds[t] - {p0}][to := helds[to] + {p0}])
  {
    var helds' := helds[t := helds[t] - {p0}][to := helds[to] + {p0}];
    assert HeldOk(chunks, stride, free, helds[t]) && HeldOk(chunks, stride, free, helds[to]);
    forall u | 0 <= u < |helds'|
      ensures HeldOk(chunks, stride, free, helds'[u])
    {
      assert HeldOk(chunks, stride, free, helds[u]);
    }
    forall p | IsSlotAddress(chunks, stride, p)
      ensures SomewhereOk(free, helds', p)
    {
      Placed(chunks, stride, free, helds, p);
      if p !in free {
        var u :| 0 <= u < |helds| && p in helds[u];
        assert p in helds'[if p == p0 then to else u];
      }
    }
  }

  // ---- The invariant -----------------------------------------------------------------------

  /** A call in progress frees a block of the client's, or the address of an object that is still live;
      beyond the range check there are only the former. */
  ghost predicate CallHonest(s: State, pc: Pc) {
    match pc
    case WalkFirst(call) => call.live || call.block in s.objects
    case WalkHead(call) => call.live || call.block in s.objects
    case WalkBacking(call, _) => call.live || call.block in s.objects
    case WalkCount(call, _, _) => call.live || call.block in s.objects
    case WalkNext(call, _) => call.live || call.block in s.objects
    case PushWait(call) => call.live
    case PushLocked(call) => call.live
    case _ => true
  }

  ghost predicate Honest(c: Config, s: State, th: Thread) {
    CallHonest(s, th.pc) && th.owned !! Claim(c, th.pc)
  }

  ghost predicate VerdictExact(v: Verdict) {
    v.accepted <==> v.call.live
  }

  ghost predicate SlotsInv(c: Config, s: State) {
    && WalkInv(c, s) && c.careful
    && (forall t {:trigger s.threads[t]} :: 0 <= t < |s.threads| ==> Honest(c, s, s.threads[t]))
    && Partitioned(s.chunks, c.stride, s.free, Helds(c, s))
    && (forall i {:trigger s.verdicts[i]} :: 0 <= i < |s.verdicts| ==> VerdictExact(s.verdicts[i]))
  }

  // ---- One step ----------------------------------------------------------------------------

  function CallOf(pc: Pc): Call
    requires Walking(pc)
  {
    pc.call
  }

  ghost predicate SameCall(x: Call, y: Call) {
    x.block == y.block && x.live == y.live
  }

  /** A step of the walk goes on with the call, or ends it with a verdict. */
  lemma WalkShape(c: Config, s: State, t: nat)
    requires t < |s.threads| && c.stride > 0 && Walking(s.threads[t].pc)
    ensures var s', call := WalkStep(c, s, t), CallOf(s.threads[t].pc);
      var pc := s'.threads[t].pc;
      || (s'.verdicts == s.verdicts && Walking(pc) && SameCall(CallOf(pc), call))
      || (s'.verdicts != [] && var v := s'.verdicts[|s'.verdicts| - 1];
          s'.verdicts == s.verdicts + [v] && SameCall(v.call, call) && pc == if v.accepted then PushWait(v.call) else Idle)
  {
  }

  /** An honest call ends with the right verdict, and holds its block until then. */
  lemma WalkHonest(c: Config, s: State, t: nat)
    requires t < |s.threads| && c.stride > 0 && Walking(s.threads[t].pc) && ObjectsOk(c, s) && Honest(c, s, s.threads[t])
    requires Walked(c, s, WalkStep(c, s, t), t)
    ensures var s' := WalkStep(c, s, t);
      && Honest(c, s', s'.threads[t]) && Held(c, s'.threads[t]) == Held(c, s.threads[t])
      && (s'.verdicts == s.verdicts || exists v :: s'.verdicts == s.verdicts + [v] && VerdictExact(v))
  {
    hide WalkStep, WalkOk;
    WalkShape(c, s, t);
    var s' := WalkStep(c, s, t);
    if s'.verdicts != s.verdicts {
      var v := s'.verdicts[|s'.verdicts| - 1];
      assert VerdictOk(c, s', v) by { LastVerdict(c, s, s', v); }
      assert s'.chunks == s.chunks by { WalkLooks(c, s, t); }
      SeenIsLinked(s'.chunks, c.stride, v.call.begun, v.call.seen, v.call.block);
      assert VerdictExact(v);
    }
    WalkLooks(c, s, t);
  }

  lemma SeenIsLinked(chunks: seq<Chunk>, stride: nat, begun: nat, seen: nat, p: nat)
    requires begun <= seen <= |chunks|
    ensures IsSlotAddress(chunks[..begun], stride, p) ==> IsSlotAddress(chunks[..seen], stride, p)
    ensures IsSlotAddress(chunks[..seen], stride, p) ==> IsSlotAddress(chunks, stride, p)
  {
    assert chunks[..begun] <= chunks[..seen] <= chunks;
    if IsSlotAddress(chunks[..begun], stride, p) {
      LinkedLater(chunks[..begun], chunks[..seen], stride, p);
    }
    if IsSlotAddress(chunks[..seen], stride, p) {
      LinkedLater(chunks[..seen], chunks, stride, p);
    }
  }

  lemma WalkLooks(c: Config, s: State, t: nat)
    requires t < |s.threads| && c.stride > 0
    ensures OnlyLooks(s, WalkStep(c, s, t), t)
  {
  }

  lemma LastVerdict(c: Config, s: State, s': State, v: Verdict)
    requires s'.verdicts == s.verdicts + [v] && exists w :: s'.verdicts == s.verdicts + [w] && VerdictOk(c, s', w)
    ensures VerdictOk(c, s', v)
  {
    var w :| s'.verdicts == s.verdicts + [w] && VerdictOk(c, s', w);
    assert s'.verdicts[|s.verdicts|] == w;
  }

  /** The helds of a state in which only thread `t` moved. */
  lemma HeldsMoved(c: Config, s: State, s': State, t: nat)
    requires t < |s.threads| == |s'.threads| && s'.threads == s.threads[t := s'.threads[t]]
    ensures Helds(c, s') == Helds(c, s)[t := Held(c, s'.threads[t])]
  {
  }

  lemma AllocMoves(c: Config, s: State, t: nat, grant: Option<Grant>)
    requires SlotsInv(c, s) && Enabled(c, s, Run(t, grant)) && s.threads[t].pc == AllocLocked
    ensures var s' := Step(c, s, t, grant);
      Honest(c, s', s'.threads[t]) && Partitioned(s'.chunks, c.stride, s'.free, Helds(c, s'))
  {
    hide ListOk, VerdictOk, ChunksOk, Partitioned, VerdictExact;
    var s', helds := Step(c, s, t, grant), Helds(c, s);
    if s.free != [] {
      ListNotEmpty(c, s);
      Popped(s.chunks, c.stride, s.free, helds, t);
      assert s.free[0] in s.free;
      NotNull(c, s, s.free[0]);
      assert Held(c, s'.threads[t]) == helds[t] + {s.free[0]};
      assert Helds(c, s') == helds[t := helds[t] + {s.free[0]}];
    } else {
      assert Held(c, s'.threads[t]) == helds[t];
      assert Helds(c, s') == helds;
    }
  }

  /** A step under the lock moves blocks between the list and the thread, and loses none. */
  lemma LockerMoves(c: Config, s: State, t: nat, grant: Option<Grant>)
    requires SlotsInv(c, s) && Enabled(c, s, Run(t, grant)) && !Walking(s.threads[t].pc)
    ensures var s' := Step(c, s, t, grant);
      Honest(c, s', s'.threads[t]) && Partitioned(s'.chunks, c.stride, s'.free, Helds(c, s'))
  {
    hide ListOk, VerdictOk, ChunksOk, Partitioned, VerdictExact, Described, BegunOk, At;
    var s', th, helds := Step(c, s, t, grant), s.threads[t], Helds(c, s);
    assert ThreadOk(c, s, t) && Honest(c, s, th);
    ListNotEmpty(c, s);
    HeldsMoved(c, s, s', t);
    if th.pc.AllocLocked? {
      AllocMoves(c, s, t, grant);
    } else if th.pc.GrowLink? {
      var slots := Members(SlotAddrs(c.stride, Chunk(th.pc.g.base, th.pc.g.count)));
      ChunkGained(s.chunks, c.stride, helds, t, Chunk(th.pc.g.base, th.pc.g.count));
      assert Held(c, s'.threads[t]) == helds[t] + slots;
    } else if th.pc.GrowHead? {
      var slots := Members(SlotAddrs(c.stride, Chunk(th.pc.g.base, th.pc.g.count)));
      ChunkReleased(s.chunks, c.stride, helds, t, |s.chunks| - 1);
      assert Held(c, s'.threads[t]) == helds[t] - slots;
    } else if th.pc.PushLocked? {
      Pushed(s.chunks, c.stride, s.free, helds, t, th.pc.call.block);
      assert Held(c, s'.threads[t]) == helds[t] - {th.pc.call.block};
    } else {
      assert s'.free == s.free && s'.chunks == s.chunks && Held(c, s'.threads[t]) == helds[t];
      assert Helds(c, s') == helds;
    }
  }

  lemma NotNull(c: Config, s: State, p: nat)
    requires ChunksOk(s.chunks, c.stride) && Linked(c, s, p)
    ensures p != NULL
  {
    SlotInChunk(s.chunks, c.stride, SlotAt(s.chunks, c.stride, p));
  }

  /** Beginning a call, or handing a block over, keeps every block held. */
  lemma ClientMoves(c: Config, s: State, a: Action)
    requires SlotsInv(c, s) && Enabled(c, s, a) && !a.Run?
    ensures var s' := Next(c, s, a);
      && Honest(c, s', s'.threads[a.t]) && (a.HandOver? ==> Honest(c, s', s'.threads[a.to]))
      && Partitioned(s'.chunks, c.stride, s'.free, Helds(c, s')) && s'.verdicts == s.verdicts
  {
    hide WalkInv, Partitioned, VerdictExact;
    var s', helds := Next(c, s, a), Helds(c, s);
    assert Honest(c, s, s.threads[a.t]);
    if a.HandOver? {
      assert Honest(c, s, s.threads[a.to]);
      HandedOver(s.chunks, c.stride, s.free, helds, a.t, a.to, a.given);
      assert Held(c, s'.threads[a.t]) == helds[a.t] - {a.given};
      assert Held(c, s'.threads[a.to]) == helds[a.to] + {a.given};
      assert Helds(c, s') == helds[a.t := helds[a.t] - {a.given}][a.to := helds[a.to] + {a.given}];
    } else {
      assert Held(c, s'.threads[a.t]) == helds[a.t];
      assert Helds(c, s') == helds;
    }
  }

  lemma MoverMoves(c: Config, s: State, a: Action)
    requires SlotsInv(c, s) && Enabled(c, s, a)
    ensures var s' := Next(c, s, a);
      && Honest(c, s', s'.threads[a.t]) && (a.HandOver? ==> Honest(c, s', s'.threads[a.to]))
      && Partitioned(s'.chunks, c.stride, s'.free, Helds(c, s'))
      && (s'.verdicts == s.verdicts || exists v :: s'.verdicts == s.verdicts + [v] && VerdictExact(v))
  {
    hide ListOk, VerdictOk, ChunksOk, Partitioned, VerdictExact, Honest, WalkOk, Pending;
    if a.Run? && Walking(s.threads[a.t].pc) {
      var s' := WalkStep(c, s, a.t);
      assert ThreadOk(c, s, a.t) && Honest(c, s, s.threads[a.t]);
      WalkStepOk(c, s, a.t);
      WalkHonest(c, s, a.t);
      WalkLooks(c, s, a.t);
      HeldsMoved(c, s, s', a.t);
      assert Helds(c, s') == Helds(c, s);
    } else if a.Run? {
      LockerMoves(c, s, a.t, a.grant);
      VerdictsStay(c, s, a);
    } else {
      ClientMoves(c, s, a);
    }
  }

  lemma VerdictsStay(c: Config, s: State, a: Action)
    requires Enabled(c, s, a) && a.Run? && !Walking(s.threads[a.t].pc)
    ensures Next(c, s, a).verdicts == s.verdicts
  {
    hide Grantable;
  }

  /** Every step keeps the slots partitioned and the verdicts exact. */
  lemma SlotsInvStep(c: Config, s: State, a: Action)
    requires SlotsInv(c, s) && Enabled(c, s, a)
    ensures SlotsInv(c, Next(c, s, a))
  {
    hide WalkInv, VerdictExact, Partitioned, Honest, Next, Enabled;
    var s' := Next(c, s, a);
    WalkInvStep(c, s, a);
    MoverMoves(c, s, a);
    MoverExists(c, s, a);
    forall u | 0 <= u < |s'.threads|
      ensures Honest(c, s', s'.threads[u])
    {
      if u != a.t && (a.HandOver? ==> u != a.to) {
        OtherUnmoved(c, s, a, u);
        assert Honest(c, s, s.threads[u]);
        HonestKept(c, s, a, u);
      }
    }
  }

  /** No careful client ends an object while a free of its address is under way. */
  lemma HonestKept(c: Config, s: State, a: Action, u: nat)
    requires c.careful && Enabled(c, s, a) && u < |s.threads| && Honest(c, s, s.threads[u])
    ensures Honest(c, Next(c, s, a), s.threads[u])
  {
    ObjectsLeft(c, s, a);
  }

  lemma ObjectsLeft(c: Config, s: State, a: Action)
    requires Enabled(c, s, a)
    ensures forall p :: p in s.objects && (a.Vanish? ==> p != a.at) ==> p in Next(c, s, a).objects
  {
    hide Grantable;
  }

  lemma InitialSlots(c: Config, n: nat)
    requires Possible(c) && c.careful
    ensures SlotsInv(c, Initial(c, n))
  {
    hide WalkInv, Partitioned;
    InitialWalkInv(c, n);
    InitialPartition(c, n);
    forall t | 0 <= t < n
      ensures Initial(c, n).threads[t] == Thread(Idle, {})
    {
    }
  }

  lemma InitialPartition(c: Config, n: nat)
    requires Possible(c)
    ensures var s := Initial(c, n); Partitioned(s.chunks, c.stride, s.free, Helds(c, s))
  {
    var s := Initial(c, n);
    SlotAddrsAre([c.first], c.stride, 0);
    forall p
      ensures IsSlotAddress([c.first], c.stride, p) ==> IsChunkSlot(c.first, c.stride, p)
    {
      if IsSlotAddress([c.first], c.stride, p) {
        var t := SlotAt([c.first], c.stride, p);
        assert p == c.first.base + SlotBytes(t.index, c.stride);
      }
    }
    forall t | 0 <= t < n
      ensures s.threads[t] == Thread(Idle, {})
    {
    }
  }

  lemma {:induction false} SlotsInvRun(c: Config, states: seq<State>, actions: seq<Action>, k: nat)
    requires Exec(c, states, actions) && k < |states| && SlotsInv(c, states[0])
    ensures SlotsInv(c, states[k])
    decreases k
  {
    hide SlotsInv, Enabled, Next;
    if k > 0 {
      SlotsInvRun(c, states, actions, k - 1);
      assert Enabled(c, states[k - 1], actions[k - 1]);
      SlotsInvStep(c, states[k - 1], actions[k - 1]);
    }
  }

  /** In every run of clients that end no object while a free of its address is under way: a free is accepted
      exactly if the block was the client's to free, and every slot of every chunk is on the list or with
      one thread, never both and never twice. The storage of an object may go to the pool afterwards. */
  lemma FreesExact(c: Config, n: nat, states: seq<State>, actions: seq<Action>, k: nat)
    requires Possible(c) && c.careful && Exec(c, states, actions) && states[0] == Initial(c, n) && k < |states|
    ensures forall v :: v in states[k].verdicts ==> (v.accepted <==> v.call.live)
    ensures Partitioned(states[k].chunks, c.stride, states[k].free, Helds(c, states[k]))
  {
    InitialSlots(c, n);
    SlotsInvRun(c, states, actions, k);
    forall v | v in states[k].verdicts
      ensures v.accepted <==> v.call.live
    {
      var i :| 0 <= i < |states[k].verdicts| && states[k].verdicts[i] == v;
      assert VerdictExact(states[k].verdicts[i]);
    }
  }
}
