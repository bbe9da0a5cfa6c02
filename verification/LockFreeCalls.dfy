/** What one call sees of the atomic stack. */
module LockFreeCalls {
  import opened Common
  import opened LockFree
  import opened LockFreeProofs

  /** From here to the end of `acts`, thread `t` is in a call, and the last action ends it. */
  ghost predicate EndsWith(c: Config, s: State, acts: seq<Action>, t: nat)
    decreases |acts|
  {
    acts != [] && Enabled(s, acts[0]) && t < |s.threads| &&
    var s' := Next(c, s, acts[0]);
    if |acts| == 1 then s'.threads[t].pc == Idle else s'.threads[t].pc != Idle && EndsWith(c, s', acts[1..], t)
  }

  /** What thread `t` did to the stack. */
  ghost function EventsOf(c: Config, s: State, acts: seq<Action>, t: nat): seq<Event>
    requires EndsWith(c, s, acts, t)
    decreases |acts|
  {
    var rest := if |acts| == 1 then [] else EventsOf(c, Next(c, s, acts[0]), acts[1..], t);
    if acts[0].t == t && EventOf(s, acts[0]) != Silent then [EventOf(s, acts[0])] + rest else rest
  }

  /** The last action gives `blocks` to the client of thread `t`. */
  ghost predicate Gives(c: Config, s: State, acts: seq<Action>, t: nat, blocks: set<nat>)
    requires EndsWith(c, s, acts, t)
    decreases |acts|
  {
    var s' := Next(c, s, acts[0]);
    if |acts| == 1 then s'.threads[t].owned == s.threads[t].owned + blocks else Gives(c, s', acts[1..], t, blocks)
  }

  /** A pop saw the empty stack and returns nothing, or took a block and returns it. */
  ghost predicate PopOutcome(c: Config, s: State, acts: seq<Action>, t: nat)
    requires EndsWith(c, s, acts, t)
  {
    || (EventsOf(c, s, acts, t) == [PopEmpty] && Gives(c, s, acts, t, {}))
    || exists b :: EventsOf(c, s, acts, t) == [Pop(b)] && Gives(c, s, acts, t, {b})
  }

  ghost predicate PushOutcome(c: Config, s: State, acts: seq<Action>, t: nat, b: nat)
    requires EndsWith(c, s, acts, t)
  {
    EventsOf(c, s, acts, t) == [Push(b)] && Gives(c, s, acts, t, {})
  }

  /** What is still to come of a call, by how far its thread has got. */
  ghost predicate Remaining(c: Config, s: State, acts: seq<Action>, t: nat)
    requires EndsWith(c, s, acts, t)
  {
    match s.threads[t].pc
    case Idle => true
    case PopLoaded(_) => PopOutcome(c, s, acts, t)
    case PopRead(_, _) => PopOutcome(c, s, acts, t)
    case AllocGuard(b) => EventsOf(c, s, acts, t) == [] && Gives(c, s, acts, t, {b})
    case AllocPoison(b, _) => EventsOf(c, s, acts, t) == [] && Gives(c, s, acts, t, {b})
    case AllocStamp(b) => EventsOf(c, s, acts, t) == [] && Gives(c, s, acts, t, {b})
    case _ => PushOutcome(c, s, acts, t, s.threads[t].pc.block)
  }

  /** A step of another thread, or of the client, leaves the call where it was. */
  lemma OthersStep(c: Config, s: State, a: Action, t: nat)
    requires Enabled(s, a) && t < |s.threads| && s.threads[t].pc != Idle && !(a.Run? && a.t == t)
    ensures Next(c, s, a).threads[t].pc == s.threads[t].pc && (a.t == t ==> EventOf(s, a) == Silent)
  {
  }

  /** No free of a correct client is dropped. */
  lemma NotDropped(c: Config, s: State, h: History, t: nat)
    requires Inv(c, s, h) && t < |s.threads|
    ensures s.threads[t].pc.FreePoison? || s.threads[t].pc.FreeStamp? ==> !s.threads[t].pc.doubleFree
    ensures s.threads[t].pc.FreeGuard? ==> s.threads[t].pc.block in s.mem && s.mem[s.threads[t].pc.block].guard == GUARD_ALLOCATED
  {
    assert ThreadOk(c, s, h, t);
    assert Holds(s.threads[t]) <= c.slots;
    if c.hardened {
      assert PhaseOk(s, t);
    }
  }

  lemma LastStep(c: Config, s: State, h: History, acts: seq<Action>, t: nat)
    requires Inv(c, s, h) && EndsWith(c, s, acts, t) && |acts| == 1 && s.threads[t].pc != Idle
    ensures Remaining(c, s, acts, t)
  {
    if !(acts[0].Run? && acts[0].t == t) {
      OthersStep(c, s, acts[0], t);
    }
    NotDropped(c, s, h, t);
  }

  /** What a call does from the next state on, and what this step adds to it. */
  lemma EarlierStep(c: Config, s: State, h: History, acts: seq<Action>, t: nat)
    requires Inv(c, s, h) && EndsWith(c, s, acts, t) && |acts| > 1 && s.threads[t].pc != Idle
    requires Remaining(c, Next(c, s, acts[0]), acts[1..], t)
    ensures Remaining(c, s, acts, t)
  {
    hide Next, EventOf, Inv, EventsOf, Gives;
    if acts[0].Run? && acts[0].t == t {
      OwnGoes(c, s, h, acts[0], t);
      if EventOf(s, acts[0]) == Silent {
        SilentStep(c, s, acts, t);
      } else {
        EventStep(c, s, acts, t);
      }
    } else {
      OthersStep(c, s, acts[0], t);
      SilentStep(c, s, acts, t);
    }
  }

  /** A step that is no event of the call leaves what remains of it. */
  lemma SilentStep(c: Config, s: State, acts: seq<Action>, t: nat)
    requires EndsWith(c, s, acts, t) && |acts| > 1
    requires acts[0].t == t ==> EventOf(s, acts[0]) == Silent
    ensures EventsOf(c, s, acts, t) == EventsOf(c, Next(c, s, acts[0]), acts[1..], t)
    ensures forall blocks :: Gives(c, s, acts, t, blocks) <==> Gives(c, Next(c, s, acts[0]), acts[1..], t, blocks)
  {
    hide Next, EventOf;
  }

  lemma EventStep(c: Config, s: State, acts: seq<Action>, t: nat)
    requires EndsWith(c, s, acts, t) && |acts| > 1 && acts[0].t == t && EventOf(s, acts[0]) != Silent
    ensures EventsOf(c, s, acts, t) == [EventOf(s, acts[0])] + EventsOf(c, Next(c, s, acts[0]), acts[1..], t)
    ensures forall blocks :: Gives(c, s, acts, t, blocks) <==> Gives(c, Next(c, s, acts[0]), acts[1..], t, blocks)
  {
    hide Next, EventOf;
  }

  /** Where the program goes from one of its steps. */
  ghost predicate Goes(s: State, s': State, a: Action, t: nat)
    requires t < |s.threads| == |s'.threads| && Enabled(s, a)
  {
    var pc, pc', e := s.threads[t].pc, s'.threads[t].pc, EventOf(s, a);
    match pc
    case Idle => true
    case PopLoaded(_) => e == Silent && pc'.PopRead?
    case PopRead(_, _) =>
      (e == Silent && pc'.PopLoaded?) || (e == PopEmpty && pc' == Idle) || (e.Pop? && (pc' == Idle || pc' == AllocGuard(e.block)))
    case AllocGuard(b) => e == Silent && pc' == AllocPoison(b, 0)
    case AllocPoison(b, _) => e == Silent && (pc' == AllocStamp(b) || (pc'.AllocPoison? && pc'.block == b))
    case AllocStamp(b) => e == Silent && pc' == Idle
    case PushWritten(b, _) => (e == Push(b) && pc' == Idle) || (e == Silent && pc'.PushLoaded? && pc'.block == b)
    case FreeGuard(b) => e == Silent && pc'.FreePoison? && pc'.block == b
    case FreePoison(b, _, _) => e == Silent && (pc'.FreePoison? || pc'.FreeStamp?) && pc'.block == b
    case FreeStamp(b, _) => e == Silent && pc' == PushLoad(b)
    case PushLoad(b) => e == Silent && pc'.PushLoaded? && pc'.block == b
    case PushLoaded(b, _) => e == Silent && pc'.PushWritten? && pc'.block == b
  }

  lemma OwnGoes(c: Config, s: State, h: History, a: Action, t: nat)
    requires Inv(c, s, h) && Enabled(s, a) && a.Run? && a.t == t
    ensures Goes(s, Next(c, s, a), a, t)
  {
    hide ChainOk, HardenedOk, PhaseOk, OwnersOk;
    NotDropped(c, s, h, t);
    assert ThreadOk(c, s, h, t);
    HoldsMapped(c, s, h, t);
  }

  lemma HoldsMapped(c: Config, s: State, h: History, t: nat)
    requires Inv(c, s, h) && t < |s.threads|
    ensures InFlight(s.threads[t].pc) <= s.mem.Keys
    ensures s.threads[t].pc.PopLoaded? ==> s.threads[t].pc.expected.ptr in s.mem
  {
    assert ThreadOk(c, s, h, t);
    assert Holds(s.threads[t]) <= c.slots;
  }

  /** From the middle of a call, by how far it has got, what remains of it is as it should be. */
  lemma {:induction false} RestOfCall(c: Config, s: State, h: History, acts: seq<Action>, t: nat)
    requires Inv(c, s, h) && AllTimely(c, s, h, acts) && EndsWith(c, s, acts, t) && s.threads[t].pc != Idle
    ensures Remaining(c, s, acts, t)
    decreases |acts|
  {
    hide Inv, Next, EventOf, Remaining, Legal;
    if |acts| == 1 {
      LastStep(c, s, h, acts, t);
    } else {
      InvEventLegal(c, s, h, acts[0]);
      InvKept(c, s, h, acts);
      RestOfCall(c, Next(c, s, acts[0]), NextHistory(s, h, acts[0]), acts[1..], t);
      EarlierStep(c, s, h, acts, t);
    }
  }

  lemma InvKept(c: Config, s: State, h: History, acts: seq<Action>)
    requires Inv(c, s, h) && acts != [] && Enabled(s, acts[0]) && AllTimely(c, s, h, acts) && Legal(h.stack, EventOf(s, acts[0]))
    ensures |h.loadedAt| == |s.threads|
    ensures Inv(c, Next(c, s, acts[0]), NextHistory(s, h, acts[0]))
    ensures AllTimely(c, Next(c, s, acts[0]), NextHistory(s, h, acts[0]), acts[1..])
  {
    hide Next, ChainOk, OwnersOk, HardenedOk, ThreadOk, Timely;
    InvStep(c, s, h, acts[0]);
  }

  /** One call, from its first step to its last, whatever the other threads do meanwhile, is one event
      of the stack: a pop hands its client the block it popped, or nothing because it saw the stack
      empty; a push pushes the block it was given. */
  lemma OneEventPerCall(c: Config, s: State, h: History, acts: seq<Action>, t: nat)
    requires Inv(c, s, h) && AllTimely(c, s, h, acts) && EndsWith(c, s, acts, t)
    ensures acts[0] == BeginPop(t) ==> PopOutcome(c, s, acts, t)
    ensures acts[0].BeginFree? && acts[0].t == t ==> PushOutcome(c, s, acts, t, acts[0].block)
  {
    if acts[0] == BeginPop(t) {
      FirstStep(c, s, h, acts, t);
    } else if acts[0].BeginFree? && acts[0].t == t {
      FirstStep(c, s, h, acts, t);
    }
  }

  lemma FirstStep(c: Config, s: State, h: History, acts: seq<Action>, t: nat)
    requires Inv(c, s, h) && AllTimely(c, s, h, acts) && EndsWith(c, s, acts, t)
    requires acts[0].t == t && (acts[0].BeginPop? || acts[0].BeginFree?)
    ensures if acts[0].BeginPop? then PopOutcome(c, s, acts, t) else PushOutcome(c, s, acts, t, acts[0].block)
  {
    hide Inv, AllTimely, Legal;
    if |acts| == 1 {
      assert EventsOf(c, s, acts, t) == [PopEmpty] && Gives(c, s, acts, t, {});
    } else {
      InvEventLegal(c, s, h, acts[0]);
      InvKept(c, s, h, acts);
      RestOfCall(c, Next(c, s, acts[0]), NextHistory(s, h, acts[0]), acts[1..], t);
      SilentStep(c, s, acts, t);
    }
  }
}
