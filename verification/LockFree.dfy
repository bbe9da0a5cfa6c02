/**
 The lock-free policy: a Treiber stack whose head carries a tag of `tagBits` bits, run by any
 number of threads. Every access to a shared word is one step; a weak compare-exchange may fail
 although the head matches. Clients may write any data into blocks they hold, at any moment.
 */
module LockFree {
  import opened Common
  import opened Words

  const NULL: nat := 0
  const POISON_WORD: nat := 0xDEDE_DEDE_DEDE_DEDE

  /** A build of the library (tag width, hardening) and the slots of one pool. `checkedRead` is
      the rejected variant that runs the link integrity check on the speculative read. */
  datatype Config = Config(slots: set<nat>, payloadWords: nat, tagBits: nat, hardened: bool, checkedRead: bool)

  datatype Head = Head(ptr: nat, tag: nat)

  datatype Cell = Cell(link: nat, payload: seq<nat>, guard: nat)

  datatype Pc =
    | Idle
    | PopLoaded(expected: Head)
    | PopRead(expected: Head, next: nat)
    | AllocGuard(block: nat)
    | AllocPoison(block: nat, i: nat)
    | AllocStamp(block: nat)
    | FreeGuard(block: nat)
    | FreePoison(block: nat, i: nat, doubleFree: bool)
    | FreeStamp(block: nat, doubleFree: bool)
    | PushLoad(block: nat)
    | PushLoaded(block: nat, expected: Head)
    | PushWritten(block: nat, expected: Head)

  datatype Thread = Thread(pc: Pc, owned: set<nat>)

  /** `fault` records an access outside the pool's memory. */
  datatype State = State(head: Head, mem: map<nat, Cell>, threads: seq<Thread>, reports: seq<Report>, fault: bool)

  datatype Field = LinkField | PayloadField(i: nat)

  datatype Action =
    | BeginPop(t: nat)
    | BeginFree(t: nat, block: nat)
    | Run(t: nat, spurious: bool)
    | Write(t: nat, block: nat, field: Field, value: nat)
    | HandOver(t: nat, to: nat, block: nat)

  // ---- The program -------------------------------------------------------------------------

  function SetPc(s: State, t: nat, pc: Pc): (r: State)
    requires t < |s.threads|
    ensures |r.threads| == |s.threads|
  {
    s.(threads := s.threads[t := s.threads[t].(pc := pc)])
  }

  /** The pop returns `block` to the client: the block joins the thread's own. */
  function Vend(s: State, t: nat, block: nat): (r: State)
    requires t < |s.threads|
    ensures |r.threads| == |s.threads|
  {
    s.(threads := s.threads[t := Thread(Idle, s.threads[t].owned + {block})])
  }

  /** An (re)loaded head: a null head ends the pop with a null result. */
  function PopWith(s: State, t: nat): (r: State)
    requires t < |s.threads|
    ensures |r.threads| == |s.threads|
  {
    SetPc(s, t, if s.head.ptr == NULL then Idle else PopLoaded(s.head))
  }

  function NextTag(c: Config, tag: nat): nat {
    (tag + 1) % Pow2(c.tagBits)
  }

  function SetCell(s: State, slot: nat, cell: Cell): State {
    s.(mem := s.mem[slot := cell])
  }

  function AddReport(s: State, r: Report): State {
    s.(reports := s.reports + [r])
  }

  function ReadLink(c: Config, s: State, t: nat, e: Head): (r: State)
    requires t < |s.threads|
    ensures |r.threads| == |s.threads|
  {
    if e.ptr !in s.mem then s.(fault := true) else
      var next := Encode(c.hardened, e.ptr, s.mem[e.ptr].link);
      var s' := SetPc(s, t, PopRead(e, next));
      if c.hardened && c.checkedRead && next != NULL && next % POINTER_ALIGNMENT != 0
      then AddReport(s', FreeListCorruption(e.ptr)) else s'
  }

  function PopCas(c: Config, s: State, t: nat, e: Head, next: nat, spurious: bool): (r: State)
    requires t < |s.threads|
    ensures |r.threads| == |s.threads|
  {
    if s.head != e || spurious then PopWith(s, t) else
      var s' := s.(head := Head(next, NextTag(c, e.tag)));
      if c.hardened then SetPc(s', t, AllocGuard(e.ptr)) else Vend(s', t, e.ptr)
  }

  function PushCas(c: Config, s: State, t: nat, b: nat, e: Head, spurious: bool): (r: State)
    requires t < |s.threads|
    ensures |r.threads| == |s.threads|
  {
    if s.head != e || spurious then SetPc(s, t, PushLoaded(b, s.head))
    else SetPc(s.(head := Head(b, NextTag(c, e.tag))), t, Idle)
  }

  /** The steps of on_alloc and on_free, taken by the thread that holds `b`. */
  function HardeningStep(c: Config, s: State, t: nat, b: nat): (r: State)
    requires t < |s.threads| && b in s.mem
    ensures |r.threads| == |s.threads|
  {
    var cell := s.mem[b];
    match s.threads[t].pc
    case AllocGuard(_) =>
      var s' := SetPc(s, t, AllocPoison(b, 0));
      if cell.guard != GUARD_FREED then AddReport(s', FreeListCorruption(b)) else s'
    case AllocPoison(_, i) =>
      if i >= |cell.payload| then SetPc(s, t, AllocStamp(b))
      else if cell.payload[i] != POISON_WORD then AddReport(SetPc(s, t, AllocStamp(b)), UseAfterFree(b))
      else SetPc(s, t, AllocPoison(b, i + 1))
    case AllocStamp(_) => Vend(SetCell(s, b, cell.(guard := GUARD_ALLOCATED)), t, b)
    case FreeGuard(_) =>
      var s' := SetPc(s, t, FreePoison(b, 0, cell.guard == GUARD_FREED));
      if cell.guard == GUARD_FREED then AddReport(s', DoubleFree(b))
      else if cell.guard != GUARD_ALLOCATED then AddReport(s', BufferOverflow(b))
      else s'
    case FreePoison(_, i, d) =>
      if i >= |cell.payload| then SetPc(s, t, FreeStamp(b, d))
      else SetPc(SetCell(s, b, cell.(payload := cell.payload[i := POISON_WORD])), t, FreePoison(b, i + 1, d))
    case FreeStamp(_, d) =>
      SetPc(SetCell(s, b, cell.(guard := GUARD_FREED)), t, if d then Idle else PushLoad(b))
    case _ => s
  }

  function RunStep(c: Config, s: State, t: nat, spurious: bool): (r: State)
    requires t < |s.threads|
    ensures |r.threads| == |s.threads|
  {
    match s.threads[t].pc
    case Idle => s
    case PopLoaded(e) => ReadLink(c, s, t, e)
    case PopRead(e, next) => PopCas(c, s, t, e, next, spurious)
    case PushLoad(b) => SetPc(s, t, PushLoaded(b, s.head))
    case PushLoaded(b, e) =>
      if b !in s.mem then s.(fault := true)
      else SetPc(SetCell(s, b, s.mem[b].(link := Encode(c.hardened, b, e.ptr))), t, PushWritten(b, e))
    case PushWritten(b, e) => PushCas(c, s, t, b, e, spurious)
    case pc => if pc.block !in s.mem then s.(fault := true) else HardeningStep(c, s, t, pc.block)
  }

  function WriteField(cell: Cell, f: Field, v: nat): Cell {
    match f
    case LinkField => cell.(link := v)
    case PayloadField(i) => if i < |cell.payload| then cell.(payload := cell.payload[i := v]) else cell
  }

  /** What a client may do: pop or free only when idle; free, write or hand over only blocks it holds. */
  predicate Enabled(s: State, a: Action) {
    match a
    case BeginPop(t) => t < |s.threads| && s.threads[t].pc == Idle
    case BeginFree(t, b) => t < |s.threads| && s.threads[t].pc == Idle && b in s.threads[t].owned
    case Run(t, _) => t < |s.threads| && s.threads[t].pc != Idle
    case Write(t, b, _, _) => t < |s.threads| && b in s.threads[t].owned && b in s.mem
    case HandOver(t, u, b) => t < |s.threads| && u < |s.threads| && t != u && b in s.threads[t].owned
  }

  function Next(c: Config, s: State, a: Action): (r: State)
    requires Enabled(s, a)
    ensures |r.threads| == |s.threads|
  {
    match a
    case BeginPop(t) => PopWith(s, t)
    case BeginFree(t, b) =>
      var th := Thread(if c.hardened then FreeGuard(b) else PushLoad(b), s.threads[t].owned - {b});
      s.(threads := s.threads[t := th])
    case Run(t, spurious) => RunStep(c, s, t, spurious)
    case Write(_, b, f, v) => SetCell(s, b, WriteField(s.mem[b], f, v))
    case HandOver(t, u, b) =>
      var giver, taker := s.threads[t], s.threads[u];
      s.(threads := s.threads[t := giver.(owned := giver.owned - {b})][u := taker.(owned := taker.owned + {b})])
  }

  function Exec(c: Config, s: State, acts: seq<Action>): Option<State>
    decreases |acts|
  {
    if acts == [] then Some(s)
    else if Enabled(s, acts[0]) then Exec(c, Next(c, s, acts[0]), acts[1..])
    else None
  }

  // ---- The atomic stack it implements ------------------------------------------------------

  datatype Event = Silent | Pop(block: nat) | Push(block: nat) | PopEmpty

  /** What a step does to the abstract stack, read off the program: a successful compare-exchange
      is one pop or push, and a pop that sees a null head returns empty-handed. */
  function EventOf(s: State, a: Action): Event
    requires Enabled(s, a)
  {
    match a
    case BeginPop(_) => if s.head.ptr == NULL then PopEmpty else Silent
    case Run(t, spurious) =>
      (match s.threads[t].pc
       case PopRead(e, _) =>
         if s.head == e && !spurious then Pop(e.ptr) else if s.head.ptr == NULL then PopEmpty else Silent
       case PushWritten(b, e) => if s.head == e && !spurious then Push(b) else Silent
       case _ => Silent)
    case _ => Silent
  }

  /** The events a LIFO stack allows. */
  ghost predicate Legal(stack: seq<nat>, e: Event) {
    match e
    case Silent => true
    case Pop(b) => stack != [] && stack[0] == b
    case Push(b) => b !in stack
    case PopEmpty => stack == []
  }

  ghost function Apply(stack: seq<nat>, e: Event): seq<nat>
    requires Legal(stack, e)
  {
    match e
    case Pop(_) => stack[1..]
    case Push(b) => [b] + stack
    case _ => stack
  }

  ghost function Events(c: Config, s: State, acts: seq<Action>): seq<Event>
    requires Exec(c, s, acts).Some?
    decreases |acts|
  {
    if acts == [] then [] else [EventOf(s, acts[0])] + Events(c, Next(c, s, acts[0]), acts[1..])
  }

  ghost predicate LegalHistory(stack: seq<nat>, events: seq<Event>)
    decreases |events|
  {
    events == [] || (Legal(stack, events[0]) && LegalHistory(Apply(stack, events[0]), events[1..]))
  }

  ghost function ApplyAll(stack: seq<nat>, events: seq<Event>): seq<nat>
    requires LegalHistory(stack, events)
    decreases |events|
  {
    if events == [] then stack else ApplyAll(Apply(stack, events[0]), events[1..])
  }

  // ---- History kept by an observer ---------------------------------------------------------

  datatype Owner = OnStack | By(t: nat)

  /** The abstract stack, who holds each slot, the number of successful compare-exchanges so far,
      and that number at each thread's latest load of the head. */
  datatype History = History(stack: seq<nat>, owner: map<nat, Owner>, swaps: nat, loadedAt: seq<nat>)

  ghost predicate Swaps(s: State, a: Action)
    requires Enabled(s, a)
  {
    EventOf(s, a).Pop? || EventOf(s, a).Push?
  }

  /** The steps that (re)load the head into a thread's `expected`. */
  ghost predicate Loads(s: State, a: Action)
    requires Enabled(s, a)
  {
    a.BeginPop? || (a.Run? && (s.threads[a.t].pc.PushLoad?
      || ((s.threads[a.t].pc.PopRead? || s.threads[a.t].pc.PushWritten?) && !Swaps(s, a))))
  }

  ghost function NextHistory(s: State, h: History, a: Action): (r: History)
    requires Enabled(s, a) && |h.loadedAt| == |s.threads| && Legal(h.stack, EventOf(s, a))
    ensures |r.loadedAt| == |h.loadedAt|
  {
    var e := EventOf(s, a);
    var owner := match e
      case Pop(b) => h.owner[b := By(a.t)]
      case Push(b) => h.owner[b := OnStack]
      case PopEmpty => h.owner
      case Silent => if a.HandOver? then h.owner[a.block := By(a.to)] else h.owner;
    History(Apply(h.stack, e), owner, if Swaps(s, a) then h.swaps + 1 else h.swaps,
            if Loads(s, a) then h.loadedAt[a.t := h.swaps] else h.loadedAt)
  }

  /** Fewer than 2^tagBits compare-exchanges succeeded since the load that a pop relies on. It is asked
      only of an exchange that succeeds, and of no push. */
  ghost predicate Timely(c: Config, s: State, h: History, a: Action) {
    Enabled(s, a) && a.t < |h.loadedAt| && EventOf(s, a).Pop? ==> h.swaps < h.loadedAt[a.t] + Pow2(c.tagBits)
  }

  // ---- Invariant ---------------------------------------------------------------------------

  /** The block a thread is in the middle of allocating or freeing. */
  function InFlight(pc: Pc): set<nat> {
    match pc
    case Idle => {}
    case PopLoaded(_) => {}
    case PopRead(_, _) => {}
    case _ => {pc.block}
  }

  function Holds(th: Thread): set<nat> {
    th.owned + InFlight(th.pc)
  }

  ghost function Successor(stack: seq<nat>, i: int): nat {
    if 0 <= i + 1 < |stack| then stack[i + 1] else NULL
  }

  ghost predicate ConfigOk(c: Config) {
    NULL !in c.slots && !c.checkedRead
  }

  ghost predicate MemoryOk(c: Config, s: State) {
    && s.mem.Keys == c.slots
    && forall b :: b in s.mem ==> |s.mem[b].payload| == c.payloadWords
  }

  /** Entry `i` of the stack links to the entry after it, the last one to null. */
  ghost predicate LinkedAt(c: Config, mem: map<nat, Cell>, stack: seq<nat>, i: nat)
    requires i < |stack|
  {
    stack[i] in mem && Encode(c.hardened, stack[i], mem[stack[i]].link) == Successor(stack, i)
  }

  /** Following the links from the head yields exactly the abstract stack. */
  ghost predicate ChainOk(c: Config, s: State, h: History) {
    && NoDup(h.stack)
    && s.head.ptr == Successor(h.stack, -1)
    && s.head.tag == h.swaps % Pow2(c.tagBits)
    && forall i {:trigger LinkedAt(c, s.mem, h.stack, i)} :: 0 <= i < |h.stack| ==> LinkedAt(c, s.mem, h.stack, i)
  }

  ghost predicate OwnersOk(c: Config, s: State, h: History) {
    && h.owner.Keys == c.slots
    && (forall b :: b in c.slots ==> (b in h.stack <==> h.owner[b] == OnStack))
    && (forall b :: b in c.slots && h.owner[b].By? ==> h.owner[b].t < |s.threads|)
    && (forall t :: 0 <= t < |s.threads| ==> Holds(s.threads[t]) <= c.slots)
    && (forall t, b :: 0 <= t < |s.threads| && b in c.slots ==>
          (b in Holds(s.threads[t]) <==> h.owner[b] == By(t)))
    && (forall t :: 0 <= t < |s.threads| ==> s.threads[t].owned !! InFlight(s.threads[t].pc))
  }

  /** What a loaded head is worth: its tag dates it, and while no exchange has succeeded since, it
      is still the head. */
  ghost predicate SnapshotOk(c: Config, s: State, h: History, t: nat, e: Head)
    requires t < |h.loadedAt|
  {
    && h.loadedAt[t] <= h.swaps
    && e.tag == h.loadedAt[t] % Pow2(c.tagBits)
    && (h.loadedAt[t] == h.swaps ==> e == s.head)
  }

  ghost predicate ThreadOk(c: Config, s: State, h: History, t: nat)
    requires t < |s.threads| && t < |h.loadedAt|
  {
    match s.threads[t].pc
    case PopLoaded(e) => SnapshotOk(c, s, h, t, e) && e.ptr in c.slots
    case PopRead(e, next) =>
      && SnapshotOk(c, s, h, t, e) && e.ptr in c.slots
      && (h.loadedAt[t] == h.swaps ==> next == Successor(h.stack, 0))
    case PushLoaded(b, e) => SnapshotOk(c, s, h, t, e)
    case PushWritten(b, e) =>
      SnapshotOk(c, s, h, t, e) && b in s.mem && Encode(c.hardened, b, s.mem[b].link) == e.ptr
    case Idle => true
    case PushLoad(_) => true
    case _ => c.hardened
  }

  ghost predicate PoisonedTo(cell: Cell, n: nat) {
    n <= |cell.payload| && forall k :: 0 <= k < n ==> cell.payload[k] == POISON_WORD
  }

  ghost predicate Fresh(cell: Cell) {
    PoisonedTo(cell, |cell.payload|) && cell.guard == GUARD_FREED
  }

  ghost predicate PhaseOk(s: State, t: nat)
    requires t < |s.threads|
  {
    var pc := s.threads[t].pc;
    && (forall b :: b in s.threads[t].owned && b in s.mem ==> s.mem[b].guard == GUARD_ALLOCATED)
    && (InFlight(pc) <= s.mem.Keys ==>
         match pc
         case AllocGuard(b) => Fresh(s.mem[b])
         case AllocPoison(b, i) => Fresh(s.mem[b])
         case FreeGuard(b) => s.mem[b].guard == GUARD_ALLOCATED
         case FreePoison(b, i, d) => PoisonedTo(s.mem[b], i) && !d
         case FreeStamp(b, d) => PoisonedTo(s.mem[b], |s.mem[b].payload|) && !d
         case PushLoad(b) => Fresh(s.mem[b])
         case PushLoaded(b, _) => Fresh(s.mem[b])
         case PushWritten(b, _) => Fresh(s.mem[b])
         case _ => true)
  }

  /** The hardened build: a slot on the stack is poisoned and stamped freed; a held one is not
      yet, or no longer, stamped freed exactly as far as its holder's program has come. */
  ghost predicate HardenedOk(s: State, h: History) {
    && (forall b :: b in h.stack && b in s.mem ==> Fresh(s.mem[b]))
    && (forall t :: 0 <= t < |s.threads| ==> PhaseOk(s, t))
  }

  ghost predicate Inv(c: Config, s: State, h: History) {
    && ConfigOk(c)
    && MemoryOk(c, s)
    && ChainOk(c, s, h)
    && OwnersOk(c, s, h)
    && |h.loadedAt| == |s.threads|
    && (forall t :: 0 <= t < |s.threads| ==> ThreadOk(c, s, h, t))
    && (c.hardened ==> HardenedOk(s, h))
    && s.reports == [] && !s.fault
  }
}
