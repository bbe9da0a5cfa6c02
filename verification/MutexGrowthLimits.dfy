/** Why clients must not end an object while a free of its address is under way. */
module MutexGrowthLimits {
  import opened Common
  import opened Slots
  import opened MutexGrowth

  /** One slot at 16. */
  const Careless: Config := Config(Chunk(16, 1), 16, false)

  const NewChunk: Grant := Grant(1000, 32, 1)

  /** The call before and after it read the head of the chunk list. */
  const Passer: Call := Call(32, false, 1, 1)
  const Seer: Call := Call(32, false, 1, 2)

  /** An object comes to be at 32. Thread 0 frees its address and gets past the first chunk. Meanwhile the
      object ends, and thread 1 exhausts the pool and links a chunk at 32; then thread 0 walks on. */
  function Schedule(i: nat): Action {
    match i
    case 0 => Appear(1, 32)
    case 1 => BeginFree(0, 32)
    case 2 => Run(0, None)
    case 3 => Vanish(1, 32)
    case 4 => BeginAlloc(1)
    case 8 => BeginAlloc(1)
    case 10 => Run(1, Some(NewChunk))
    case 15 => Run(0, None)
    case 16 => Run(0, None)
    case 17 => Run(0, None)
    case _ => Run(1, None)
  }

  function Descriptor(base: nat, count: nat): map<nat, nat> {
    map[1000 := base, 1008 := count, 1016 := 0]
  }

  /** Before the growth. */
  function Small(free: seq<nat>, lock: Option<nat>, pc0: Pc, pc1: Pc, owned1: set<nat>, words: map<nat, nat>): State {
    State(words, NULL, free, lock, [Thread(pc0, {}), Thread(pc1, owned1)], [Chunk(16, 1)], [NULL], {}, [], false)
  }

  /** After it. */
  function Grown(pc0: Pc, verdicts: seq<Verdict>): State {
    State(Descriptor(32, 1), 1000, [], Some(1), [Thread(pc0, {}), Thread(GrowHead(NewChunk), {16})],
          [Chunk(16, 1), Chunk(32, 1)], [NULL, 1000], {}, verdicts, false)
  }

  function Moment(i: nat): State {
    match i
    case 0 => Small([16], None, Idle, Idle, {}, map[])
    case 1 => Small([16], None, Idle, Idle, {}, map[]).(objects := {32})
    case 2 => Small([16], None, WalkFirst(Passer), Idle, {}, map[]).(objects := {32})
    case 3 => Small([16], None, WalkHead(Passer), Idle, {}, map[]).(objects := {32})
    case 4 => Small([16], None, WalkHead(Passer), Idle, {}, map[])
    case 5 => Small([16], None, WalkHead(Passer), AllocWait, {}, map[])
    case 6 => Small([16], Some(1), WalkHead(Passer), AllocLocked, {}, map[])
    case 7 => Small([], Some(1), WalkHead(Passer), Unlock(16), {}, map[])
    case 8 => Small([], None, WalkHead(Passer), Idle, {16}, map[])
    case 9 => Small([], None, WalkHead(Passer), AllocWait, {16}, map[])
    case 10 => Small([], Some(1), WalkHead(Passer), AllocLocked, {16}, map[])
    case 11 => Small([], Some(1), WalkHead(Passer), GrowBacking(NewChunk), {16}, Descriptor(0, 0))
    case 12 => Small([], Some(1), WalkHead(Passer), GrowCount(NewChunk), {16}, Descriptor(32, 0))
    case 13 => Small([], Some(1), WalkHead(Passer), GrowNext(NewChunk), {16}, Descriptor(32, 1))
    case 14 => Small([], Some(1), WalkHead(Passer), GrowLink(NewChunk), {16}, Descriptor(32, 1))
    case 15 => Grown(WalkHead(Passer), [])
    case 16 => Grown(WalkBacking(Seer, 1000), [])
    case 17 => Grown(WalkCount(Seer, 1000, 32), [])
    case _ => Grown(PushWait(Seer), [Verdict(Seer, true)])
  }

  /** The step from moment `i` to the next. */
  ghost predicate Fits(i: nat) {
    Enabled(Careless, Moment(i), Schedule(i)) && Next(Careless, Moment(i), Schedule(i)) == Moment(i + 1)
  }

  lemma OneSlot(p: nat)
    ensures IsSlotAddress([Chunk(16, 1)], 16, p) ==> p == 16
  {
    if IsSlotAddress([Chunk(16, 1)], 16, p) {
      var s := SlotAt([Chunk(16, 1)], 16, p);
      assert SlotBytes(0, 16) == 0;
    }
  }

  lemma ComesAndGoes()
    ensures Fits(0) && Fits(3)
  {
    var none: set<nat> := {};
    OneSlot(32);
    assert none + {32} == {32};
    assert {32} - {32} == none;
  }

  lemma Begins()
    ensures Fits(1) && Fits(4) && Fits(8)
  {
    var none: set<nat> := {};
    assert none - {32} == none;
    assert Next(Careless, Moment(1), Schedule(1)).threads == Moment(2).threads;
    assert Next(Careless, Moment(4), Schedule(4)).threads == Moment(5).threads;
    assert Next(Careless, Moment(8), Schedule(8)).threads == Moment(9).threads;
  }

  /** Thread 0 walks past the first chunk. */
  lemma Passes()
    ensures Fits(2)
  {
    assert Next(Careless, Moment(2), Schedule(2)).threads == Moment(3).threads;
  }

  /** Thread 1 takes the lock and pops the last slot. */
  lemma Pops()
    ensures Fits(5) && Fits(6)
  {
    assert Next(Careless, Moment(5), Schedule(5)).threads == Moment(6).threads;
    assert Next(Careless, Moment(6), Schedule(6)).threads == Moment(7).threads;
  }

  lemma Unlocks()
    ensures Fits(7) && Fits(9)
  {
    var none: set<nat> := {};
    assert none + {16} == {16};
    assert Next(Careless, Moment(7), Schedule(7)).threads == Moment(8).threads;
    assert Next(Careless, Moment(9), Schedule(9)).threads == Moment(10).threads;
  }

  /** The heap grants a chunk at 32. */
  lemma IsGranted()
    ensures Fits(10)
  {
    assert SlotBytes(1, 16) == SlotBytes(0, 16) + 16;
    assert Next(Careless, Moment(10), Schedule(10)).threads == Moment(11).threads;
    assert Next(Careless, Moment(10), Schedule(10)).words == Moment(11).words;
  }

  /** Its descriptor is filled in, word by word. */
  lemma Fills()
    ensures Fits(11)
  {
    assert Next(Careless, Moment(11), Schedule(11)).threads == Moment(12).threads;
    assert Next(Careless, Moment(11), Schedule(11)).words == Moment(12).words;
  }

  lemma FillsCount()
    ensures Fits(12)
  {
    assert Next(Careless, Moment(12), Schedule(12)).threads == Moment(13).threads;
    assert Next(Careless, Moment(12), Schedule(12)).words == Moment(13).words;
  }

  lemma FillsNext()
    ensures Fits(13)
  {
    assert Next(Careless, Moment(13), Schedule(13)).threads == Moment(14).threads;
    assert Next(Careless, Moment(13), Schedule(13)).words == Moment(14).words;
  }

  lemma Links()
    ensures Fits(14)
  {
    assert Next(Careless, Moment(14), Schedule(14)).threads == Moment(15).threads;
  }

  lemma WalksOn()
    ensures Fits(15)
  {
    assert Next(Careless, Moment(15), Schedule(15)).threads == Moment(16).threads;
  }

  lemma ReadsBacking()
    ensures Fits(16)
  {
    assert Next(Careless, Moment(16), Schedule(16)).threads == Moment(17).threads;
  }

  lemma Accepts()
    ensures Fits(17)
  {
    assert Next(Careless, Moment(17), Schedule(17)).threads == Moment(18).threads;
  }

  ghost function States(): seq<State> {
    seq(19, i requires 0 <= i < 19 => Moment(i))
  }

  function Actions(): seq<Action> {
    seq(18, i requires 0 <= i < 18 => Schedule(i))
  }

  lemma StartsInitial()
    ensures Possible(Careless) && Moment(0) == Initial(Careless, 2)
  {
    assert SlotBytes(1, 16) == SlotBytes(0, 16) + 16;
    assert SlotAddrs(16, Chunk(16, 1)) == [16];
    assert Initial(Careless, 2).threads == Moment(0).threads;
  }

  /** If an object ends while a free of its address is under way, and a growth is granted its storage, the
      free can be accepted although the client had no such block. */
  lemma StaleAddressAccepted()
    ensures Possible(Careless) && Exec(Careless, States(), Actions()) && States()[0] == Initial(Careless, 2)
    ensures Verdict(Seer, true) in States()[18].verdicts && !Seer.live
  {
    hide Moment, Fits, Initial, Possible;
    StartsInitial();
    ComesAndGoes();
    Begins();
    Passes();
    Pops();
    Unlocks();
    IsGranted();
    Fills();
    FillsCount();
    FillsNext();
    Links();
    WalksOn();
    ReadsBacking();
    Accepts();
    forall i | 0 <= i < 18
      ensures Fits(i)
    {
    }
    AllFit();
    LastVerdict();
  }

  lemma AllFit()
    requires forall i: nat :: i < 18 ==> Fits(i)
    ensures Exec(Careless, States(), Actions())
  {
    hide Moment, Next, Enabled;
    forall i | 0 <= i < 18
      ensures Enabled(Careless, States()[i], Actions()[i]) && States()[i + 1] == Next(Careless, States()[i], Actions()[i])
    {
      assert Fits(i);
    }
  }

  lemma LastVerdict()
    ensures Verdict(Seer, true) in States()[18].verdicts
  {
    assert States()[18] == Moment(18);
    assert Moment(18).verdicts == [Verdict(Seer, true)];
  }
}
