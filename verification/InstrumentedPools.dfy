/** The instrumented pool, used by one thread. */
module InstrumentedPools {
  import opened Sizes
  import opened Heap
  import opened PoolImages
  import opened MemoryPools
  import opened PoolLifetime
  import opened PoolHandles

  datatype PoolEvent = Exhausted | Grew | Destroyed

  datatype PoolStats = PoolStats(allocations: nat, deallocations: nat, allocationFailures: nat, live: nat, peakLive: nat)

  datatype Telling = Telling(event: PoolEvent, stats: PoolStats)

  function Lowered(live: nat): nat {
    if live > 0 then live - 1 else 0
  }

  /** How often the observers were told of `event`. */
  function Times(told: seq<Telling>, event: PoolEvent): nat {
    if told == [] then 0
    else Times(told[..|told| - 1], event) + if told[|told| - 1].event == event then 1 else 0
  }

  lemma TimesMore(told: seq<Telling>, t: Telling, event: PoolEvent)
    ensures Times(told + [t], event) == Times(told, event) + if t.event == event then 1 else 0
  {
    assert (told + [t])[..|told|] == told;
  }

  class InstrumentedPool {
    var pool: MemoryPool?
    var allocations: nat
    var deallocations: nat
    var allocationFailures: nat
    var live: nat
    var peakLive: nat
    var lastGrowths: nat
    /** What each observer was told, in order. */
    var told: seq<Telling>

    /** Adopt a pool. */
    constructor (pool: MemoryPool?)
      ensures this.pool == pool && Stats() == PoolStats(0, 0, 0, 0, 0) && lastGrowths == 0 && told == []
    {
      this.pool := pool;
      allocations, deallocations, allocationFailures, live, peakLive, lastGrowths, told := 0, 0, 0, 0, 0, 0, [];
    }

    function Stats(): PoolStats
      reads this
    {
      PoolStats(allocations, deallocations, allocationFailures, live, peakLive)
    }

    /** The counters say what the pool underneath did: as long as clients free only blocks they hold,
        they are exact, and there was one growth event for each growth. */
    ghost predicate Exact()
      reads this, if pool == null then {} else {pool, pool.heap}
    {
      && pool != null && pool.Valid() && live == pool.live && peakLive == pool.peak
      && allocations == deallocations + live && lastGrowths == pool.growCount == Times(told, Grew)
    }

    lemma AdoptedFresh()
      requires pool != null && pool.Valid() && pool.live == 0 && pool.peak == 0 && pool.growCount == 0
      requires Stats() == PoolStats(0, 0, 0, 0, 0) && lastGrowths == 0 && told == []
      ensures Exact()
    {
    }

    method Notify(event: PoolEvent)
      modifies this`told
      ensures told == old(told) + [Telling(event, Stats())]
      ensures forall e :: Times(told, e) == Times(old(told), e) + if e == event then 1 else 0
    {
      told := told + [Telling(event, Stats())];
      forall e
        ensures Times(told, e) == Times(old(told), e) + if e == event then 1 else 0
      {
        TimesMore(old(told), Telling(event, Stats()), e);
      }
    }

    method RecordAllocation()
      modifies this`allocations, this`live, this`peakLive
      ensures allocations == old(allocations) + 1 && live == old(live) + 1
      ensures peakLive == if live > old(peakLive) then live else old(peakLive)
    {
      allocations := allocations + 1;
      live := live + 1;
      if peakLive < live {
        peakLive := live;
      }
    }

    method NotifyIfGrew()
      modifies this`lastGrowths, this`told
      ensures var growths := if pool == null then 0 else pool.growCount;
        && lastGrowths == (if growths > old(lastGrowths) then growths else old(lastGrowths))
        && Times(told, Grew) == Times(old(told), Grew) + if growths > old(lastGrowths) then 1 else 0
    {
      var growths := if pool == null then 0 else pool.growCount;
      if growths > lastGrowths {
        lastGrowths := growths;
        Notify(Grew);
      }
    }

    /** try_allocate. A failure, of a moved-from object too, is counted and told, and is otherwise nothing. */
    method TryAllocate() returns (p: nat)
      requires pool != null ==> pool.Valid()
      modifies this, if pool == null then {} else {pool, pool.heap}
      ensures pool == old(pool) && (pool == null ==> p == 0)
      ensures p == 0 ==> Stats() == old(Stats()).(allocationFailures := old(allocationFailures) + 1)
      ensures p == 0 ==> told == old(told) + [Telling(Exhausted, Stats())] && lastGrowths == old(lastGrowths)
      ensures pool != null && p == 0 ==> pool.Unchanged()
      ensures pool != null ==> (p == 0 <==> old(pool.free) == [] && !old(pool.CanGrow()))
      ensures pool != null ==> (p == 0 <==> PrimedImage(pool.Terms(), old(pool.Image())).free == [])
      ensures pool != null ==> pool.Image() == PoppedImage(pool.Terms(), old(pool.Image())) && pool.Terms() == old(pool.Terms())
      ensures pool != null ==> pool.Valid() && pool.Rest() == old(pool.Rest()) && pool.growFactor == old(pool.growFactor)
      ensures pool != null ==> RestSpared(pool.Rest(), old(pool.heap.mem), pool.heap.mem) && old(pool.chunks) <= pool.chunks
      ensures p != 0 ==> pool.Popped(p, Ready(old(pool.Now()), pool.growFactor))
      ensures p != 0 ==> Stats() == PoolStats(old(allocations) + 1, old(deallocations), old(allocationFailures), old(live) + 1,
                                              if old(live) + 1 > old(peakLive) then old(live) + 1 else old(peakLive))
      ensures p != 0 ==> lastGrowths == if pool.growCount > old(lastGrowths) then pool.growCount else old(lastGrowths)
      ensures p != 0 ==> Times(told, Grew) == Times(old(told), Grew) + if lastGrowths > old(lastGrowths) then 1 else 0
      ensures pool != null ==>
        KeptBut(old(pool.heap.mem), pool.heap.mem, p + pool.blockSize, if pool.hardened && p != 0 then GUARD_BYTES else 0)
      ensures old(Exact()) ==> Exact()
    {
      hide MemoryPool.Valid, MemoryPool.CanGrow, PrimedImage, PoppedImage, VendedAddress, KeptBut;
      p := 0;
      if pool != null {
        p := Allocate(pool);
      }
      if p == 0 {
        allocationFailures := allocationFailures + 1;
        Notify(Exhausted);
      } else {
        RecordAllocation();
        NotifyIfGrew();
      }
    }

    /** deallocate: a null pointer is nothing; any other is counted, whether the pool underneath takes
        it or not, and whether there is one or not. */
    method Deallocate(p: size)
      requires pool != null ==> pool.Valid() && pool.MayFree(p)
      modifies this, if pool == null then {} else {pool, pool.heap}
      ensures pool == old(pool) && told == old(told) && lastGrowths == old(lastGrowths)
      ensures pool != null ==> pool.Freed(p) && pool.Rest() == old(pool.Rest())
      ensures pool != null ==> pool.Image() == PushedImage(pool.Terms(), old(pool.Image()), p) && pool.Terms() == old(pool.Terms())
      ensures pool != null ==> RestSpared(pool.Rest(), old(pool.heap.mem), pool.heap.mem)
      ensures Stats() == if p == 0 then old(Stats()) else
        old(Stats()).(deallocations := old(deallocations) + 1, live := if old(live) > 0 then old(live) - 1 else 0)
      ensures old(Exact()) && (p == 0 || old(pool.Holds(p))) ==> Exact()
    {
      hide MemoryPool.Valid;
      if p != 0 {
        deallocations := deallocations + 1;
        live := Lowered(live);
      }
      if pool != null {
        pool.NoNull();
        pool.Basics();
        PoolHandles.Deallocate(pool, p);
        pool.Basics();
      }
    }

    /** Move assignment. The observers of the pool that goes away are told so; `farewell` is all they
        were told. The pool taken over is still valid, though the other may have had the same heap. */
    method MoveAssign(other: InstrumentedPool) returns (farewell: seq<Telling>)
      requires pool != null ==> pool.Valid()
      requires other.pool != null ==> other.pool.Valid()
      requires this != other && pool != null && other.pool != null && pool.heap == other.pool.heap ==>
        pool.Regions() !! other.pool.Regions()
      modifies this, other, if pool == null then {} else {pool.heap}
      ensures this == other ==> pool == old(pool) && Stats() == old(Stats()) && told == old(told) && farewell == []
      ensures this == other ==> lastGrowths == old(lastGrowths)
      ensures this == other && pool != null ==> pool.heap.regions == old(pool.heap.regions)
      ensures this != other ==> farewell == old(told) + [Telling(Destroyed, old(Stats()))]
      ensures this != other ==> pool == old(other.pool) && Stats() == old(other.Stats()) && told == old(other.told)
      ensures this != other ==> lastGrowths == old(other.lastGrowths) && other.pool == null && other.told == []
      ensures this != other && old(pool) != null ==> old(pool).heap.regions == old(pool.Rest())
      ensures pool != null ==> pool.Valid()
      ensures old(other.Exact()) ==> Exact()
    {
      hide MemoryPool.Valid, HeapOk;
      farewell := [];
      if this != other {
        Notify(Destroyed);
        farewell := told;
        DestroyBeside(pool, other.pool);
        pool, other.pool := other.pool, null;
        allocations, deallocations, allocationFailures := other.allocations, other.deallocations, other.allocationFailures;
        live, peakLive := other.live, other.peakLive;
        told, other.told := other.told, [];
        lastGrowths := other.lastGrowths;
      }
    }
  }

  /** memory_pool_destroy is no concern of a pool whose regions are its own. */
  method DestroyBeside(pool: MemoryPool?, beside: MemoryPool?)
    requires (pool != null ==> pool.Valid()) && (beside != null ==> beside.Valid())
    requires pool != null && beside != null && pool.heap == beside.heap ==> pool.Regions() !! beside.Regions()
    modifies if pool == null then {} else {pool.heap}
    ensures pool != null ==> pool.heap.regions == old(pool.Rest())
    ensures beside != null ==> beside.Valid()
  {
    hide MemoryPool.Valid, HeapOk;
    if pool != null {
      ghost var r, m := pool.heap.regions, pool.heap.mem;
      pool.Basics();
      if beside != null {
        beside.Basics();
      }
      Destroy(pool);
      if beside != null && beside.heap == pool.heap {
        StillThere(pool.heap, m);
        OthersSpared(beside.Regions(), pool.Regions(), {}, r, pool.heap.regions, m, pool.heap.mem);
        Undisturbed(beside);
      }
    }
  }
}
