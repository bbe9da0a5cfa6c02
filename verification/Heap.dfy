/** The process heap: `::operator new` and `::operator delete` over one address space. */
module Heap {
  import opened Sizes
  import opened Words
  import opened Memory

  /** Live regions: base address to size in bytes. */
  type Regions = map<nat, nat>

  ghost predicate Disjoint(a: nat, n: nat, b: nat, m: nat) {
    a + n <= b || b + m <= a
  }

  /** What the language promises of storage it returns: non-null, aligned, inside the address space
      and apart from every live region. */
  ghost predicate FreshRegion(regions: Regions, base: nat, bytes: nat) {
    && base > 0 && base % POOL_ALIGNMENT == 0 && base + bytes <= SIZE_MAX
    && forall r :: r in regions ==> Disjoint(r, regions[r], base, bytes)
  }

  ghost predicate InRegion(regions: Regions, a: nat) {
    exists r :: r in regions && r <= a < r + regions[r]
  }

  /** An environment decides every request: null is `std::bad_alloc`. The clock lets it answer equal
      requests differently. */
  type Oracle = f: (nat, Regions, nat) -> nat |
    forall t, r, n :: f(t, r, n) != 0 ==> FreshRegion(r, f(t, r, n), n)
    witness (t: nat, r: Regions, n: nat) => 0

  /** The environment answers both of two requests made one after the other. */
  ghost predicate Grants(oracle: Oracle, t: nat, regions: Regions, bytes: nat, structBytes: nat) {
    var base := oracle(t, regions, bytes);
    base != 0 && oracle(t + 1, regions[base := bytes], structBytes) != 0
  }

  /** Storage of SIZE_MAX bytes can never be granted. */
  lemma NoRoomForEverything(regions: Regions, base: nat)
    ensures !FreshRegion(regions, base, SIZE_MAX)
  {
  }

  ghost predicate RegionMapped(regions: Regions, mem: Bytes, r: nat)
    requires r in regions
  {
    regions[r] > 0 && Mapped(mem, r, regions[r])
  }

  ghost predicate RegionsApart(regions: Regions, r: nat, q: nat)
    requires r in regions && q in regions
  {
    Disjoint(r, regions[r], q, regions[q])
  }

  /** Live regions are mapped and apart, and nothing else is mapped. */
  ghost predicate HeapOk(regions: Regions, mem: Bytes) {
    && (forall r {:trigger RegionMapped(regions, mem, r)} :: r in regions ==> RegionMapped(regions, mem, r))
    && (forall r, q {:trigger RegionsApart(regions, r, q)} ::
          r in regions && q in regions && r != q ==> RegionsApart(regions, r, q))
    && (forall a {:trigger InRegion(regions, a)} :: a in mem ==> InRegion(regions, a))
  }

  /** Memory gained exactly the `n` bytes at `p`. */
  ghost predicate Granted(m: Bytes, m': Bytes, p: nat, n: nat) {
    && (forall a :: a in m ==> a in m' && m'[a] == m[a])
    && (forall a :: a in m' ==> a in m || p <= a < p + n)
    && Mapped(m', p, n)
  }

  /** Memory without the `n` bytes at `p`. */
  function Without(m: Bytes, p: nat, n: nat): Bytes {
    map a | a in m && !(p <= a < p + n) :: m[a]
  }

  lemma NothingMapped(regions: Regions, mem: Bytes, p: nat, bytes: nat)
    requires HeapOk(regions, mem) && bytes > 0 && FreshRegion(regions, p, bytes)
    ensures p !in regions && forall a :: p <= a < p + bytes ==> a !in mem
  {
    assert p in regions ==> RegionMapped(regions, mem, p);
    forall a | p <= a < p + bytes
      ensures a !in mem
    {
      if InRegion(regions, a) {
        var r :| r in regions && r <= a < r + regions[r];
        assert Disjoint(r, regions[r], p, bytes);
      }
    }
  }

  lemma GrantedInRegion(regions: Regions, m: Bytes, p: nat, bytes: nat, a: nat)
    requires p !in regions && ((a in m && InRegion(regions, a)) || p <= a < p + bytes)
    ensures InRegion(regions[p := bytes], a)
  {
    var more := regions[p := bytes];
    if a in m && InRegion(regions, a) {
      var r :| r in regions && r <= a < r + regions[r];
      assert r in more && more[r] == regions[r];
    } else {
      assert p in more && more[p] == bytes;
    }
  }

  lemma GrantKeeps(regions: Regions, m: Bytes, m': Bytes, p: nat, bytes: nat)
    requires HeapOk(regions, m) && bytes > 0 && FreshRegion(regions, p, bytes) && Granted(m, m', p, bytes)
    ensures HeapOk(regions[p := bytes], m')
  {
    NothingMapped(regions, m, p, bytes);
    var more := regions[p := bytes];
    forall r | r in more
      ensures RegionMapped(more, m', r)
    {
      assert r != p ==> RegionMapped(regions, m, r);
    }
    forall r, q | r in more && q in more && r != q
      ensures RegionsApart(more, r, q)
    {
      assert r != p && q != p ==> RegionsApart(regions, r, q);
      assert r != p ==> Disjoint(r, regions[r], p, bytes);
      assert q != p ==> Disjoint(q, regions[q], p, bytes);
    }
    forall a | a in m'
      ensures InRegion(more, a)
    {
      assert a in m ==> InRegion(regions, a);
      GrantedInRegion(regions, m, p, bytes, a);
    }
  }

  lemma ReleaseKeeps(regions: Regions, mem: Bytes, p: nat)
    requires HeapOk(regions, mem) && p in regions
    ensures HeapOk(regions - {p}, Without(mem, p, regions[p]))
  {
    var fewer, m' := regions - {p}, Without(mem, p, regions[p]);
    forall r | r in fewer
      ensures RegionMapped(fewer, m', r)
    {
      assert RegionMapped(regions, mem, r) && RegionsApart(regions, r, p);
    }
    forall r, q | r in fewer && q in fewer && r != q
      ensures RegionsApart(fewer, r, q)
    {
      assert RegionsApart(regions, r, q);
    }
    forall a | a in m'
      ensures InRegion(fewer, a)
    {
      assert InRegion(regions, a);
      var r :| r in regions && r <= a < r + regions[r];
      assert r in fewer && fewer[r] == regions[r];
    }
  }

  /** Releasing what was just granted undoes the grant. */
  lemma GrantReleased(regions: Regions, m: Bytes, m': Bytes, p: nat, bytes: nat)
    requires HeapOk(regions, m) && bytes > 0 && FreshRegion(regions, p, bytes) && Granted(m, m', p, bytes)
    ensures Without(m', p, bytes) == m && regions[p := bytes] - {p} == regions
  {
    NothingMapped(regions, m, p, bytes);
  }

  /** Writing to mapped memory keeps the heap as it is. */
  lemma WriteKeeps(regions: Regions, m: Bytes, m': Bytes)
    requires HeapOk(regions, m) && m'.Keys == m.Keys
    ensures HeapOk(regions, m')
  {
    forall r | r in regions
      ensures RegionMapped(regions, m', r)
    {
      assert RegionMapped(regions, m, r);
    }
    forall a | a in m'
      ensures InRegion(regions, a)
    {
      assert a in m;
    }
  }

  class Heap {
    const oracle: Oracle
    /** The indeterminate contents of fresh storage. */
    const noise: (nat, nat) -> byte
    var clock: nat
    var regions: Regions
    var mem: Bytes

    constructor (oracle: Oracle, noise: (nat, nat) -> byte, regions: Regions, mem: Bytes)
      requires HeapOk(regions, mem)
      ensures Valid() && this.regions == regions && this.mem == mem && this.oracle == oracle
    {
      this.oracle := oracle;
      this.noise := noise;
      this.clock := 0;
      this.regions := regions;
      this.mem := mem;
    }

    ghost predicate Valid()
      reads this
    {
      HeapOk(regions, mem)
    }

    method OperatorNew(bytes: nat) returns (p: nat)
      requires Valid() && bytes > 0
      modifies this
      ensures Valid() && p == old(oracle(clock, regions, bytes)) && clock == old(clock) + 1
      ensures p == 0 ==> regions == old(regions) && mem == old(mem)
      ensures p != 0 ==> FreshRegion(old(regions), p, bytes) && p !in old(regions) && regions == old(regions)[p := bytes]
      ensures p != 0 ==> Granted(old(mem), mem, p, bytes)
    {
      p := oracle(clock, regions, bytes);
      clock := clock + 1;
      if p != 0 {
        NothingMapped(regions, mem, p, bytes);
        var t := clock;
        mem := mem + map a: nat | p <= a < p + bytes :: noise(t, a);
        GrantKeeps(regions, old(mem), mem, p, bytes);
        regions := regions[p := bytes];
      }
    }

    method OperatorDelete(p: nat)
      requires Valid() && p in regions
      modifies this`regions, this`mem
      ensures Valid() && regions == old(regions) - {p}
      ensures mem == Without(old(mem), p, old(regions)[p])
    {
      ReleaseKeeps(regions, mem, p);
      mem := Without(mem, p, regions[p]);
      regions := regions - {p};
    }
  }
}
