/** `size_t` arithmetic of the pool: the overflow guard, the slot stride and the growth products. */
module Sizes {
  import opened Arithmetic

  const SIZE_MAX: nat := 0xFFFF_FFFF_FFFF_FFFF
  const POOL_ALIGNMENT: nat := 16
  const POINTER_BYTES: nat := 8
  const GUARD_BYTES: nat := 8

  type size = x: int | 0 <= x <= SIZE_MAX

  /** Unsigned addition and multiplication wrap around. */
  function Add(a: size, b: size): size {
    (a + b) % (SIZE_MAX + 1)
  }

  function Mul(a: size, b: size): size {
    (a * b) % (SIZE_MAX + 1)
  }

  predicate IsValidBlockSize(blockSize: size) {
    blockSize != 0 && blockSize >= POINTER_BYTES && blockSize % POOL_ALIGNMENT == 0
  }

  predicate WouldOverflowProduct(lhs: size, rhs: size) {
    if lhs == 0 || rhs == 0 then false else lhs > SIZE_MAX / rhs
  }

  ghost predicate Multiple(n: nat, unit: nat, k: nat) {
    n == unit * k
  }

  /** The block sizes a pool can have: 16 bytes, and every multiple of that. */
  lemma ValidBlockSizes(blockSize: size)
    ensures IsValidBlockSize(blockSize) <==> exists k: nat :: k >= 1 && Multiple(blockSize, 16, k)
  {
    if IsValidBlockSize(blockSize) {
      assert Multiple(blockSize, 16, blockSize / 16);
    }
  }

  /** The guard is exact: it refuses just the products that do not fit. */
  lemma OverflowGuardExact(lhs: size, rhs: size)
    ensures WouldOverflowProduct(lhs, rhs) <==> lhs * rhs > SIZE_MAX
    ensures !WouldOverflowProduct(lhs, rhs) ==> Mul(lhs, rhs) == lhs * rhs
  {
    if lhs == 0 || rhs == 0 {
      assert lhs * rhs == 0;
    } else {
      var q, r := SIZE_MAX / rhs, SIZE_MAX % rhs;
      assert SIZE_MAX == rhs * q + r;
      assert q * rhs == rhs * q;
      if lhs > q {
        MulMonotone(q + 1, lhs, rhs);
        assert (q + 1) * rhs == q * rhs + rhs;
      } else {
        MulMonotone(lhs, q, rhs);
      }
    }
    assert lhs * rhs >= 0;
  }

  function SlotStride(hardened: bool, blockSize: size): size {
    if !hardened then blockSize
    else if blockSize > SIZE_MAX - GUARD_BYTES then SIZE_MAX
    else
      var raw := blockSize + GUARD_BYTES;
      if raw > SIZE_MAX - (POOL_ALIGNMENT - 1) then SIZE_MAX
      else (raw + POOL_ALIGNMENT - 1) / POOL_ALIGNMENT * POOL_ALIGNMENT
  }

  /** For a valid block size the stride is the block size, or one alignment unit more when
      hardened; the one size with no room for that saturates. */
  lemma StrideShape(hardened: bool, blockSize: size)
    requires IsValidBlockSize(blockSize)
    ensures !hardened ==> SlotStride(hardened, blockSize) == blockSize
    ensures hardened && blockSize + POOL_ALIGNMENT <= SIZE_MAX ==>
      SlotStride(hardened, blockSize) == blockSize + POOL_ALIGNMENT
    ensures hardened && blockSize + POOL_ALIGNMENT > SIZE_MAX ==> SlotStride(hardened, blockSize) == SIZE_MAX
  {
    var q := blockSize / 16;
    assert blockSize == 16 * q;
    if hardened && blockSize <= SIZE_MAX - 23 {
      assert (16 * q + 8 + 15) / 16 == q + 1;
    }
  }

  /** The product guard stops the saturated stride only for two or more blocks: for a single block
      it passes, and the request is then for SIZE_MAX bytes. */
  lemma SaturatedStrideGuard(blockSize: size, count: size)
    requires IsValidBlockSize(blockSize) && count > 0 && blockSize + POOL_ALIGNMENT > SIZE_MAX
    ensures WouldOverflowProduct(SlotStride(true, blockSize), count) <==> count >= 2
  {
    StrideShape(true, blockSize);
    OverflowGuardExact(SIZE_MAX, count);
    if count >= 2 {
      MulMonotone(2, count, SIZE_MAX);
    }
  }

  // ---- Growth ------------------------------------------------------------------------------

  function Total(counts: seq<nat>): nat {
    if counts == [] then 0 else Total(counts[..|counts| - 1]) + counts[|counts| - 1]
  }

  function Pow(base: nat, n: nat): nat {
    if n == 0 then 1 else base * Pow(base, n - 1)
  }

  function Front(counts: seq<nat>): seq<nat>
    requires counts != []
  {
    counts[..|counts| - 1]
  }

  /** The slots a growth adds. */
  function Added(total: nat, factor: nat): int {
    total * (factor - 1)
  }

  /** Every chunk after the first brings the total to `factor` times what it was. */
  ghost predicate Geometric(counts: seq<nat>, factor: nat) {
    counts != [] &&
    var last := counts[|counts| - 1];
    if |counts| == 1 then last > 0
    else last == Added(Total(Front(counts)), factor) && Geometric(Front(counts), factor)
  }

  /** After k growths the total is exactly the first count times factor to the k. */
  lemma {:induction false} GeometricTotal(counts: seq<nat>, factor: nat)
    requires Geometric(counts, factor) && (factor >= 1 || |counts| == 1)
    ensures Total(counts) == counts[0] * Pow(factor, |counts| - 1) && counts[0] > 0
    decreases |counts|
  {
    var front, n := Front(counts), |counts|;
    if n == 1 {
      assert Total(front) == 0;
      assert Pow(factor, 0) == 1;
    } else {
      GeometricTotal(front, factor);
      var t := Total(front);
      assert Total(counts) == t + t * (factor - 1);
      assert t + t * (factor - 1) == t * factor;
      Associate(counts[0], Pow(factor, n - 2), factor);
    }
  }

  lemma Associate(a: nat, b: nat, c: nat)
    ensures (a * b) * c == a * (c * b)
  {
    assert c * b == b * c;
  }

  /** The growths are logarithmic in the capacity: 2 to their number is at most the total. */
  lemma GrowthsLogarithmic(counts: seq<nat>, factor: nat)
    requires Geometric(counts, factor) && factor >= 2
    ensures Pow(2, |counts| - 1) <= Total(counts)
  {
    GeometricTotal(counts, factor);
    var p := Pow(factor, |counts| - 1);
    PowMonotone(2, factor, |counts| - 1);
    MulMonotone(1, counts[0], p);
  }

  lemma {:induction false} PowMonotone(a: nat, b: nat, n: nat)
    requires a <= b
    ensures Pow(a, n) <= Pow(b, n)
    decreases n
  {
    if n > 0 {
      PowMonotone(a, b, n - 1);
      MulMonotone(a, b, Pow(a, n - 1));
      MulMonotone(Pow(a, n - 1), Pow(b, n - 1), b);
      assert a * Pow(a, n - 1) <= b * Pow(a, n - 1);
      assert b * Pow(a, n - 1) == Pow(a, n - 1) * b && b * Pow(b, n - 1) == Pow(b, n - 1) * b;
    }
  }

  lemma TotalAppend(counts: seq<nat>, c: nat)
    ensures Total(counts + [c]) == Total(counts) + c
  {
    assert (counts + [c])[..|counts|] == counts;
  }

  lemma GeometricAppend(counts: seq<nat>, factor: nat, n: nat)
    requires Geometric(counts, factor) && factor >= 1 && n == Added(Total(counts), factor)
    ensures Geometric(counts + [n], factor)
    ensures Total(counts + [n]) == Total(counts) + n == Total(counts) * factor
  {
    assert Front(counts + [n]) == counts;
    TotalAppend(counts, n);
    assert Total(counts) + Total(counts) * (factor - 1) == Total(counts) * factor;
  }

  /** What keeps the unguarded summation of chunk counts from wrapping. */
  ghost predicate Bounded(total: nat, stride: size) {
    stride > 0 && total <= 2 * (SIZE_MAX / stride)
  }

  /** A growth the two guards let through keeps the bound, and both products are exact. */
  lemma GrowthBounded(total: size, factor: size, stride: size)
    requires factor >= 2 && stride >= POOL_ALIGNMENT && Bounded(total, stride)
    requires !WouldOverflowProduct(total, factor - 1)
    requires !WouldOverflowProduct(Mul(total, factor - 1), stride)
    ensures Mul(total, factor - 1) == total * (factor - 1)
    ensures Mul(Mul(total, factor - 1), stride) == total * (factor - 1) * stride <= SIZE_MAX
    ensures Bounded(total + total * (factor - 1), stride)
  {
    var add := total * (factor - 1);
    OverflowGuardExact(total, factor - 1);
    OverflowGuardExact(add, stride);
    assert add * stride <= SIZE_MAX;
    AtMostQuotient(add, stride);
    MulMonotone(1, factor - 1, total);
    assert (factor - 1) * total == add;
  }

  lemma AtMostQuotient(a: nat, stride: size)
    requires stride > 0 && a * stride <= SIZE_MAX
    ensures a <= SIZE_MAX / stride
  {
    var q := SIZE_MAX / stride;
    assert SIZE_MAX == stride * q + SIZE_MAX % stride;
    assert (q + 1) * stride == stride * q + stride;
    if a > q {
      MulMonotone(q + 1, a, stride);
    }
  }

  /** The guards accept a growth exactly when the byte count fits, in true arithmetic. */
  lemma GrowthGuardsExact(total: size, factor: size, stride: size)
    requires factor >= 2 && stride > 0
    ensures (!WouldOverflowProduct(total, factor - 1) && !WouldOverflowProduct(Mul(total, factor - 1), stride))
      <==> total * (factor - 1) * stride <= SIZE_MAX
  {
    OverflowGuardExact(total, factor - 1);
    var add := total * (factor - 1);
    if add <= SIZE_MAX {
      OverflowGuardExact(add, stride);
    } else {
      MulMonotone(1, stride, add);
      assert stride * add == add * stride;
    }
  }

  predicate GrowthFits(total: nat, factor: nat, stride: nat) {
    Added(total, factor) * stride <= SIZE_MAX
  }

  /** Both results above in the order grow_pool relies on them. */
  lemma GrowthGuards(total: size, factor: size, stride: size)
    requires total > 0 && factor >= 2 && stride >= POOL_ALIGNMENT && Bounded(total, stride)
    ensures GrowthFits(total, factor, stride) <==>
      !WouldOverflowProduct(total, factor - 1) && !WouldOverflowProduct(Mul(total, factor - 1), stride)
    ensures GrowthFits(total, factor, stride) ==>
      var n := Mul(total, factor - 1);
      n == Added(total, factor) > 0 && Mul(n, stride) == n * stride && Bounded(total + n, stride)
    ensures !WouldOverflowProduct(total, factor - 1) ==> Mul(total, factor - 1) > 0
  {
    GrowthGuardsExact(total, factor, stride);
    OverflowGuardExact(total, factor - 1);
    MulMonotone(1, factor - 1, total);
    assert (factor - 1) * total == total * (factor - 1);
    if GrowthFits(total, factor, stride) {
      GrowthBounded(total, factor, stride);
    }
  }

  lemma BoundedSmall(total: nat, stride: size)
    requires stride >= POOL_ALIGNMENT && Bounded(total, stride)
    ensures total <= SIZE_MAX / 8
  {
    var q := SIZE_MAX / stride;
    assert SIZE_MAX == stride * q + SIZE_MAX % stride;
    MulMonotone(16, stride, q);
    assert 16 * q <= SIZE_MAX;
  }

  lemma {:induction false} CountsAtMostTotal(counts: seq<nat>)
    requires forall k :: 0 <= k < |counts| ==> counts[k] > 0
    ensures |counts| <= Total(counts)
    decreases |counts|
  {
    if counts != [] {
      CountsAtMostTotal(counts[..|counts| - 1]);
    }
  }
}
