/** Byte-addressed memory, the words in it, and what one slot of a pool looks like in memory. */
module Memory {
  import opened Sizes
  import opened Words
  import opened Common

  type Bytes = map<nat, byte>

  const POISON_BYTE: byte := 0xDE

  // ---- Words in bytes ----------------------------------------------------------------------

  function FromBytes(s: seq<byte>): nat {
    if s == [] then 0 else s[0] + 256 * FromBytes(s[1..])
  }

  function ToBytes(value: nat, n: nat): (s: seq<byte>)
    ensures |s| == n
  {
    if n == 0 then [] else [value % 256] + ToBytes(value / 256, n - 1)
  }

  function Pow256(n: nat): nat {
    if n == 0 then 1 else 256 * Pow256(n - 1)
  }

  lemma {:induction false} BytesRoundTrip(value: nat, n: nat)
    requires value < Pow256(n)
    ensures FromBytes(ToBytes(value, n)) == value
    decreases n
  {
    if n > 0 {
      BytesRoundTrip(value / 256, n - 1);
      assert ToBytes(value, n)[1..] == ToBytes(value / 256, n - 1);
    }
  }

  predicate Mapped(mem: Bytes, a: nat, n: nat) {
    forall i :: a <= i < a + n ==> i in mem
  }

  /** Little-endian load of the word at `a`. */
  function LoadWord(mem: Bytes, a: nat): nat
    requires Mapped(mem, a, WORD_BYTES)
  {
    FromBytes(seq(WORD_BYTES, i requires 0 <= i < WORD_BYTES => mem[a + i]))
  }

  function StoreWord(mem: Bytes, a: nat, value: nat): (r: Bytes)
    ensures r.Keys == mem.Keys
    ensures forall i :: i in mem && !(a <= i < a + WORD_BYTES) ==> r[i] == mem[i]
  {
    map i | i in mem :: if a <= i < a + WORD_BYTES then ToBytes(value, WORD_BYTES)[i - a] else mem[i]
  }

  /** memset. */
  function Fill(mem: Bytes, a: nat, n: nat, b: byte): (r: Bytes)
    ensures r.Keys == mem.Keys
    ensures forall i :: i in mem ==> r[i] == if a <= i < a + n then b else mem[i]
  {
    map i | i in mem :: if a <= i < a + n then b else mem[i]
  }

  lemma LoadStored(mem: Bytes, a: nat, value: nat)
    requires Mapped(mem, a, WORD_BYTES) && value < WORD_LIMIT
    ensures Mapped(StoreWord(mem, a, value), a, WORD_BYTES) && LoadWord(StoreWord(mem, a, value), a) == value
  {
    var r := StoreWord(mem, a, value);
    assert seq(WORD_BYTES, i requires 0 <= i < WORD_BYTES => r[a + i]) == ToBytes(value, WORD_BYTES);
    assert Pow256(8) == WORD_LIMIT by { Pow256Of8(); }
    BytesRoundTrip(value, WORD_BYTES);
  }

  lemma Pow256Of8()
    ensures Pow256(8) == WORD_LIMIT
  {
    assert Pow256(2) == 256 * Pow256(1) == 0x1_0000;
    assert Pow256(4) == 256 * Pow256(3) && Pow256(3) == 256 * Pow256(2);
    assert Pow256(6) == 256 * Pow256(5) && Pow256(5) == 256 * Pow256(4);
    assert Pow256(8) == 256 * Pow256(7) && Pow256(7) == 256 * Pow256(6);
  }

  ghost predicate Agree(m: Bytes, m': Bytes, a: nat, b: nat) {
    forall i :: a <= i < b && i in m ==> i in m' && m'[i] == m[i]
  }

  lemma LoadAgrees(m: Bytes, m': Bytes, a: nat)
    requires Mapped(m, a, WORD_BYTES) && Agree(m, m', a, a + WORD_BYTES)
    ensures Mapped(m', a, WORD_BYTES) && LoadWord(m', a) == LoadWord(m, a)
  {
    assert seq(WORD_BYTES, i requires 0 <= i < WORD_BYTES => m'[a + i])
        == seq(WORD_BYTES, i requires 0 <= i < WORD_BYTES => m[a + i]);
  }

  // ---- One slot ----------------------------------------------------------------------------

  /** How a build lays out a slot. */
  datatype Layout = Layout(hardened: bool, blockSize: size, stride: size)

  ghost predicate LayoutOk(l: Layout) {
    && IsValidBlockSize(l.blockSize) && l.stride == SlotStride(l.hardened, l.blockSize)
    && l.stride % POOL_ALIGNMENT == 0
    && l.blockSize + (if l.hardened then GUARD_BYTES else 0) <= l.stride
  }

  /** The link a slot stores, as `reveal_next` reads it. */
  function Link(l: Layout, mem: Bytes, slot: nat): nat
    requires Mapped(mem, slot, WORD_BYTES)
  {
    Encode(l.hardened, slot, LoadWord(mem, slot))
  }

  function Guard(l: Layout, mem: Bytes, slot: nat): nat
    requires Mapped(mem, slot + l.blockSize, WORD_BYTES)
  {
    LoadWord(mem, slot + l.blockSize)
  }

  /** The payload beyond the link holds nothing but poison. */
  ghost predicate Poisoned(l: Layout, mem: Bytes, slot: nat) {
    forall i :: slot + POINTER_BYTES <= i < slot + l.blockSize ==> i in mem && mem[i] == POISON_BYTE
  }

  ghost predicate StampedFree(l: Layout, mem: Bytes, slot: nat)
    requires LayoutOk(l) && Mapped(mem, slot, l.stride)
  {
    l.hardened ==> Poisoned(l, mem, slot) && Guard(l, mem, slot) == GUARD_FREED
  }

  lemma EncodeBelow(l: Layout, slot: nat, value: nat)
    requires slot < WORD_LIMIT && value < WORD_LIMIT
    ensures Encode(l.hardened, slot, value) < WORD_LIMIT
  {
    Pow2Of64();
    XorBelow(slot / SAFE_LINK_PAGE, value, 64);
  }

  lemma {:induction false} Pow2Of64()
    ensures Pow2(64) == WORD_LIMIT
  {
    assert Pow2(1) == 2 * Pow2(0) == 2;
    Pow2Sum(1, 1);
    Pow2Sum(2, 2);
    Pow2Sum(4, 4);
    Pow2Sum(8, 8);
    Pow2Sum(16, 16);
    Pow2Sum(32, 32);
  }

  lemma {:induction false} Pow2Sum(a: nat, b: nat)
    ensures Pow2(a + b) == Pow2(a) * Pow2(b)
    decreases a
  {
    if a > 0 {
      Pow2Sum(a - 1, b);
    }
  }

  /** Bytes that did not change mean a slot that did not change. */
  lemma SlotAgrees(l: Layout, m: Bytes, m': Bytes, slot: nat)
    requires LayoutOk(l) && Mapped(m, slot, l.stride) && Agree(m, m', slot, slot + l.stride)
    ensures Mapped(m', slot, l.stride)
    ensures Link(l, m', slot) == Link(l, m, slot)
    ensures l.hardened ==> Guard(l, m', slot) == Guard(l, m, slot)
    ensures Poisoned(l, m', slot) <==> Poisoned(l, m, slot)
  {
    LoadAgrees(m, m', slot);
    if l.hardened {
      LoadAgrees(m, m', slot + l.blockSize);
    }
  }

  /** Storing a link and reading it back, with the rest of the slot as it was. */
  lemma LinkStored(l: Layout, mem: Bytes, slot: nat, next: nat)
    requires LayoutOk(l) && Mapped(mem, slot, l.stride) && slot < WORD_LIMIT && next < WORD_LIMIT
    ensures var r := StoreWord(mem, slot, Encode(l.hardened, slot, next));
      && Mapped(r, slot, l.stride) && Link(l, r, slot) == next
      && LoadWord(r, slot) == (if l.hardened then Xor(slot / 4096, next) else next)
      && (Poisoned(l, r, slot) <==> Poisoned(l, mem, slot))
      && (l.hardened ==> Guard(l, r, slot) == Guard(l, mem, slot))
  {
    hide Xor, LoadWord;
    var v := Encode(l.hardened, slot, next);
    var r := StoreWord(mem, slot, v);
    EncodeBelow(l, slot, next);
    LoadStored(mem, slot, v);
    XorLinkRoundTrip(slot, next);
    if l.hardened {
      LoadAgrees(mem, r, slot + l.blockSize);
    }
  }

  /** Memory changed at most in the `n` bytes at `a`. */
  ghost predicate OnlyBytes(m: Bytes, m': Bytes, a: nat, n: nat) {
    && m'.Keys == m.Keys
    && forall i :: i in m && !(a <= i < a + n) ==> m'[i] == m[i]
  }

  /** Stamping the guard of a slot leaves all its other bytes alone. */
  lemma GuardStored(l: Layout, mem: Bytes, slot: nat, stamp: nat)
    requires LayoutOk(l) && l.hardened && Mapped(mem, slot, l.stride) && stamp < WORD_LIMIT
    ensures var r := StoreWord(mem, slot + l.blockSize, stamp);
      && Mapped(r, slot, l.stride) && Link(l, r, slot) == Link(l, mem, slot)
      && Guard(l, r, slot) == stamp
      && (Poisoned(l, r, slot) <==> Poisoned(l, mem, slot))
      && OnlyBytes(mem, r, slot + l.blockSize, GUARD_BYTES) && OnlyBytes(mem, r, slot, l.stride)
  {
    var r := StoreWord(mem, slot + l.blockSize, stamp);
    LoadStored(mem, slot + l.blockSize, stamp);
    LoadAgrees(mem, r, slot);
  }

  /** Poisoning the payload of a slot leaves its link and its guard alone. */
  lemma PayloadPoisoned(l: Layout, mem: Bytes, slot: nat)
    requires LayoutOk(l) && l.hardened && Mapped(mem, slot, l.stride)
    ensures var r := Fill(mem, slot + POINTER_BYTES, l.blockSize - POINTER_BYTES, POISON_BYTE);
      && Mapped(r, slot, l.stride) && Link(l, r, slot) == Link(l, mem, slot)
      && Guard(l, r, slot) == Guard(l, mem, slot) && Poisoned(l, r, slot)
      && OnlyBytes(mem, r, slot, l.stride)
  {
    var r := Fill(mem, slot + POINTER_BYTES, l.blockSize - POINTER_BYTES, POISON_BYTE);
    LoadAgrees(mem, r, slot);
    LoadAgrees(mem, r, slot + l.blockSize);
  }
}
