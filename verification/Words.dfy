/** Machine words as natural numbers: little-endian bytes and the XOR used by safe-linking. */
module Words {

  type byte = x: int | 0 <= x < 256

  const WORD_BYTES: nat := 8
  const WORD_LIMIT: nat := 0x1_0000_0000_0000_0000
  const POINTER_ALIGNMENT: nat := 16
  const SAFE_LINK_PAGE: nat := 4096

  // ---- XOR ---------------------------------------------------------------------------------

  function Xor(a: nat, b: nat): nat
    decreases a + b
  {
    if a == 0 && b == 0 then 0 else (a % 2 + b % 2) % 2 + 2 * Xor(a / 2, b / 2)
  }

  lemma XorDigits(a: nat, b: nat)
    ensures Xor(a, b) % 2 == (if a % 2 == b % 2 then 0 else 1) && Xor(a, b) / 2 == Xor(a / 2, b / 2)
  {
    var low, high := (a % 2 + b % 2) % 2, Xor(a / 2, b / 2);
    if a == 0 && b == 0 {
      assert Xor(0, 0) == 0;
    } else {
      assert Xor(a, b) == low + 2 * high;
    }
  }

  lemma {:induction false} XorInvolution(a: nat, b: nat)
    ensures Xor(a, Xor(a, b)) == b
    decreases a + b
  {
    if a != 0 || b != 0 {
      XorInvolution(a / 2, b / 2);
      XorDigits(a, b);
      XorDigits(a, Xor(a, b));
    }
  }

  lemma {:induction false} XorZero(b: nat)
    ensures Xor(0, b) == b
  {
    if b != 0 {
      XorZero(b / 2);
    }
  }

  function Pow2(n: nat): (p: nat)
    ensures p > 0
  {
    if n == 0 then 1 else 2 * Pow2(n - 1)
  }

  lemma {:induction false} XorBelow(a: nat, b: nat, n: nat)
    requires a < Pow2(n) && b < Pow2(n)
    ensures Xor(a, b) < Pow2(n)
    decreases n
  {
    if n > 0 && (a != 0 || b != 0) {
      XorBelow(a / 2, b / 2, n - 1);
    }
  }

  /** The safe-linking transform: the slot's page number keys the stored pointer. */
  function XorLink(slot: nat, value: nat): nat {
    Xor(slot / SAFE_LINK_PAGE, value)
  }

  lemma XorLinkRoundTrip(slot: nat, value: nat)
    ensures XorLink(slot, XorLink(slot, value)) == value
  {
    XorInvolution(slot / SAFE_LINK_PAGE, value);
  }

  /** The last slot of a list stores the number of its own page, not null. */
  lemma NullStored(slot: nat)
    ensures XorLink(slot, 0) == slot / 4096
  {
    XorNothing(slot / 4096);
  }

  lemma {:induction false} XorNothing(a: nat)
    ensures Xor(a, 0) == a
  {
    if a != 0 {
      XorNothing(a / 2);
    }
  }

  /** How a build stores a link in a slot, and how it reveals one: the same transformation. */
  function Encode(hardened: bool, slot: nat, value: nat): nat {
    if hardened then XorLink(slot, value) else value
  }
}
