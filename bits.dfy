/**
 * The fixed-width unsigned integers that an enum's underlying type provides,
 * seen as bit patterns. A value of width `w` is a natural number below
 * 2^w; bit 0 is the least significant. The native operators `|`, `&`, `^`
 * and `~` are defined bit by bit, so that every width (uint8_t, uint16_t,
 * uint32_t, uint64_t and the bit patterns of their signed counterparts) is
 * covered by one definition.
 */
module Bits {

  /** 2 to the power n: the number of distinct values of an n-bit integer. */
  function Pow2(n: nat): (r: nat)
    ensures r >= 1
  {
    if n == 0 then 1 else 2 * Pow2(n - 1)
  }

  /** Bit i of x, counted from the least significant end. */
  function Bit(x: nat, i: nat): bool
  {
    if i == 0 then x % 2 == 1 else Bit(x / 2, i - 1)
  }

  /** The operation that `|` performs on one pair of bits. */
  function OrBit(x: bool, y: bool): bool { x || y }

  /** The operation that `&` performs on one pair of bits. */
  function AndBit(x: bool, y: bool): bool { x && y }

  /** The operation that `^` performs on one pair of bits. */
  function XorBit(x: bool, y: bool): bool { x != y }

  /**
   * Applies `op` to each of the low `w` bit pairs of `a` and `b`; the result
   * has width `w`, so nothing above the representation width survives.
   */
  function Combine(w: nat, op: (bool, bool) -> bool, a: nat, b: nat): (r: nat)
    ensures r < Pow2(w)
  {
    if w == 0 then 0
    else 2 * Combine(w - 1, op, a / 2, b / 2) + (if op(a % 2 == 1, b % 2 == 1) then 1 else 0)
  }

  /** Flips each of the low `w` bits of `a`: `~` truncated back to width `w`. */
  function Complement(w: nat, a: nat): (r: nat)
    ensures r < Pow2(w)
  {
    if w == 0 then 0
    else 2 * Complement(w - 1, a / 2) + (if a % 2 == 1 then 0 else 1)
  }

  /** Bit i of 2 * q + d, for a low bit d, is bit i - 1 of q. */
  lemma BitOfShifted(q: nat, d: nat, i: nat)
    requires d < 2 && i > 0
    ensures Bit(2 * q + d, i) == Bit(q, i - 1)
  {
    assert (2 * q + d) / 2 == q;
  }

  /** Zero has no bit set. */
  lemma {:induction false} ZeroBit(i: nat)
    ensures !Bit(0, i)
  {
    if i > 0 { ZeroBit(i - 1); }
  }

  /** Each bit of a combined value is `op` applied to the operands' bits. */
  lemma {:induction false} CombineBit(w: nat, op: (bool, bool) -> bool, a: nat, b: nat, i: nat)
    requires i < w
    ensures Bit(Combine(w, op, a, b), i) == op(Bit(a, i), Bit(b, i))
  {
    var d := if op(a % 2 == 1, b % 2 == 1) then 1 else 0;
    if i > 0 {
      BitOfShifted(Combine(w - 1, op, a / 2, b / 2), d, i);
      CombineBit(w - 1, op, a / 2, b / 2, i - 1);
    }
  }

  /** CombineBit for every bit position below the width at once. */
  lemma CombineBits(w: nat, op: (bool, bool) -> bool, a: nat, b: nat)
    ensures forall i: nat :: i < w ==> Bit(Combine(w, op, a, b), i) == op(Bit(a, i), Bit(b, i))
  {
    forall i: nat | i < w
      ensures Bit(Combine(w, op, a, b), i) == op(Bit(a, i), Bit(b, i))
    {
      CombineBit(w, op, a, b, i);
    }
  }

  /** Each bit of a complemented value is the negation of the operand's bit. */
  lemma {:induction false} ComplementBit(w: nat, a: nat, i: nat)
    requires i < w
    ensures Bit(Complement(w, a), i) == !Bit(a, i)
  {
    var d := if a % 2 == 1 then 0 else 1;
    if i > 0 {
      BitOfShifted(Complement(w - 1, a / 2), d, i);
      ComplementBit(w - 1, a / 2, i - 1);
    }
  }

  /** ComplementBit for every bit position below the width at once. */
  lemma ComplementBits(w: nat, a: nat)
    ensures forall i: nat :: i < w ==> Bit(Complement(w, a), i) == !Bit(a, i)
  {
    forall i: nat | i < w ensures Bit(Complement(w, a), i) == !Bit(a, i) {
      ComplementBit(w, a, i);
    }
  }

  /**
   * Two values of width w are equal when they agree on every bit below w:
   * a bit pattern determines its value.
   */
  lemma {:induction false} SameBits(w: nat, x: nat, y: nat)
    requires x < Pow2(w) && y < Pow2(w)
    requires forall i: nat :: i < w ==> Bit(x, i) == Bit(y, i)
    ensures x == y
  {
    if w > 0 {
      forall i: nat | i < w - 1 ensures Bit(x / 2, i) == Bit(y / 2, i) {
        assert Bit(x, i + 1) == Bit(y, i + 1);
      }
      SameBits(w - 1, x / 2, y / 2);
      assert Bit(x, 0) == Bit(y, 0);
    }
  }

  /** None of the low w bits of x is set. */
  predicate NoBitSet(w: nat, x: nat)
  {
    forall i: nat :: i < w ==> !Bit(x, i)
  }

  /** Some bit of x below w is set. */
  predicate SomeBitSet(w: nat, x: nat)
  {
    exists i: nat :: i < w && Bit(x, i)
  }

  /** Some bit below w is set in both a and b. */
  predicate CommonBit(w: nat, a: nat, b: nat)
  {
    exists i: nat :: i < w && Bit(a, i) && Bit(b, i)
  }

  /** A value of width w is zero exactly when none of its w bits is set. */
  lemma ZeroIffNoBit(w: nat, x: nat)
    requires x < Pow2(w)
    ensures x == 0 <==> NoBitSet(w, x)
  {
    forall i: nat | i < w ensures !Bit(0, i) { ZeroBit(i); }
    if NoBitSet(w, x) {
      SameBits(w, x, 0);
    }
  }

  /** On a value of width w, `~` is subtraction from the all-ones value. */
  lemma {:induction false} ComplementValue(w: nat, a: nat)
    requires a < Pow2(w)
    ensures Complement(w, a) == Pow2(w) - 1 - a
  {
    if w > 0 {
      ComplementValue(w - 1, a / 2);
    }
  }

  /** (a | b) + (a & b) == a + b: the carry-free split of an addition. */
  lemma {:induction false} OrPlusAnd(w: nat, a: nat, b: nat)
    requires a < Pow2(w) && b < Pow2(w)
    ensures Combine(w, OrBit, a, b) + Combine(w, AndBit, a, b) == a + b
  {
    if w > 0 {
      OrPlusAnd(w - 1, a / 2, b / 2);
    }
  }

  /** (a ^ b) == (a | b) - (a & b): xor keeps the bits set in exactly one operand. */
  lemma {:induction false} XorIsOrMinusAnd(w: nat, a: nat, b: nat)
    ensures Combine(w, XorBit, a, b) == Combine(w, OrBit, a, b) - Combine(w, AndBit, a, b)
  {
    if w > 0 {
      XorIsOrMinusAnd(w - 1, a / 2, b / 2);
    }
  }
}
