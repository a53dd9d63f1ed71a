/**
 * The laws that the operators inherit from the native integer operations
 * they wrap: on the values of one enabled enum type, `|`, `&`, `^` and `~`
 * form a Boolean algebra whose zero is the value with no bit set, and `!`
 * is the test for that zero.
 */
module Laws {
  import opened Bits
  import opened Trait
  import opened Operators

  /** Two values of one type that agree on every bit are the same value. */
  lemma EqualByBits(x: Value, y: Value)
    requires x.ty == y.ty
    requires forall i: nat :: i < x.ty.width ==> Bit(x.raw, i) == Bit(y.raw, i)
    ensures x == y
  {
    SameBits(x.ty.width, x.raw, y.raw);
  }

  lemma OrCommutes(s: Specializations, x: Value, y: Value)
    requires Applicable(s, x.ty) && y.ty == x.ty
    ensures Or(s, x, y) == Or(s, y, x)
  {
    EqualByBits(Or(s, x, y), Or(s, y, x));
  }

  lemma AndCommutes(s: Specializations, x: Value, y: Value)
    requires Applicable(s, x.ty) && y.ty == x.ty
    ensures And(s, x, y) == And(s, y, x)
  {
    EqualByBits(And(s, x, y), And(s, y, x));
  }

  lemma XorCommutes(s: Specializations, x: Value, y: Value)
    requires Applicable(s, x.ty) && y.ty == x.ty
    ensures Xor(s, x, y) == Xor(s, y, x)
  {
    EqualByBits(Xor(s, x, y), Xor(s, y, x));
  }

  lemma OrAssociates(s: Specializations, x: Value, y: Value, z: Value)
    requires Applicable(s, x.ty) && y.ty == x.ty && z.ty == x.ty
    ensures Or(s, Or(s, x, y), z) == Or(s, x, Or(s, y, z))
  {
    EqualByBits(Or(s, Or(s, x, y), z), Or(s, x, Or(s, y, z)));
  }

  lemma AndAssociates(s: Specializations, x: Value, y: Value, z: Value)
    requires Applicable(s, x.ty) && y.ty == x.ty && z.ty == x.ty
    ensures And(s, And(s, x, y), z) == And(s, x, And(s, y, z))
  {
    EqualByBits(And(s, And(s, x, y), z), And(s, x, And(s, y, z)));
  }

  lemma XorAssociates(s: Specializations, x: Value, y: Value, z: Value)
    requires Applicable(s, x.ty) && y.ty == x.ty && z.ty == x.ty
    ensures Xor(s, Xor(s, x, y), z) == Xor(s, x, Xor(s, y, z))
  {
    EqualByBits(Xor(s, Xor(s, x, y), z), Xor(s, x, Xor(s, y, z)));
  }

  lemma OrIdempotent(s: Specializations, x: Value)
    requires Applicable(s, x.ty)
    ensures Or(s, x, x) == x
  {
    EqualByBits(Or(s, x, x), x);
  }

  lemma AndIdempotent(s: Specializations, x: Value)
    requires Applicable(s, x.ty)
    ensures And(s, x, x) == x
  {
    EqualByBits(And(s, x, x), x);
  }

  /** `x ^ x` has no bit set: its underlying value is zero. */
  lemma XorSelfIsZero(s: Specializations, x: Value)
    requires Applicable(s, x.ty)
    ensures Xor(s, x, x).raw == 0
  {
    var r := Xor(s, x, x);
    ZeroIffNoBit(x.ty.width, r.raw);
  }

  /** `~~x == x`: complement truncated to the width is an involution. */
  lemma NotInvolutive(s: Specializations, x: Value)
    requires Applicable(s, x.ty)
    ensures Not(s, Not(s, x)) == x
  {
    EqualByBits(Not(s, Not(s, x)), x);
  }

  lemma AndDistributesOverOr(s: Specializations, x: Value, y: Value, z: Value)
    requires Applicable(s, x.ty) && y.ty == x.ty && z.ty == x.ty
    ensures And(s, x, Or(s, y, z)) == Or(s, And(s, x, y), And(s, x, z))
  {
    EqualByBits(And(s, x, Or(s, y, z)), Or(s, And(s, x, y), And(s, x, z)));
  }

  lemma OrDistributesOverAnd(s: Specializations, x: Value, y: Value, z: Value)
    requires Applicable(s, x.ty) && y.ty == x.ty && z.ty == x.ty
    ensures Or(s, x, And(s, y, z)) == And(s, Or(s, x, y), Or(s, x, z))
  {
    EqualByBits(Or(s, x, And(s, y, z)), And(s, Or(s, x, y), Or(s, x, z)));
  }

  lemma NotOfOr(s: Specializations, x: Value, y: Value)
    requires Applicable(s, x.ty) && y.ty == x.ty
    ensures Not(s, Or(s, x, y)) == And(s, Not(s, x), Not(s, y))
  {
    EqualByBits(Not(s, Or(s, x, y)), And(s, Not(s, x), Not(s, y)));
  }

  lemma NotOfAnd(s: Specializations, x: Value, y: Value)
    requires Applicable(s, x.ty) && y.ty == x.ty
    ensures Not(s, And(s, x, y)) == Or(s, Not(s, x), Not(s, y))
  {
    EqualByBits(Not(s, And(s, x, y)), Or(s, Not(s, x), Not(s, y)));
  }

  /** `x & ~x` is zero and `x | ~x` is the all-ones value of the width. */
  lemma ComplementLaws(s: Specializations, x: Value)
    requires Applicable(s, x.ty)
    ensures And(s, x, Not(s, x)).raw == 0
    ensures Or(s, x, Not(s, x)).raw == Pow2(x.ty.width) - 1
  {
    ZeroIffNoBit(x.ty.width, And(s, x, Not(s, x)).raw);
    var ones := Not(s, Typed(x.ty, 0));
    forall i: nat | i < x.ty.width ensures Bit(ones.raw, i) { ZeroBit(i); }
    EqualByBits(Or(s, x, Not(s, x)), ones);
  }

  /** `!x` is the comparison of the underlying value with zero. */
  lemma LogicalNotIsZeroTest(s: Specializations, x: Value)
    requires Applicable(s, x.ty)
    ensures LogicalNot(s, x) <==> x.raw == 0
  {
    ZeroIffNoBit(x.ty.width, x.raw);
  }

  /** `!!x` holds exactly when some bit of `x` is set. */
  lemma DoubleLogicalNot(s: Specializations, x: Value)
    requires Applicable(s, x.ty)
    ensures !LogicalNot(s, x) <==> SomeBitSet(x.ty.width, x.raw)
  {
  }

  /** `!!(x & y)` holds exactly when `x` and `y` share a set bit: the flag test. */
  lemma FlagTest(s: Specializations, x: Value, y: Value)
    requires Applicable(s, x.ty) && y.ty == x.ty
    ensures !LogicalNot(s, And(s, x, y)) <==> CommonBit(x.ty.width, x.raw, y.raw)
  {
  }

  /** The underlying values obey `(x | y) + (x & y) == x + y` and `x ^ y == (x | y) - (x & y)`. */
  lemma ArithmeticOfOrAndXor(s: Specializations, x: Value, y: Value)
    requires Applicable(s, x.ty) && y.ty == x.ty
    ensures Or(s, x, y).raw + And(s, x, y).raw == x.raw + y.raw
    ensures Xor(s, x, y).raw == Or(s, x, y).raw - And(s, x, y).raw
  {
    OrPlusAnd(x.ty.width, x.raw, y.raw);
    XorIsOrMinusAnd(x.ty.width, x.raw, y.raw);
  }
}
