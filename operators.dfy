/**
 * The eight operator templates of bitwise_enum.hpp. Each one casts its
 * operands to the enum's underlying integer, applies the native operator and
 * casts the result back without checking that it names an enumerator. The
 * `enable_if_t` that removes an operator from overload resolution for a
 * type whose trait says false becomes a precondition; `|`, `&`, `^`, `~` and
 * `!` are functions, and `|=`, `&=` and `^=`, which assign to their
 * by-reference left operand, are methods of a class holding that operand.
 */
module Operators {
  import opened Bits
  import opened Trait

  /** An object of a C++ type: the type, and its underlying integer as an unsigned bit pattern. */
  datatype Typed = Typed(ty: CppType, raw: nat)

  /** An object always fits the width of its type's underlying integer. */
  type Value = v: Typed | v.raw < Pow2(v.ty.width) witness Typed(CppType("", false, 0), 0)

  /**
   * Whether the operators can be used on `t`: the `enable_if_t` gate needs
   * the trait's value to be true, and the body then needs
   * `std::underlying_type_t<t>`, which exists only for enumerations (an
   * enabled non-enum is chosen by overload resolution but fails to
   * instantiate). A type without an explicit specialization never qualifies.
   */
  predicate Applicable(s: Specializations, t: CppType)
    ensures Applicable(s, t) ==> t in s.value && s.value[t]
  {
    t.isEnum && EnabledV(s, t)
  }

  /** `lhs | rhs`: each bit of the result is set when it is set in either operand. */
  function Or(s: Specializations, lhs: Value, rhs: Value): (r: Value)
    requires Applicable(s, lhs.ty) && rhs.ty == lhs.ty
    ensures r.ty == lhs.ty
    ensures forall i: nat :: i < lhs.ty.width ==> Bit(r.raw, i) == (Bit(lhs.raw, i) || Bit(rhs.raw, i))
  {
    CombineBits(lhs.ty.width, OrBit, lhs.raw, rhs.raw);
    Typed(lhs.ty, Combine(lhs.ty.width, OrBit, lhs.raw, rhs.raw))
  }

  /** `lhs & rhs`: each bit of the result is set when it is set in both operands. */
  function And(s: Specializations, lhs: Value, rhs: Value): (r: Value)
    requires Applicable(s, lhs.ty) && rhs.ty == lhs.ty
    ensures r.ty == lhs.ty
    ensures forall i: nat :: i < lhs.ty.width ==> Bit(r.raw, i) == (Bit(lhs.raw, i) && Bit(rhs.raw, i))
  {
    CombineBits(lhs.ty.width, AndBit, lhs.raw, rhs.raw);
    Typed(lhs.ty, Combine(lhs.ty.width, AndBit, lhs.raw, rhs.raw))
  }

  /** `lhs ^ rhs`: each bit of the result is set when it is set in exactly one operand. */
  function Xor(s: Specializations, lhs: Value, rhs: Value): (r: Value)
    requires Applicable(s, lhs.ty) && rhs.ty == lhs.ty
    ensures r.ty == lhs.ty
    ensures forall i: nat :: i < lhs.ty.width ==> Bit(r.raw, i) == (Bit(lhs.raw, i) != Bit(rhs.raw, i))
  {
    CombineBits(lhs.ty.width, XorBit, lhs.raw, rhs.raw);
    Typed(lhs.ty, Combine(lhs.ty.width, XorBit, lhs.raw, rhs.raw))
  }

  /**
   * `~val`: every bit of the underlying integer flipped; the cast back to
   * the enum keeps the width, so the result is the all-ones value minus `val`.
   */
  function Not(s: Specializations, val: Value): (r: Value)
    requires Applicable(s, val.ty)
    ensures r.ty == val.ty
    ensures forall i: nat :: i < val.ty.width ==> Bit(r.raw, i) == !Bit(val.raw, i)
    ensures r.raw == Pow2(val.ty.width) - 1 - val.raw
  {
    ComplementBits(val.ty.width, val.raw);
    ComplementValue(val.ty.width, val.raw);
    Typed(val.ty, Complement(val.ty.width, val.raw))
  }

  /** `!val`: true exactly when no bit of the underlying integer is set. */
  function LogicalNot(s: Specializations, val: Value): (b: bool)
    requires Applicable(s, val.ty)
    ensures b == NoBitSet(val.ty.width, val.raw)
  {
    ZeroIffNoBit(val.ty.width, val.raw);
    val.raw == 0
  }

  /**
   * A variable of an enum type, so that the compound assignments can take
   * it by reference as their left operand.
   */
  class Holder {
    var value: Value

    constructor (v: Value)
      ensures value == v
    {
      value := v;
    }

    /** `lhs |= rhs` with this variable as `lhs`; `rhs` may be this same variable. */
    method OrAssign(s: Specializations, rhs: Holder)
      requires Applicable(s, value.ty) && rhs.value.ty == value.ty
      modifies this
      ensures value == Or(s, old(value), old(rhs.value))
      ensures rhs != this ==> rhs.value == old(rhs.value)
    {
      value := Or(s, value, rhs.value);
    }

    /** `lhs &= rhs` with this variable as `lhs`; `rhs` may be this same variable. */
    method AndAssign(s: Specializations, rhs: Holder)
      requires Applicable(s, value.ty) && rhs.value.ty == value.ty
      modifies this
      ensures value == And(s, old(value), old(rhs.value))
      ensures rhs != this ==> rhs.value == old(rhs.value)
    {
      value := And(s, value, rhs.value);
    }

    /** `lhs ^= rhs` with this variable as `lhs`; `rhs` may be this same variable. */
    method XorAssign(s: Specializations, rhs: Holder)
      requires Applicable(s, value.ty) && rhs.value.ty == value.ty
      modifies this
      ensures value == Xor(s, old(value), old(rhs.value))
      ensures rhs != this ==> rhs.value == old(rhs.value)
    {
      value := Xor(s, value, rhs.value);
    }
  }
}
