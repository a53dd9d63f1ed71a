/**
 * The example in the header's documentation: two 8-bit flag enums `foo`
 * and `bar` registered with the macro, `int` refused by it, and the
 * compile-time assertions made about `foo`'s values.
 */
module Example {
  import opened Bits
  import opened Trait
  import opened Operators
  import opened Laws

  /** `enum class foo : uint8_t`. */
  const Foo := CppType("foo", true, 8)
  /** `enum class bar : uint8_t`. */
  const Bar := CppType("bar", true, 8)
  /** `int`, which is not an enumeration. */
  const Int := CppType("int", false, 32)
  /** `enum class baz : uint8_t`, an enum that is never registered. */
  const Baz := CppType("baz", true, 8)

  /** `ENABLE_ENUM_BITWISE_OPERATORS(foo);` followed by `ENABLE_ENUM_BITWISE_OPERATORS(bar);`. */
  const Unit: Specializations := RegisterAll(Primary(), [Foo, Bar])

  const FOO0: Value := Typed(Foo, 0)
  const FOO1: Value := Typed(Foo, 1)
  const FOO2: Value := Typed(Foo, 2)
  const BAR1: Value := Typed(Bar, 1)
  const BAR2: Value := Typed(Bar, 2)

  /** The underlying values that `foo` gives names to. */
  const FooEnumerators: set<nat> := {0, 1, 2}

  /** After the two registrations the operators apply to `foo` and `bar`, and to no other type. */
  lemma UnitEnables(t: CppType)
    ensures Applicable(Unit, Foo) && Applicable(Unit, Bar)
    ensures EnabledV(Unit, t) <==> t == Foo || t == Bar
  {
    RegisteredUnit([Foo, Bar], t);
    RegisteredUnit([Foo, Bar], Foo);
    RegisteredUnit([Foo, Bar], Bar);
  }

  /** `ENABLE_ENUM_BITWISE_OPERATORS(int)` fails its static_assert; registering `foo` twice is a redefinition. */
  lemma RegistrationRefused()
    ensures !CanRegister(Unit, Int) && !CanRegister(Unit, Foo)
  {
  }

  /** No operator applies to `baz`, which was never registered. */
  lemma UnregisteredRefused()
    ensures !Applicable(Unit, Baz)
  {
  }

  /** `foo::FOO1 | foo::FOO2` is 0b11, a value that no enumerator of `foo` names. */
  lemma Foo3IsThree()
    ensures Applicable(Unit, Foo)
    ensures Or(Unit, FOO1, FOO2) == Typed(Foo, 3)
    ensures Or(Unit, FOO1, FOO2).raw !in FooEnumerators
  {
    UnitEnables(Foo);
    ArithmeticOfOrAndXor(Unit, FOO1, FOO2);
    assert And(Unit, FOO1, FOO2).raw == 0 by {
      ZeroIffNoBit(8, And(Unit, FOO1, FOO2).raw);
      assert !Bit(FOO1.raw, 1) && forall i: nat :: 1 < i ==> !Bit(FOO1.raw, i) by {
        forall i: nat | 1 <= i ensures !Bit(FOO1.raw, i) { ZeroBit(i - 1); }
      }
      assert !Bit(FOO2.raw, 0);
    }
  }

  /**
   * The static assertions of the example on `foo3 = FOO1 | FOO2`:
   * `foo3 & foo1` has a bit set, `(foo3 & ~foo2) == foo1`, `!!foo1` and `!FOO0`.
   */
  lemma DocumentedAssertions()
    ensures Applicable(Unit, Foo)
    ensures !LogicalNot(Unit, And(Unit, Or(Unit, FOO1, FOO2), FOO1))
    ensures And(Unit, Or(Unit, FOO1, FOO2), Not(Unit, FOO2)) == FOO1
    ensures !LogicalNot(Unit, FOO1)
    ensures LogicalNot(Unit, FOO0)
  {
    Foo3IsThree();
    var foo3 := Or(Unit, FOO1, FOO2);
    LogicalNotIsZeroTest(Unit, FOO1);
    LogicalNotIsZeroTest(Unit, FOO0);
    FlagTest(Unit, foo3, FOO1);
    assert Bit(foo3.raw, 0) && Bit(FOO1.raw, 0);
    var lhs := And(Unit, foo3, Not(Unit, FOO2));
    forall i: nat | i < 8 ensures Bit(lhs.raw, i) == Bit(FOO1.raw, i) {
      if i > 1 {
        ZeroBit(i - 1);
        assert Bit(FOO2.raw, i) == Bit(1, i - 1) == Bit(0, i - 2);
      }
    }
    EqualByBits(lhs, FOO1);
  }

  /** `flags |= foo::FOO2; flags &= flags; flags ^= flags;` on a variable that starts as `foo::FOO1`. */
  method CompoundAssignments()
  {
    UnitEnables(Foo);
    var flags := new Holder(FOO1);
    var rhs := new Holder(FOO2);
    flags.OrAssign(Unit, rhs);
    Foo3IsThree();
    assert flags.value == Typed(Foo, 3) && rhs.value == FOO2;
    flags.AndAssign(Unit, flags);
    AndIdempotent(Unit, Typed(Foo, 3));
    assert flags.value == Typed(Foo, 3);
    flags.XorAssign(Unit, flags);
    XorSelfIsZero(Unit, Typed(Foo, 3));
    assert flags.value == FOO0;
  }
}
