# bitwise-enum in Dafny

A model of `bitwise_enum.hpp`, a header that lets a C++ programmer opt a
scoped enum into eight flag operators: `|`, `|=`, `&`, `&=`, `^`, `^=`, `~`
and `!`. Opting in is done through the class template
`enable_enum_bitwise_operators`, whose primary template says "disabled".
A type is enabled by an explicit specialization whose `value` is true,
which the macro `ENABLE_ENUM_BITWISE_OPERATORS` writes after a
static_assert that the type is an enum. Each operator takes part in
overload resolution only for enabled types. It casts its operands to the
enum's underlying integer, applies the native operator, and casts the
result back without checking that it names an enumerator. `!` compares the
underlying integer with zero.

Modules:

- `Bits` (bits.dfy): the underlying integers. A value of width `w` is a
  natural number below 2^w. `|`, `&`, `^` and `~` are defined bit by bit
  (`Combine`, `Complement`), so one definition covers every width. The
  lemmas give each operation's effect on every bit, the arithmetic meaning
  of `~`, `|`, `&` and `^`, and the fact that a bit pattern determines its
  value.
- `Trait` (trait.dfy): the table of explicit specializations, a value of
  type `Specializations`. `EnabledV` is `enable_enum_bitwise_operators_v`.
  `Specialize` is a hand-written specialization. `Register` is the macro.
  `RegisterAll` is a translation unit that uses the macro for several types
  in turn. What the compiler rejects becomes a precondition: a non-enum
  type, or a second specialization of the same type.
- `Operators` (operators.dfy): the eight operators. An object is
  `Typed(ty, raw)`, and the subset type `Value` keeps `raw` within the
  width of `ty`. Whether an operator can be used on `t` becomes the
  precondition `Applicable(s, t)`. The `enable_if_t` gate needs the trait
  to say true. The body then needs `std::underlying_type_t<t>`, which
  exists only for enums. Both operands must have
  the same type `t`, because every template takes both operands as one
  `enum_t`. `|`, `&`, `^`, `~` and `!` are functions. `|=`, `&=` and `^=`
  assign to their by-reference left operand. They are methods of the class
  `Holder`, which holds that operand. The right operand is a `Holder` too,
  because it is passed by reference and may be the left operand itself
  (`x |= x`).
- `Laws` (laws.dfy): the Boolean algebra that the operators inherit from
  the native ones. It covers commutativity, associativity, idempotence,
  distributivity, De Morgan, `x ^ x`, `x & ~x`, `x | ~x`, `~~x == x`, and
  `!` as the zero test.
- `Example` (example.dfy): the usage example in the header's documentation
  comment, with the `foo` and `bar` enums and the assertions made about
  `foo`. The module adds two things that the header's example does not
  have. One is `baz`, an enum that is never registered. The other is
  `CompoundAssignments`, a walk through `|=`, `&=` and `^=` on one
  variable, `&=` and `^=` with the variable as its own right operand.

Notes on the source:

- Line 57 of the example writes `static_assert(foo3 & foo1, "Error.")`.
  That needs `foo3 & foo1`, a scoped-enum value, to convert to `bool`. The
  header says at lines 12-16 that this conversion is not available, and
  that `!!` is the way to ask whether a bit is set. The model states this
  assertion as `!!(foo3 & foo1)` (`Example.DocumentedAssertions`).
- Registering the same type twice is a compile error in the code, because
  the second explicit specialization is a redefinition. The model keeps
  that rule: a precondition of `Trait.Specialize` and `Trait.Register`.
- The model covers enums with a fixed integer underlying type other than
  `bool`. Every `enum class` is of this kind unless it is declared
  `: bool`. Other enums also pass the macro's `std::is_enum` test; see
  "## Left out".
- Underlying types are modelled as unsigned bit patterns of their width.
  For a signed underlying type, `raw` is the two's complement pattern. The
  bitwise operators and the comparison with zero give the same answers on
  the pattern as on the signed value.

## Model

In the table, `bitor` and `or_eq` are the C++ alternative spellings of `|` and `|=`.

| member | source | states |
|---|---|---|
| Trait.Primary | bitwise_enum.hpp:84-92 | the primary template alone: the trait's value is false for every type |
| Trait.CanRegister | bitwise_enum.hpp:255-260 | what the macro needs to compile: the static_assert that the type is an enum, and no earlier specialization of it (a second one would be a redefinition); a type that can still be registered is not yet enabled |
| Trait.EnabledV | bitwise_enum.hpp:84-102 | the trait's value for a type: false for every type without an explicit specialization (the primary template), otherwise that specialization's value |
| Trait.Specialize | bitwise_enum.hpp:86-91 | a hand-written specialization sets the trait for its type to the value it declares, leaves every other type as it was, and adds exactly its type to the specialized types; a second specialization of a type is refused |
| Trait.Register | bitwise_enum.hpp:255-260 | the macro is accepted only for an enum type not yet specialized; afterwards the trait is true for that type, every other type keeps its value, and nothing already enabled becomes disabled |
| Trait.RegisterAll | bitwise_enum.hpp:255-260 | a sequence of macro uses adds exactly the listed types to the specialized types |
| Trait.RegisterAllEnablesExactly | bitwise_enum.hpp:84-92 | after a sequence of registrations, a type is enabled exactly when it was enabled before or is one of the registered types |
| Trait.RegisteredUnit | bitwise_enum.hpp:84-92 | starting from the primary template alone, the types enabled are exactly the registered ones: disabled unless registered, enabled once registered |
| Operators.Applicable | bitwise_enum.hpp:115-122 | whether an operator can be used on a type: `enable_if_t` needs the trait to be true, and `std::underlying_type_t` in the body needs an enum; only a type with an explicit specialization declaring true qualifies |
| Operators.Or | bitwise_enum.hpp:115-122 | `lhs bitor rhs` only for an enabled enum type and operands of that one type; the result has that type, stays within its width, and has a bit set exactly where either operand has it |
| Operators.And | bitwise_enum.hpp:151-158 | `lhs & rhs` under the same gate; the result has a bit set exactly where both operands have it |
| Operators.Xor | bitwise_enum.hpp:187-194 | `lhs ^ rhs` under the same gate; the result has a bit set exactly where one operand, but not both, has it |
| Operators.Not | bitwise_enum.hpp:222-228 | `~val` under the same gate; every bit within the width is flipped, and the underlying value is the all-ones value of the width minus `val` |
| Operators.LogicalNot | bitwise_enum.hpp:242-248 | `!val` under the same gate; true exactly when no bit of the underlying value is set |
| Operators.Holder.OrAssign | bitwise_enum.hpp:133-138 | after `lhs or_eq rhs`, `lhs` is the old `lhs bitor rhs`, and `rhs` is unchanged unless it is `lhs` itself |
| Operators.Holder.AndAssign | bitwise_enum.hpp:169-174 | after `lhs &= rhs`, `lhs` is the old `lhs & rhs`, and `rhs` is unchanged unless it is `lhs` itself |
| Operators.Holder.XorAssign | bitwise_enum.hpp:205-210 | after `lhs ^= rhs`, `lhs` is the old `lhs ^ rhs`, and `rhs` is unchanged unless it is `lhs` itself |
| Bits.Combine | bitwise_enum.hpp:119-121 | the native `bitor`, `&` and `^` on the underlying integers, bit by bit; the result fits the width of the operands' type |
| Bits.Complement | bitwise_enum.hpp:226-227 | `~` on the underlying integer with the cast back to the enum; the result fits the width |
| Bits.CombineBit | bitwise_enum.hpp:119-121 | the native bitwise operation on two integers of one width acts bit by bit: each bit of the result is the bit operation applied to the operands' bits |
| Bits.ComplementBit | bitwise_enum.hpp:226-227 | `~` truncated back to the width flips each bit within the width |
| Bits.ComplementValue | bitwise_enum.hpp:226-227 | on a value of width w, `~` cast back to width w is 2^w - 1 minus the value |
| Bits.ZeroIffNoBit | bitwise_enum.hpp:246-247 | a value of width w equals zero exactly when none of its w bits is set |
| Bits.OrPlusAnd | bitwise_enum.hpp:119-121 | `(a bitor b) + (a & b) == a + b` on values of one width |
| Bits.XorIsOrMinusAnd | bitwise_enum.hpp:191-193 | `a ^ b == (a bitor b) - (a & b)` |
| Laws.OrCommutes | bitwise_enum.hpp:119-121 | `x bitor y == y bitor x` |
| Laws.AndCommutes | bitwise_enum.hpp:155-157 | `x & y == y & x` |
| Laws.XorCommutes | bitwise_enum.hpp:191-193 | `x ^ y == y ^ x` |
| Laws.OrAssociates | bitwise_enum.hpp:119-121 | `(x bitor y) bitor z == x bitor (y bitor z)` |
| Laws.AndAssociates | bitwise_enum.hpp:155-157 | `(x & y) & z == x & (y & z)` |
| Laws.XorAssociates | bitwise_enum.hpp:191-193 | `(x ^ y) ^ z == x ^ (y ^ z)` |
| Laws.OrIdempotent | bitwise_enum.hpp:119-121 | `x bitor x == x` |
| Laws.AndIdempotent | bitwise_enum.hpp:155-157 | `x & x == x` |
| Laws.XorSelfIsZero | bitwise_enum.hpp:191-193 | `x ^ x` has underlying value zero |
| Laws.NotInvolutive | bitwise_enum.hpp:222-228 | `~~x == x`: complement truncated to the width is an involution |
| Laws.AndDistributesOverOr | bitwise_enum.hpp:151-158 | `x & (y bitor z) == (x & y) bitor (x & z)` |
| Laws.OrDistributesOverAnd | bitwise_enum.hpp:115-122 | `x bitor (y & z) == (x bitor y) & (x bitor z)` |
| Laws.NotOfOr | bitwise_enum.hpp:222-228 | `~(x bitor y) == ~x & ~y` |
| Laws.NotOfAnd | bitwise_enum.hpp:222-228 | `~(x & y) == ~x bitor ~y` |
| Laws.ComplementLaws | bitwise_enum.hpp:222-228 | `x & ~x` is zero and `x bitor ~x` is the all-ones value of the width |
| Laws.LogicalNotIsZeroTest | bitwise_enum.hpp:242-248 | `!x` holds exactly when the underlying value equals zero; this is `LogicalNot`'s definition, restated as a lemma so it can be cited, while `LogicalNot`'s own contract gives the bit-level meaning |
| Laws.DoubleLogicalNot | bitwise_enum.hpp:12-16 | `!!x` holds exactly when some bit of `x` is set |
| Laws.FlagTest | bitwise_enum.hpp:12-16 | `!!(x & y)` holds exactly when `x` and `y` have a set bit in common |
| Laws.ArithmeticOfOrAndXor | bitwise_enum.hpp:115-122 | on the underlying values, `(x bitor y) + (x & y) == x + y` and `x ^ y == (x bitor y) - (x & y)` |
| Example.UnitEnables | bitwise_enum.hpp:38-49 | after registering `foo` and `bar`, the operators apply to both, and the trait is true for those two types and no other |
| Example.RegistrationRefused | bitwise_enum.hpp:51 | the macro cannot be applied to `int` (not an enum), nor a second time to `foo` |
| Example.UnregisteredRefused | bitwise_enum.hpp:84-92 | no operator applies to an enum type that was never registered |
| Example.Foo3IsThree | bitwise_enum.hpp:54-56 | `foo::FOO1 bitor foo::FOO2` is 0b11, a value no enumerator of `foo` names |
| Example.DocumentedAssertions | bitwise_enum.hpp:54-60 | `foo3 & foo1` has a bit set, `(foo3 & ~foo2) == foo1`, `!!foo1` holds, `!foo1` does not, and `!FOO0` holds |

## Left out

- The C++ template machinery is not modelled. This covers `enable_if_t` removal from overload resolution, `constexpr` evaluation and the macro's expansion into a specialization. Only their effect is modelled, as preconditions. Every function of the model is pure, so it can be evaluated on constants, which is what `constexpr` gives.
- The negative compile tests at lines 61-63 are not modelled: mixing `foo` with `bar`, `foo` with a raw integer, and arithmetic on `foo`. Dafny's typing and the same-type precondition exclude these; the model defines no operator for them, so there is nothing to prove.
- The use of `foo` in `std::set` and `std::unordered_set` is not modelled (lines 22-23 and 65-68). The ordering and hashing come from the language, not from this header.
- Integer promotion inside `~` on types narrower than `int` is not modelled. The model gives the width-N complement directly. For an enum with a fixed integer underlying type other than `bool`, the cast back at lines 226-227 produces that value.
- Operators.Not: covers only enums with a fixed integer underlying type other than `bool`; the macro's only test is `std::is_enum` (line 258), so two other kinds of enum get through. For `enum class E : bool`, `~` yields the `int` -2 or -1, and the cast back to `bool` gives `true`, so `~E::T == E::T`, whereas the model's 1-bit complement gives the other value. For an unscoped enum with no enum-base, `~` can leave the enum's range of values, and the cast back is then undefined behaviour. Neither case is modelled.
- The rule that an explicit specialization must come before the first use that instantiates the trait is not modelled. The model treats the table of specializations as given at each use.
- The include guard and `#include <type_traits>` (lines 73-76) are not modelled. They have no behaviour of their own.
