/**
 * The opt-in registry: the class template `enable_enum_bitwise_operators`,
 * its `_v` helper, and the registration macro
 * `ENABLE_ENUM_BITWISE_OPERATORS`. The compile-time table of explicit
 * specializations is a value; a registration is a step from one table to
 * the next, and what the compiler rejects is a precondition.
 */
module Trait {

  /**
   * The identity of a C++ type as the header sees it: its name, whether it
   * is an enumeration, and the bit width of its underlying integer type (of
   * the type itself when it is an integer type).
   */
  datatype CppType = CppType(name: string, isEnum: bool, width: nat)

  /**
   * The explicit specializations of `enable_enum_bitwise_operators` visible
   * at a point of the program: for each specialized type, the `value` that
   * its specialization declares.
   */
  datatype Specializations = Specializations(value: map<CppType, bool>)

  /** Only the primary template: no type has been specialized, so the trait is false for every type. */
  function Primary(): (s: Specializations)
    ensures forall t :: !EnabledV(s, t)
  {
    Specializations(map[])
  }

  /**
   * `enable_enum_bitwise_operators_v<t>`: the `value` of the specialization
   * for `t` if there is one, otherwise the primary template's `false`.
   */
  function EnabledV(s: Specializations, t: CppType): (b: bool)
    ensures t !in s.value ==> !b
  {
    t in s.value && s.value[t]
  }

  /**
   * A hand-written explicit specialization declaring `value` for `t`. A
   * second explicit specialization of the same type is a redefinition.
   */
  function Specialize(s: Specializations, t: CppType, value: bool): (r: Specializations)
    requires t !in s.value
    ensures EnabledV(r, t) == value
    ensures forall u :: u != t ==> EnabledV(r, u) == EnabledV(s, u)
    ensures r.value.Keys == s.value.Keys + {t}
  {
    Specializations(s.value[t := value])
  }

  /**
   * What `ENABLE_ENUM_BITWISE_OPERATORS(t)` demands to compile: its
   * static_assert that `t` is an enum, and no earlier specialization of `t`.
   */
  predicate CanRegister(s: Specializations, t: CppType)
    ensures CanRegister(s, t) ==> !EnabledV(s, t)
  {
    t.isEnum && t !in s.value
  }

  /** `ENABLE_ENUM_BITWISE_OPERATORS(t)`: a specialization whose value is true. */
  function Register(s: Specializations, t: CppType): (r: Specializations)
    requires CanRegister(s, t)
    ensures EnabledV(r, t)
    ensures forall u :: u != t ==> EnabledV(r, u) == EnabledV(s, u)
    ensures forall u :: EnabledV(s, u) ==> EnabledV(r, u)
    ensures r.value.Keys == s.value.Keys + {t}
  {
    Specialize(s, t, true)
  }

  /** Every type of `ts` is an enum, no two are the same and none is specialized in `s`. */
  predicate CanRegisterAll(s: Specializations, ts: seq<CppType>)
  {
    (forall k :: 0 <= k < |ts| ==> ts[k].isEnum && ts[k] !in s.value) &&
    (forall j, k :: 0 <= j < k < |ts| ==> ts[j] != ts[k])
  }

  /** The macro applied to each type of `ts` in turn, as a translation unit does. */
  function RegisterAll(s: Specializations, ts: seq<CppType>): (r: Specializations)
    requires CanRegisterAll(s, ts)
    ensures r.value.Keys == s.value.Keys + set t | t in ts
    decreases |ts|
  {
    if ts == [] then s
    else
      assert CanRegisterAll(Register(s, ts[0]), ts[1..]) by {
        forall k | 0 <= k < |ts| - 1 ensures ts[1..][k] != ts[0] {
          assert ts[1..][k] == ts[k + 1];
        }
      }
      assert ts == [ts[0]] + ts[1..];
      RegisterAll(Register(s, ts[0]), ts[1..])
  }

  /**
   * A type is enabled after registering `ts` exactly when it was enabled
   * before or is one of the types of `ts`.
   */
  lemma {:induction false} RegisterAllEnablesExactly(s: Specializations, ts: seq<CppType>, t: CppType)
    requires CanRegisterAll(s, ts)
    ensures EnabledV(RegisterAll(s, ts), t) <==> EnabledV(s, t) || t in ts
    decreases |ts|
  {
    if ts != [] {
      var s' := Register(s, ts[0]);
      assert CanRegisterAll(s', ts[1..]) by {
        forall k | 0 <= k < |ts| - 1 ensures ts[1..][k] != ts[0] {
          assert ts[1..][k] == ts[k + 1];
        }
      }
      RegisterAllEnablesExactly(s', ts[1..], t);
      assert ts == [ts[0]] + ts[1..];
    }
  }

  /** The primary template alone enables nothing; the registered types of a unit, exactly. */
  lemma RegisteredUnit(ts: seq<CppType>, t: CppType)
    requires CanRegisterAll(Primary(), ts)
    ensures EnabledV(RegisterAll(Primary(), ts), t) <==> t in ts
  {
    RegisterAllEnablesExactly(Primary(), ts, t);
  }
}
