/**
 * The comparison node of the math expressions: what it computes from the
 * values read from its two operands. Reading the operands is in module Cells.
 */
module MathCheck {
  import opened Values

  datatype CheckMode = Eq | Neq | Lt | Lteq | Gt | Gteq

  /** Both values are of one of the four types the comparison knows. */
  predicate SameKnownType(a: Val, b: Val)
  {
    (a.VDouble? && b.VDouble?) || (a.VInt? && b.VInt?) || (a.VStr? && b.VStr?) || (a.VBool? && b.VBool?)
  }

  /**
   * The number an ordering compares: the value of a number, the length of
   * a string, 1 or 0 for a bool.
   */
  function Measure(v: Val): real
    requires v.VDouble? || v.VInt? || v.VStr? || v.VBool?
  {
    match v
    case VDouble(d) => d
    case VInt(i) => i as real
    case VStr(s) => |s| as real
    case VBool(b) => if b then 1.0 else 0.0
  }

  /**
   * The value of a comparison of `a` with `b`: a bool, or null for an
   * ordering between values of different or unknown types. Equality of two
   * known values of one type compares their contents; otherwise it is the
   * reference comparison of the boxed objects.
   */
  function Compare(mode: CheckMode, a: Val, b: Val): (r: Val)
    ensures r.VBool? || r == VNull
    ensures r == VNull <==> !mode.Eq? && !mode.Neq? && !SameKnownType(a, b)
  {
    match mode
    case Eq => VBool(if SameKnownType(a, b) then a == b else RefEquals(a, b))
    case Neq => VBool(if SameKnownType(a, b) then a != b else !RefEquals(a, b))
    case Lt => if SameKnownType(a, b) then VBool(Measure(a) < Measure(b)) else VNull
    case Lteq => if SameKnownType(a, b) then VBool(Measure(a) <= Measure(b)) else VNull
    case Gt => if SameKnownType(a, b) then VBool(Measure(a) > Measure(b)) else VNull
    case Gteq => if SameKnownType(a, b) then VBool(Measure(a) >= Measure(b)) else VNull
  }

  /** `neq` is the negation of `eq` on every pair of values. */
  lemma NeqIsNotEq(a: Val, b: Val)
    ensures Compare(Neq, a, b) == VBool(!Compare(Eq, a, b).b)
  {
  }

  /** `gt` and `gteq` are `lt` and `lteq` with the operands swapped. */
  lemma GreaterIsSwappedLess(a: Val, b: Val)
    ensures Compare(Gt, a, b) == Compare(Lt, b, a)
    ensures Compare(Gteq, a, b) == Compare(Lteq, b, a)
  {
  }

  /** Between comparable values `lteq` is the negation of `gt`, and `lt` of `gteq`. */
  lemma OrderingIsTotal(a: Val, b: Val)
    requires SameKnownType(a, b)
    ensures Compare(Lteq, a, b) == VBool(!Compare(Gt, a, b).b)
    ensures Compare(Lt, a, b) == VBool(!Compare(Gteq, a, b).b)
  {
  }

  /**
   * Between numbers and bools the orderings agree with equality: `lteq`
   * holds exactly when `lt` or `eq` does. Strings are the exception: they
   * are ordered by length but equal by content.
   */
  lemma LteqIsLtOrEq(a: Val, b: Val)
    requires SameKnownType(a, b) && !a.VStr?
    ensures Compare(Lteq, a, b).b <==> Compare(Lt, a, b).b || Compare(Eq, a, b).b
  {
    if a.VBool? {
      assert Measure(a) == Measure(b) ==> a == b;
    }
  }

  /** Two different strings of one length: neither is less, yet they are not equal. */
  lemma StringsOrderedByLength()
    ensures Compare(Lteq, VStr("ab"), VStr("cd")) == VBool(true)
    ensures Compare(Lt, VStr("ab"), VStr("cd")) == VBool(false)
    ensures Compare(Eq, VStr("ab"), VStr("cd")) == VBool(false)
  {
    assert VStr("ab") != VStr("cd") by { assert "ab"[0] != "cd"[0]; }
  }

  /**
   * A value equals itself when it is null, one of the four known types or
   * a status object; any other value type is boxed afresh for each operand
   * and so is never the same object.
   */
  lemma EqReflexive(a: Val)
    ensures Compare(Eq, a, a).b <==> a == VNull || a.VStatus? || SameKnownType(a, a)
  {
  }
}
