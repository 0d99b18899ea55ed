/**
 * The branch node of the math expressions: which branch a condition value
 * selects. Reading the condition and the chosen branch is in module Cells.
 */
module MathIf {
  import opened Wrappers
  import opened Values
  import MathCalc

  /**
   * Whether a condition value selects the true branch: a bool is itself, a
   * number is true when non-zero, a string when non-empty, and any other
   * value when it is not null.
   */
  predicate Truthy(cond: Val)
  {
    match cond
    case VBool(b) => b
    case VDouble(d) => d != 0.0
    case VInt(i) => i != 0
    case VStr(s) => |s| > 0
    case VNull => false
    case _ => true
  }

  /**
   * A number as a condition selects the same branch as the bool node's
   * fromInt and fromDouble conversions of that number.
   */
  lemma TruthyAgreesWithBoolConversion(v: Val)
    requires v.VInt? || v.VDouble?
    ensures v.VInt? ==> MathCalc.CalcValue(MathCalc.Bool, MathCalc.FromInt, [Ok(v)]) == Ok(VBool(Truthy(v)))
    ensures v.VDouble? ==> MathCalc.CalcValue(MathCalc.Bool, MathCalc.FromDouble, [Ok(v)]) == Ok(VBool(Truthy(v)))
  {
  }

  /**
   * A string as a condition is not parsed: "false" selects the true branch,
   * although the bool node's fromString conversion reads it as false.
   */
  lemma TruthyDoesNotParseText()
    ensures Truthy(VStr("false"))
    ensures MathCalc.CalcValue(MathCalc.Bool, MathCalc.FromString, [Ok(VStr("false"))]) == Ok(VBool(false))
  {
  }
}
