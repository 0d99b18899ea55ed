/**
 * Optional values and results.  A `Result` is either the value a .NET call
 * returns or the exception it throws, named by its `Fault`.
 */
module Wrappers {

  datatype Option<T> = None | Some(value: T)
  {
    function GetOr(default: T): T
    {
      if Some? then value else default
    }
  }

  /** The exceptions the modelled code lets escape, plus two modelling verdicts. */
  datatype Fault =
    | NullReference       // NullReferenceException, or unboxing null to a value type
    | InvalidCast         // InvalidCastException: unboxing to another type
    | DivideByZero        // DivideByZeroException
    | Overflow            // OverflowException (int.MinValue / -1, uint.Parse out of range)
    | KeyNotFound         // KeyNotFoundException
    | AccessViolation     // AccessViolationException (write to a channel in use)
    | Argument            // ArgumentException (duplicate key, forced reference)
    | ArgumentOutOfRange  // ArgumentOutOfRangeException: a list index or an explicit range check
    | InvalidOperation    // InvalidOperationException
    | Format              // FormatException from a Parse call
    | StackOverflow       // the call-depth budget of a recursive walk is exhausted
    | OutsideModel        // a result the model does not determine (floating-point text, NaN, ...)

  datatype Result<T> = Ok(value: T) | Fail(fault: Fault)
}
