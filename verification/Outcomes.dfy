/** Optional values and results that carry an error: what the program says with None and with
    raised exceptions. */
module Outcomes {
  datatype Option<+T> = None | Some(value: T)

  datatype Result<+T, +E> = Success(value: T) | Failure(error: E)

  // OverflowError of an integer division whose quotient exceeds the largest finite float.
  datatype ArithmeticError = FloatOverflow
}
