// Shared wrapper types: Java's nullable references become Option, and the
// exceptions the modelled code throws become the failure side of Result.

module Wrappers {

  datatype Option<+T> = None | Some(value: T)

  /** The kinds of exception the modelled Java and Python code raises. */
  datatype JavaError =
    | NullPointer
    | IllegalArgument
    | IllegalState
    | NumberFormat
    | InvalidParameter
    | Runtime
    | IndexOutOfBounds
    | IOFailure
    | OperatorError(line: int, found: int, expected: int)

  datatype Result<+T> = Success(value: T) | Failure(error: JavaError)
  {
    predicate IsFailure() { Failure? }

    function PropagateFailure<U>(): Result<U>
      requires Failure?
    {
      Failure(error)
    }

    function Extract(): T
      requires Success?
    {
      value
    }
  }

  /** A check that either passes or throws. */
  datatype Outcome = Pass | Fail(error: JavaError)
}
