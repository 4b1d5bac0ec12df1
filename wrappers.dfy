/**
 * Failure-carrying results. The library signals every malformed input by throwing; the model
 * returns the kind of exception that would have been thrown instead.
 */
module Wrappers {

  /** The exception classes the core throws. */
  datatype Error =
    | IllegalArgument    // checkArgument, NumberFormatException
    | IllegalState       // checkState
    | Unsupported        // UnsupportedOperationException
    | Assertion          // AssertionError
    | NullPointer        // `!!` on a null value
    | IndexOutOfBounds   // an index outside a list or string
    | ClassCast          // a cast of an argument to the wrong class

  datatype Option<+T> = None | Some(value: T)

  datatype Result<+T> = Ok(value: T) | Err(error: Error) {
    predicate IsFailure() { Err? }

    function PropagateFailure<U>(): Result<U>
      requires Err?
    {
      Err(error)
    }

    function Extract(): T
      requires Ok?
    {
      value
    }
  }

  /** A check that either passes or names the exception it throws. */
  datatype Outcome = Pass | Fail(error: Error) {
    predicate IsFailure() { Fail? }

    function PropagateFailure<U>(): Result<U>
      requires Fail?
    {
      Err(error)
    }
  }
}
