/** Failure-carrying datatypes used for the Python code's `None` returns and
    its caught exceptions. */
module Wrappers {

  /** A value that may be missing: Python's `None` or a caught exception. */
  datatype Option<+T> = None | Some(value: T)

  /** Either a value or one of the user-facing errors an operation reports. */
  datatype Result<+T, +E> = Success(value: T) | Failure(error: E)
}
