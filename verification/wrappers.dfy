/** Failure-carrying return values: the model's stand-in for Python exceptions. */
module Wrappers {

  /** A value that may be absent (Python's `None`, or a call that raised). */
  datatype Option<+T> = None | Some(value: T)

  /** The outcome of an operation that either returns a value or raises. */
  datatype Result<+T, +E> = Ok(value: T) | Err(error: E)

  /** The outcome of a check that returns nothing or raises. */
  datatype Outcome<+E> = Pass | Fail(error: E)
}
