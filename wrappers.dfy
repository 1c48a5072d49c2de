/** Failure-carrying values used throughout the model. */
module Wrappers {

  /** A value that may be absent: Python's `None` or a present value. */
  datatype Option<T> = None | Some(value: T)

  /** The outcome of a call that returns a value or raises an exception. */
  datatype Result<T, E> = Ok(value: T) | Err(error: E)

  /** The outcome of a call that returns nothing or raises an exception. */
  datatype Outcome<E> = Pass | Fail(error: E)
}
