/** Failure-carrying datatypes used in place of Python exceptions. */
module Wrappers {

  datatype Option<+T> = None | Some(value: T)

  /** The value of a call that either returns or raises. */
  datatype Result<+T, +E> = Ok(value: T) | Err(error: E)

  /** The value of a call that returns None or raises. */
  datatype Outcome<+E> = Pass | Fail(error: E)
}
