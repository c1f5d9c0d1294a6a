/** Failure-carrying wrappers shared by every module of the model. */
module Wrappers {

  /** A value that may be missing: Python's `None` versus a value. */
  datatype Option<+T> = None | Some(value: T)

  /** The outcome of an operation that can raise: `Err` carries the kind of exception raised. */
  datatype Result<+T, +E> = Ok(value: T) | Err(error: E)
}
