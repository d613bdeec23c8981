/** Failure-carrying values used across the model: a nullable value and a
    result that is either a value or an error. */
module Wrappers {

  /** A JavaScript `null`/`undefined` or a Python `None` on one side, a value on the other. */
  datatype Option<+T> = None | Some(value: T)

  /** The outcome of a call that may throw: the value it returns, or the error it raises. */
  datatype Result<+T, +E> = Ok(value: T) | Err(error: E)
}
