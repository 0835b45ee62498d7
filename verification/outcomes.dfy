/** Failure-carrying wrappers shared by the rest of the model. */
module Outcomes {

  /** A value that may be absent, like a Python attribute that was never set. */
  datatype Option<+T> = None | Some(value: T)

  /** The outcome of a request handler: a value, or the error it raises. */
  datatype Result<+T, +E> = Ok(value: T) | Err(error: E)
}
