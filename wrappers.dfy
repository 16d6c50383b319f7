/** Option and Result, the failure-carrying values used throughout the model. */
module Wrappers {

  datatype Option<+T> = None | Some(value: T)

  /** A value, or the error that the source returns (or panics with) instead. */
  datatype Result<+T, +E> = Ok(value: T) | Err(error: E)
}
