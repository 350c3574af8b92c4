/** Option and Result, the failure-carrying values used throughout the model. */
module Wrappers {

  datatype Option<+T> = None | Some(value: T)

  /** A computation that either produced a value or raised an error (an exception in the source). */
  datatype Result<+T, +E> = Ok(value: T) | Err(error: E)
}
