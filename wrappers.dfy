/** Failure-carrying values shared by every module of the model. */
module Wrappers {

  datatype Option<+T> = None | Some(value: T)

  /** The outcome of an operation that can fail: a value or an error. */
  datatype Result<+T, +E> = Ok(value: T) | Err(error: E)
}
