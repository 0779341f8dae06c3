/** Option and Result, shared by every module of the model. */
module Wrappers {

  datatype Option<+T> = None | Some(value: T)

  /** A returned value, or the typed failure the source raises. */
  datatype Result<+T, +E> = Ok(value: T) | Err(error: E)
}
