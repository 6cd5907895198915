/** Option and Result values shared by the modules of this model. */
module Wrappers {

  /** A value that may be absent (Ruby's nil). */
  datatype Option<+T> = None | Some(value: T)

  /** A computation that either produced a value or raised an error. */
  datatype Result<+T, +E> = Success(value: T) | Failure(error: E)
}
