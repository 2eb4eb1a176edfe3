/** Option and Result values shared by the other modules. */
module Wrappers {

  datatype Option<+T> = None | Some(value: T)

  /** The outcome of a computation that can raise: the value, or the error it raised. */
  datatype Result<+T, +E> = Success(value: T) | Failure(error: E)
}
