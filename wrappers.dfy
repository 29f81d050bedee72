/** Option and Result, the two failure-carrying wrappers the model uses. */
module Wrappers {

  datatype Option<+T> = None | Some(value: T)

  /** The outcome of an operation that can be refused: a value, or the error the source raises. */
  datatype Result<+R, +E> = Success(value: R) | Failure(error: E)
}
