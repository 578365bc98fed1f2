/** Option and Result, the two failure-carrying wrappers the model uses for
    nullable columns, Python's `None`, and errors that the source raises. */
module Wrappers {

  datatype Option<+T> = None | Some(value: T)

  datatype Result<+R, +E> = Success(value: R) | Failure(error: E)
}
