/** Option and Result, the two failure-carrying datatypes the model uses for
    Python's `None` and for calls that either return or raise. */
module Wrappers {

  datatype Option<+T> = None | Some(value: T)

  datatype Result<+T, +E> = Success(value: T) | Failure(error: E)
}
