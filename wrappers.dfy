/** Option and Result, used for Python's `None` and for the exceptions the
    backend raises (or lets escape) instead of returning a value. */
module Wrappers {

  datatype Option<+T> = None | Some(value: T)

  datatype Result<+T, +E> = Success(value: T) | Failure(error: E)
}
