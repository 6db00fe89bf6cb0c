/** Option and Result, the two failure-carrying datatypes the model uses for the
    source's `(value, error)` returns and its "missing" cases. */
module Wrappers {

  datatype Option<+T> = None | Some(value: T)

  datatype Result<+R, +E> = Success(value: R) | Failure(error: E)
}
