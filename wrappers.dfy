/** Option and Result, used for nullable columns and for the exceptions the handlers raise. */
module Wrappers {

  datatype Option<+T> = None | Some(value: T)

  datatype Result<+R, +E> = Success(value: R) | Failure(error: E)
}
