/** Option and Result, used for lookups that may find nothing and for
    storage and generation steps that may fail. */
module Wrappers {

  datatype Option<+T> = None | Some(value: T)

  datatype Result<+R, +E> = Success(value: R) | Failure(error: E)
}
