/** Failure-compatible wrappers used for optional inputs and for the
    outcome of the two save handlers (an alert becomes a Failure). */
module Wrappers {

  datatype Option<+T> = None | Some(value: T)

  datatype Result<+R, +E> = Success(value: R) | Failure(error: E)
}
