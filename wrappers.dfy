/** Option and Result values, used where the Go code returns a nil pointer or an error. */
module Wrappers {

  /** An optional value; None plays the part of a nil pointer. */
  datatype Option<+T> = None | Some(value: T)

  /** The outcome of an operation that can fail; Failure plays the part of a non-nil Go error. */
  datatype Result<+R, +E> = Success(value: R) | Failure(error: E)
}
