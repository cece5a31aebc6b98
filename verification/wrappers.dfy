/** Failure-carrying datatypes shared by the model: Python's `None`-or-value
    and the raise-or-return shape of a call. */
module Wrappers {

  /** A value that may be absent (Python's `None`). */
  datatype Option<+T> = None | Some(value: T)

  /** Either the value a call returned or the error it raised. */
  datatype Result<+T, +E> = Success(value: T) | Failure(error: E)
}
