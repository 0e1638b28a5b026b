/** Option and Result values for the Go code's nil pointers and `(value, error)` returns. */
module Wrappers {

  datatype Option<+T> = None | Some(value: T)

  /** The outcome of a call that either yields a value or fails with an error text. */
  datatype Result<+T> = Success(value: T) | Failure(error: string)
}
