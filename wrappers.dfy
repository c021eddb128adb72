/** Option and Result: absence of a value, and an operation that either
    yields a value or raises an error carrying a message. */
module Wrappers {

  datatype Option<+T> = None | Some(value: T)

  datatype Result<+R, +E> = Success(value: R) | Failure(error: E)
}
