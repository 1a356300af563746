/** Option and Result: the values the Python and Rust code signals with None, exceptions and Err. */
module Wrappers {

  datatype Option<+T> = None | Some(value: T)

  /** Success carries the value a call returns; Failure the message of the exception it raises. */
  datatype Result<+T, +E> = Success(value: T) | Failure(error: E)
}
