/** Option and Result: the absent value and the error outcome of the application. */
module Wrappers {

  /** A value that may be missing, as Python's `None`. */
  datatype Option<+T> = None | Some(value: T)

  /** The outcome of an operation that can raise. */
  datatype Result<+R, +E> = Ok(value: R) | Err(error: E)
}
