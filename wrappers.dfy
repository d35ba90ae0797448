/** Option and Result values: a JavaScript `undefined`, and an operation that throws. */
module Wrappers {

  /** A value that may be absent (`undefined` in the source). */
  datatype Option<+T> = None | Some(value: T)

  /** The outcome of an operation that either returns a value or throws an `Error` with a message. */
  datatype Result<+T, +E> = Ok(value: T) | Err(error: E)
}
