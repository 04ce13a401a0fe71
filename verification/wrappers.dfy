/** Option and Result, used for the parser's absent values and its exceptions. */
module Wrappers {

  /** A value that may be absent (Python's None). */
  datatype Option<+T> = None | Some(value: T)

  /** The outcome of a step that may raise: its value, or the error it raised. */
  datatype Result<+T, +E> = Ok(value: T) | Err(error: E)
}
