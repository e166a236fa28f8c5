/** Result types shared by the three buffers. */
module Wrappers {

  /** A slot or a read that may hold nothing: `None` plays the part of the empty sentinel. */
  datatype Option<+T> = None | Some(value: T)

  /** The outcome of an operation that returns a value or raises. */
  datatype Result<+T, +E> = Ok(value: T) | Err(error: E)

  /** The outcome of an operation that returns nothing or raises. */
  datatype Outcome<+E> = Pass | Fail(error: E)
}
