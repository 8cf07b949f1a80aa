/** Option and Result, the two failure-carrying shapes every other module uses. */
module Wrappers {

  /** A value that may be absent (JavaScript `undefined`, or NaN where a number is expected). */
  datatype Option<+T> = None | Some(value: T)

  /** The outcome of an operation that either returns a value or throws `error`. */
  datatype Result<+T, +E> = Ok(value: T) | Err(error: E)
}
