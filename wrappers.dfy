/** Option and Result: the source's `null` results and thrown errors, as values. */
module Wrappers {

  /** A value that may be missing (`null` / `undefined` in the source). */
  datatype Option<+T> = None | Some(value: T)

  /** Either a value or the message of the error the source would throw. */
  datatype Result<+T, +E> = Ok(value: T) | Err(error: E)
}
