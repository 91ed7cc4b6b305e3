/** The two result types the modules share: a value that may be absent, and a
    value or a rejection. */
module Wrappers {
  datatype Option<+T> = None | Some(value: T)

  datatype Result<+T, +E> = Ok(value: T) | Err(error: E)
}
