/** Outcomes: a value that may be absent (Python's `None`), and one an exception may replace. */
module Wrappers {

  datatype Option<+T> = None | Some(value: T)

  datatype Result<+T, +E> = Ok(value: T) | Err(error: E)
}
