// A value that may be missing, and a call that may fail.

module Outcomes {
  datatype Option<+T> = None | Some(value: T)

  datatype Result<+T, +E> = Ok(value: T) | Err(error: E)
}
