/** What an operation that may refuse gives back. */
module Outcomes {
  datatype Option<+T> = None | Some(value: T)
  datatype Result<+T, +E> = Ok(value: T) | Err(error: E)
}
