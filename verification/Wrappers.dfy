module Wrappers {
  datatype Option<+T> = None | Some(value: T)

  /** A service either succeeds or raises Conflict, and then the transaction leaves no trace. */
  datatype Result<+T> = Ok(value: T) | Conflict
}
