/** Outcomes shared by every model: an optional value, and a transaction that commits or rolls back. */
module Wrappers {

  datatype Option<+T> = None | Some(value: T)

  datatype Result<+T, +E> = Ok(value: T) | Err(error: E)
}
