/** The small types the other modules share. */
module Wrappers {
  datatype Option<+T> = None | Some(value: T)

  datatype Result<+T, +E> = Ok(value: T) | Err(error: E)

  /** A point in time; 0 is Go's zero time. */
  type Time = nat
}
