/** Small shared vocabulary: optional values, results and bytes. */
module Wrappers {

  datatype Option<+T> = None | Some(value: T)

  datatype Result<+T, +E> = Ok(value: T) | Err(error: E)

  /** An octet, as Rust's `u8`. */
  newtype byte = x: int | 0 <= x < 256
}
