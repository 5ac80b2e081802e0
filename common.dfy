/** Shared vocabulary: the unsigned byte cell and an optional value. */
module Common {

  /** An unsigned 8-bit integer (Rust `u8`). */
  type byte = x: int | 0 <= x < 256

  /** Rust's `Option<T>`. */
  datatype Option<T> = None | Some(value: T)
}
