/** A value that may be missing: Rust's Option, and C's error returns. */
module Options {
  datatype Option<+T> = None | Some(value: T)
}
