/** Rust's `Option`, for the optional command-line values. */
module Wrappers {
  datatype Option<+T> = None | Some(value: T)
}
