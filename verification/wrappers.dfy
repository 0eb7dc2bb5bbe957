/** Failure-carrying datatypes shared by the encoder and discovery modules. */
module Wrappers {

  /** An optional value: Rust's `Option`. */
  datatype Option<+T> = None | Some(value: T)

  /** A value or an error: Rust's `Result` (here `anyhow::Result` with a typed error). */
  datatype Result<+T, +E> = Success(value: T) | Failure(error: E)
}
