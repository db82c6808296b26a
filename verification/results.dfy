/** Rust-style optional values and results, shared by every module of the model. */
module Results {

  /** An optional value (Rust's `Option<T>`). */
  datatype Option<+T> = None | Some(value: T)

  /** The outcome of a fallible call (Rust's `Result<T, E>`). */
  datatype Result<+T, +E> = Ok(value: T) | Err(error: E)
}
