/** Outcome types shared by the modules: Rust's `Result` and `Option`. */
module Results {

  /** A fallible computation: `Ok(value)` or `Err(error)`. */
  datatype Result<+T, +E> = Ok(value: T) | Err(error: E)

  /** An optional value. */
  datatype Option<+T> = None | Some(value: T)
}
