/** The two standard-library sum types the generated enums convert to and
    from: Rust's `Option<T>` and `Result<T, E>`. Only their shapes matter to
    the model; the generated types never call a method on them. */
module Canonical {

  /** Rust's `Option<T>`. */
  datatype Option<T> = None | Some(value: T)

  /** Rust's `Result<T, E>`. */
  datatype Result<T, E> = Ok(value: T) | Err(error: E)
}
