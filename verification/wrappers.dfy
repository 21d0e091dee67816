/** The Option and Result shapes that the modelled Rust code returns. */
module Wrappers {

  /** Rust's `Option<T>`. */
  datatype Option<+T> = None | Some(value: T)

  /** Rust's `Result<T, E>`: `Success` is `Ok`, `Failure` is `Err`. */
  datatype Result<+T, +E> = Success(value: T) | Failure(error: E)
}
