/** Option and Result, standing in for Rust's `Option<T>` and `Result<T, String>`. */
module Wrappers {

  datatype Option<+T> = None | Some(value: T) {
    /** The value held, or `default` when there is none (Rust's `unwrap_or_else`). */
    function GetOr(default: T): T {
      match this
      case Some(v) => v
      case None => default
    }
  }

  /** A result whose error is a message, as in `Result<T, String>`. */
  datatype Result<+T> = Ok(value: T) | Err(error: string)
}
