/** Option and Result: the two wrappers of the model. */
module Wrappers {

  /** Rust's `Option`. */
  datatype Option<+T> = None | Some(value: T) {
    /** `unwrap_or(default)` */
    function GetOr(default: T): T {
      if Some? then value else default
    }
  }

  /** Rust's `Result`. */
  datatype Result<+T, +E> = Success(value: T) | Failure(error: E)
}
