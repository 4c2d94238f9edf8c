/** Failure-carrying values used throughout the model: `Option` for values
    that may be absent (Rust's `Option`) and `Result` for operations that may
    fail (Rust's `Result`), and the `min` of two integers. */
module Wrappers {

  datatype Option<+T> = None | Some(value: T) {

    /** Returns the value carried by `Some`, or `default` for `None`. */
    function GetOr(default: T): T {
      match this
      case Some(v) => v
      case None => default
    }
  }

  datatype Result<+R, +E> = Success(value: R) | Failure(error: E)

  /** `a.min(b)`. */
  function Min(a: int, b: int): int {
    if a <= b then a else b
  }
}
