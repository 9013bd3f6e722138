/** Failure-carrying result types shared by every module of the model. */
module Wrappers {

  /** An optional value, as Rust's Option. */
  datatype Option<+T> = None | Some(value: T) {
    function GetOr(default: T): T {
      match this
      case Some(v) => v
      case None => default
    }
  }

  /** The result of a fallible call. The repository's error values carry no information the
      model needs (most are `()` after logging), so a failure is a bare `Err`. */
  datatype Result<+T> = Ok(value: T) | Err

  /** The result of a call that may panic instead of returning (an `expect` or `unwrap` that fails). */
  datatype Run<+T> = Returns(value: T) | Panics
}
