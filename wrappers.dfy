/** Failure-compatible wrappers used in place of Python's `None` and exceptions. */
module Wrappers {

  /** Python's `Optional[T]`: `None` or a value. */
  datatype Option<+T> = None | Some(value: T) {
    function GetOr(default: T): T {
      match this
      case Some(v) => v
      case None => default
    }
  }

  /** A call that either returns a value or raises. */
  datatype Result<+R, +E> = Success(value: R) | Failure(error: E)

  /** A call whose only interesting outcome is whether it raised. */
  datatype Outcome<+E> = Pass | Fail(error: E)
}
