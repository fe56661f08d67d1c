/** Failure-compatible wrappers used across the model: Kotlin's nullable
    values become Option, operations that can throw become Result. */
module Wrappers {

  /** A Kotlin `T?`: either absent (null) or a value. */
  datatype Option<+T> = None | Some(value: T) {

    /** The Kotlin elvis operator `this ?: default`. */
    function GetOr(default: T): T {
      match this
      case Some(v) => v
      case None => default
    }
  }

  /** The outcome of an operation that either returns a value or throws. */
  datatype Result<+R, +E> = Success(value: R) | Failure(error: E)
}
