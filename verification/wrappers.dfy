/** Optional values and error returns, standing in for Go's nil pointers and
    `(value, error)` result pairs. */
module Wrappers {

  datatype Option<+T> = None | Some(value: T) {

    /** Returns the value held in Some, or `default` if None. */
    function GetOr(default: T): T {
      match this
      case Some(v) => v
      case None => default
    }
  }

  /** A Go call that either returns a value or fails with an error. */
  datatype Result<+R, +E> = Success(value: R) | Failure(error: E)

  /** A Go call that either returns or panics (a panic that nothing recovers). */
  datatype MayPanic<+T> = Returns(value: T) | Panics
}
