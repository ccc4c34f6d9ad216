/** Option and Result: the model's stand-ins for Go's nil pointers and
    (value, error) return pairs. */
module Wrappers {

  /** A value that may be absent; Go's `*T` that may be nil. */
  datatype Option<+T> = None | Some(value: T) {

    /** The wrapped value, or `default` when there is none. */
    function GetOr(default: T): T {
      match this
      case Some(v) => v
      case None => default
    }
  }

  /** Either a value or the error that prevented computing it. */
  datatype Result<+R, +E> = Success(value: R) | Failure(error: E)
}
