/** Optional values and error-carrying results shared by every component. */
module Wrappers {

  /** A value that may be absent (`null`, `undefined`, `None` or an omitted field). */
  datatype Option<+T> = None | Some(value: T) {
    function GetOr(default: T): T {
      match this
      case Some(v) => v
      case None => default
    }
  }

  /** The outcome of an operation that either produces a value or fails with an error. */
  datatype Result<+R, +E> = Success(value: R) | Failure(error: E)
}
