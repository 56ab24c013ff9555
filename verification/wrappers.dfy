/** Failure-compatible wrappers used to model Python's optional values and
    raised exceptions. */
module Wrappers {

  /** A value that may be absent: Python's `None` versus a present value. */
  datatype Option<+T> = None | Some(value: T) {

    /** The wrapped value, or `default` when absent (`dict.get(key, default)`). */
    function GetOr(default: T): (r: T)
      ensures Some? ==> r == value
      ensures None? ==> r == default
    {
      match this
      case Some(v) => v
      case None => default
    }
  }

  /** Either a computed value or the exception the computation raised. */
  datatype Result<+R, +E> = Success(value: R) | Failure(error: E)
}
