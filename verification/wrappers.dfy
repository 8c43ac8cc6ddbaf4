/** Option and Result: the null reference and the thrown exception of the service, as values. */
module Wrappers {

  /** A value that may be absent: C#'s `null` for a reference or a nullable string. */
  datatype Option<+T> = None | Some(value: T) {

    /** The value, or `default` when absent: C#'s `??` operator. */
    function GetOr(default: T): (r: T)
      ensures Some? ==> r == value
      ensures None? ==> r == default
    {
      match this
      case Some(v) => v
      case None => default
    }
  }

  /** The outcome of a call that either returns a value or throws an error. */
  datatype Result<+R, +E> = Success(value: R) | Failure(error: E)
}
