/** Option and Result: the null / error outcomes of the modelled code. */
module Wrappers {

  /** `T | null` in the source: `None` is null (or an absent value). */
  datatype Option<+T> = None | Some(value: T) {
    function GetOr(default: T): T
    {
      match this
      case Some(v) => v
      case None => default
    }
  }

  /** A value or the error that rejected it. */
  datatype Result<+R, +E> = Success(value: R) | Failure(error: E)
}
