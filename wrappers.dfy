/** Optional values and error-or-value results, as the rest of the model uses them. */
module Wrappers {

  /** A value that may be absent (`undefined`/`null` in the source). */
  datatype Option<+T> = None | Some(value: T)
  {
    /** The value, or `default` when absent. */
    function GetOr(default: T): T
    {
      match this
      case Some(v) => v
      case None => default
    }
  }

  /** The outcome of a call that either returns or throws. */
  datatype Result<+R, +E> = Success(value: R) | Failure(error: E)
}
