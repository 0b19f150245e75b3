/** Optional values and results, used wherever the modelled code returns
    `None` or raises instead of producing a value. */
module Wrappers {

  /** Python's `None` versus a present value. */
  datatype Option<+T> = None | Some(value: T) {

    /** The value, or `default` when absent (Python's `x if x is not None else default`). */
    function GetOr(default: T): T {
      match this
      case Some(v) => v
      case None => default
    }
  }

  /** A value, or the exception a Python expression raised while computing it. */
  datatype Result<+T, +E> = Success(value: T) | Failure(error: E)
}
