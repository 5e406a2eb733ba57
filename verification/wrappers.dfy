/** `Option` and `Result`, shared by the rest of the model. */
module Wrappers {

  /** A value that may be absent: Python's `None` versus a present value. */
  datatype Option<+T> = None | Some(value: T) {

    /** The wrapped value, or `default` when absent (Python's `dict.get(key, default)`). */
    function GetOr(default: T): T {
      match this
      case Some(v) => v
      case None => default
    }
  }

  /** Either a value, or the exception the source would raise instead. */
  datatype Result<+R, +E> = Success(value: R) | Failure(error: E)
}
