/** Optional values and results shared by every module of the model. */
module Wrappers {

  /** A value that may be absent: a missing dictionary key, or Python's None. */
  datatype Option<+T> = None | Some(value: T) {

    /** The value, or `default` when absent (Python's `dict.get(key, default)`). */
    function GetOr(default: T): T {
      match this
      case Some(v) => v
      case None => default
    }
  }

  /** An exception the Python code raises, where the model needs to tell it apart. */
  datatype Fault = KeyError(key: string)

  /** Either a value or the exception that interrupted the computation. */
  datatype Result<+R> = Success(value: R) | Failure(error: Fault)
}
