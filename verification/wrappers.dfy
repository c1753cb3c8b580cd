/** Optional values, standing in for the null C++ `shared_ptr`s that `parseMessage` returns, and results of calls that throw. */
module Wrappers {

  datatype Option<+T> = None | Some(value: T) {

    /** The value, or `default` when there is none. */
    function GetOr(default: T): T {
      match this
      case Some(v) => v
      case None => default
    }
  }

  /** A value, or the text of the exception thrown instead. */
  datatype Result<+T> = Success(value: T) | Failure(error: string)
}
