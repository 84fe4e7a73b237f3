/** Option and Result, shared by every model in this project. */
module Wrappers {
  datatype Option<+T> = None | Some(value: T) {
    function GetOr(default: T): T {
      if Some? then value else default
    }
  }

  /** A Python call that either returns or raises. */
  datatype Result<+T, +E> = Success(value: T) | Failure(error: E)
}
