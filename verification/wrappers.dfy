/** Option and Result, the two shapes every modelled operation uses for
    "may be absent" and "may fail". */
module Wrappers {

  /** A value that may be missing: JavaScript's null/undefined, Python's None. */
  datatype Option<T> = None | Some(value: T) {
    function GetOr(default: T): T {
      match this
      case Some(v) => v
      case None => default
    }
  }

  /** The outcome of a call that can throw: its value, or the error it raised. */
  datatype Result<T, E> = Success(value: T) | Failure(error: E)
}
