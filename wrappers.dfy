/** A value that may be absent (an optional field of a request body or a
    table row, or a lookup that may find nothing) and the outcome of a request. */
module Wrappers {

  datatype Option<+T> = None | Some(value: T) {

    /** The value, or `default` when absent (JavaScript's `x ?? default`). */
    function GetOr(default: T): T {
      match this
      case Some(v) => v
      case None => default
    }
  }

  /** The outcome of a request: a value, or the message of the error thrown. */
  datatype Result<+T> = Success(value: T) | Failure(error: string)
}
