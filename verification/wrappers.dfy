/** `Option` stands for a key absent from storage, a field missing from a message
    or a search that finds nothing; `Result` for an operation that either returns
    a value or throws. */
module Wrappers {

  datatype Option<+T> = None | Some(value: T) {

    /** The stored value, or `default` when the key is absent (JavaScript's `x ?? d`;
        callers that model `x || d` add their own falsiness test). */
    function GetOr(default: T): T {
      match this
      case Some(v) => v
      case None => default
    }
  }

  /** A value, or the error that was thrown instead of producing it. */
  datatype Result<+T, +E> = Success(value: T) | Failure(error: E)
}
