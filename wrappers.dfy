/** Optional values and results with an error message, standing in for JavaScript's
  * `null` returns and thrown `Error`s. */
module Wrappers {

  datatype Option<T> = None | Some(value: T) {
    predicate IsSome() { Some? }

    function GetOr(default: T): T
    {
      match this
      case Some(v) => v
      case None => default
    }
  }

  /** A computation that either produces a value or throws an `Error` with a message. */
  datatype Result<T> = Ok(value: T) | Err(message: string) {
    predicate IsFailure() { Err? }
  }
}
