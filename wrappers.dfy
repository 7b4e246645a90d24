/** Optional values and failing results, shared by every module of the model. */
module Wrappers {

  /** A value that may be absent: TypeScript's `T | undefined` and `T | null`. */
  datatype Option<+T> = None | Some(value: T) {
    function GetOr(default: T): T {
      match this
      case Some(v) => v
      case None => default
    }
  }

  /** The outcome of a backend handler: its return value, or the message of the error it throws. */
  datatype Result<+T> = Success(value: T) | Failure(error: string)
}
