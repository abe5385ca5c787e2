/**
  Failure-carrying values shared by every module: `Option` for a JavaScript value that
  may be `undefined`/`null`, `Result` for a computation that either yields a value or
  throws, and `Outcome` for a `Promise<void>` that either resolves or rejects.
 */
module Wrappers {

  datatype Option<T> = None | Some(value: T) {
    /** `x ?? d` */
    function GetOr(d: T): T {
      if Some? then value else d
    }
  }

  datatype Result<T, E> = Success(value: T) | Failure(error: E)

  datatype Outcome<E> = Pass | Fail(error: E)
}
