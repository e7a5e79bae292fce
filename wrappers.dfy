/** Optional values and results: JavaScript's `undefined`/`null`/`NaN`, and operations that can fail. */
module Wrappers {

  datatype Option<+T> = None | Some(value: T) {

    /** The value, or `default` when there is none (JavaScript's `??`). */
    function GetOr(default: T): T {
      match this
      case Some(v) => v
      case None => default
    }
  }

  /** The outcome of an operation that either yields a value or reports an error. */
  datatype Result<+T, +E> = Success(value: T) | Failure(error: E)
}
