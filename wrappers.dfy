/** Optional values and results, the shapes JavaScript expresses with
    `undefined`/`null` and with thrown exceptions. */
module Wrappers {

  /** `None` stands for JavaScript's `undefined` (or `null`). */
  datatype Option<+T> = None | Some(value: T) {
    function GetOr(default: T): T {
      match this
      case Some(v) => v
      case None => default
    }
  }

  /** The outcome of JavaScript code that may throw. */
  datatype Result<+T, +E> = Success(value: T) | Failure(error: E)
}
