/** Optional values and results with an error, standing in for JavaScript's
    `null`/`undefined` and for thrown exceptions. */
module Options {

  /** `None` is JavaScript's `null` or `undefined`. */
  datatype Option<+T> = None | Some(value: T) {

    function GetOr(default: T): T {
      match this
      case Some(v) => v
      case None => default
    }
  }

  /** `Failure` is an exception the source code would throw. */
  datatype Result<+T, +E> = Success(value: T) | Failure(error: E)
}
