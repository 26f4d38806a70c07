/** Failure-carrying result types shared by the engine and the room registry. */
module Results {

  /** A value that may be absent (the source's `null` / `undefined`). */
  datatype Option<+T> = None | Some(value: T) {
    function GetOr(default: T): T {
      match this
      case Some(v) => v
      case None => default
    }
  }

  /** The outcome of an operation that either returns a value or throws a domain error. */
  datatype Result<+T, +E> = Success(value: T) | Failure(error: E)
}
