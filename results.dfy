/** Optional values and the outcome of an operation that can throw. */
module Results {

  /** A JSON field that may be absent (`undefined`). */
  datatype Option<+T> = None | Some(value: T) {
    /** The value, or `default` when absent. */
    function GetOr(default: T): T {
      match this
      case Some(v) => v
      case None => default
    }
  }

  /** The two kinds of failure the poller meets: a rejected HTTP request and a
      JavaScript `TypeError` raised by reading a property of `undefined`. */
  datatype Error = NetworkError(reason: string) | TypeError(reason: string)

  /** A value, or the error that was thrown instead of producing it. */
  datatype Result<+T> = Ok(value: T) | Err(error: Error)
}
