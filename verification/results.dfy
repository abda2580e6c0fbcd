/** Optional values and results with an error channel, the two shapes every
    operation of the authentication core returns. */
module Results {

  /** Python's `None` or a value. */
  datatype Option<T> = None | Some(value: T) {

    /** The value, or `default` when there is none. */
    function GetOr(default: T): T {
      match this
      case Some(v) => v
      case None => default
    }
  }

  /** A value, or the exception an operation raises instead. */
  datatype Result<T, E> = Ok(value: T) | Err(error: E)
}
