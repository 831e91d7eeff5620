/** Failure-carrying wrappers used in place of Python's `None` defaults and raised exceptions. */
module Results {

  /** A value that may be absent, as a Python argument that defaults to `None`. */
  datatype Option<+T> = None | Some(value: T) {

    /** The wrapped value, or `default` when absent. */
    function GetOr(default: T): (r: T)
      ensures Some? ==> r == value
      ensures None? ==> r == default
    {
      match this
      case Some(v) => v
      case None => default
    }
  }

  /** Either a computed value or the error an operation raised. */
  datatype Result<+T, +E> = Ok(value: T) | Err(error: E)
}
