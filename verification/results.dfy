/** Failure-carrying values used across the model: an optional value and an
    outcome that is either a value or an error description. */
module Results {

  /** A value that may be missing (Python's `None`). */
  datatype Option<+T> = None | Some(value: T) {

    /** The carried value, or `default` when there is none. */
    function GetOr(default: T): T {
      match this
      case Some(v) => v
      case None => default
    }
  }

  /** The outcome of a call that can fail: a value, or the failure's cause. */
  datatype Result<+T, +E> = Ok(value: T) | Err(error: E)
}
