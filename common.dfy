/** Optional values and results with an error, as the rest of the model uses them. */
module Common {

  /** A value that may be missing, as a Python attribute or dictionary entry may be. */
  datatype Option<+T> = None | Some(value: T) {

    /** The value, or `default` when it is missing (Python's `d.get(k, default)`). */
    function GetOr(default: T): T {
      match this
      case Some(v) => v
      case None => default
    }
  }

  /** The outcome of an operation that can raise: `Ok` with its value, or `Err`. */
  datatype Result<+T, +E> = Ok(value: T) | Err(error: E)
}
