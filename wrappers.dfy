/** Failure-carrying results used across the model: `Option` for Python's
    `Optional[...]` values and `Result` for calls that either return a value
    or raise. */
module Wrappers {

  datatype Option<+T> = None | Some(value: T) {
    function GetOr(default: T): T {
      match this
      case Some(v) => v
      case None => default
    }
  }

  datatype Result<+T, +E> = Ok(value: T) | Err(error: E)
}
