/** Failure-carrying datatypes used throughout the model: `Option` for Python's
    `None`-or-value slots and `Result` for calls that may raise. */
module Wrappers {

  datatype Option<+T> = None | Some(value: T) {

    /** The wrapped value, or `default` when there is none. */
    function GetOr(default: T): T {
      match this
      case Some(v) => v
      case None => default
    }
  }

  /** `Ok` is a normal return; `Err` carries the text `str(e)` of the exception raised. */
  datatype Result<+R, +E> = Ok(value: R) | Err(error: E)
}
