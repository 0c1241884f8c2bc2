/** Failure-carrying values used across the model: `Option` stands for a
    JavaScript `null`/`undefined`/`NaN` outcome, `Result` for a thrown error. */
module Wrappers {

  datatype Option<+T> = None | Some(value: T) {
    function GetOr(default: T): T {
      match this
      case Some(v) => v
      case None => default
    }
  }

  datatype Result<+T, +E> = Ok(value: T) | Err(error: E)
}
