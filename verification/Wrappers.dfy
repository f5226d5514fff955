/** The two result shapes the models share: an absent value and a raised error. */
module Wrappers {
  datatype Option<+T> = None | Some(value: T) {
    function GetOr(default: T): T {
      match this
      case Some(v) => v
      case None => default
    }
  }

  /** Err(e) stands for a Python exception e leaving the call. */
  datatype Result<+T, +E> = Ok(value: T) | Err(error: E)
}
