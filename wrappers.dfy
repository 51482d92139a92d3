/** The Option and Result types the model uses for absent fields and for
    validation outcomes. */
module Wrappers {

  datatype Option<+T> = None | Some(value: T) {
    function GetOr(default: T): T {
      match this
      case Some(v) => v
      case None => default
    }
  }

  /** `Ok(value)` or `Err(error)`. A thrown exception of the library is
      modelled as an `Err`. */
  datatype Result<+T, +E> = Ok(value: T) | Err(error: E)
}
