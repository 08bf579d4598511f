/** Option and Result types shared by the modules of the model. */
module Wrappers {

  datatype Option<+T> = None | Some(value: T) {
    function GetOr(default: T): T {
      match this
      case Some(v) => v
      case None => default
    }
  }

  /** The outcome of an operation that the source may abort by raising an exception. */
  datatype Result<+T, +E> = Ok(value: T) | Err(error: E)
}
