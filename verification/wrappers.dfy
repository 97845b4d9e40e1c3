/** Optional values and results with an error message, shared by every module. */
module Wrappers {

  datatype Option<+T> = None | Some(value: T) {
    function GetOr(default: T): T {
      match this
      case Some(v) => v
      case None => default
    }
  }

  /** The outcome of an operation that can fail; the error carries the
      message the command line would print before exiting. */
  datatype Result<+T> = Ok(value: T) | Err(msg: string)
}
