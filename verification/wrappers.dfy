/** Option and Result values shared by every module of the model. */
module Wrappers {

  /** A value that may be absent (`undefined`/`null` in JavaScript, `None` in Python). */
  datatype Option<+T> = None | Some(value: T) {
    function GetOr(default: T): T {
      match this
      case Some(v) => v
      case None => default
    }
  }

  /** The outcome of an operation that may throw; the error carries the exception message. */
  datatype Result<+T> = Ok(value: T) | Err(error: string)
}
