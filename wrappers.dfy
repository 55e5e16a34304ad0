/** Option and Result, used for the source's null references and exceptions. */
module Wrappers {

  datatype Option<+T> = None | Some(value: T) {
    /** The value, or `default` when absent. */
    function GetOr(default: T): T {
      match this
      case Some(v) => v
      case None => default
    }
  }

  /** An operation that either returns a value or throws an exception carrying `message`. */
  datatype Result<+T> = Ok(value: T) | Err(message: string)
}
