/** Failure-compatible wrappers shared by the other modules. */
module Wrappers {

  /** A value that may be absent; `None` stands for a parse rule that did not match. */
  datatype Option<+T> = None | Some(value: T) {
    function GetOr(default: T): T {
      match this
      case Some(v) => v
      case None => default
    }
  }

  /** The outcome of an operation that may be refused, such as adding a bond twice. */
  datatype Result<+T, +E> = Ok(value: T) | Err(error: E)
}
