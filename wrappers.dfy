/** Option and Result: the model's stand-ins for Java's null and for thrown exceptions. */
module Wrappers {

  /** A value that may be absent; `None` plays the part of Java's `null`. */
  datatype Option<+T> = None | Some(value: T) {

    /** The value, or `default` when absent. */
    function GetOr(default: T): T {
      match this
      case Some(v) => v
      case None => default
    }
  }

  /** The outcome of a call that either returns a value or throws an error. */
  datatype Result<+T, +E> = Ok(value: T) | Err(error: E)
}
