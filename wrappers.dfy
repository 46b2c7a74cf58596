/** Option and Result datatypes shared by the modules of the model. */
module Wrappers {

  /** A value that may be absent: a JSON field that is missing or not a string. */
  datatype Option<+T> = None | Some(value: T) {

    /** The wrapped value, or `default` when there is none (Rust's `unwrap_or`). */
    function GetOr(default: T): T {
      match this
      case Some(v) => v
      case None => default
    }
  }

  /** The outcome of a fallible operation (Rust's `Result`). */
  datatype Result<+R, +E> = Ok(value: R) | Err(error: E)
}
