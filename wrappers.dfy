/** Option and Result, the two failure-carrying shapes used by every handler model. */
module Wrappers {

  /** An optional value: `None` stands for JavaScript's `undefined`/`null`. */
  datatype Option<+T> = None | Some(value: T) {
    function GetOr(default: T): T {
      match this
      case Some(v) => v
      case None => default
    }
  }

  /** The outcome of a handler: a value or the error it threw. */
  datatype Result<+R, +E> = Ok(value: R) | Err(error: E)
}
