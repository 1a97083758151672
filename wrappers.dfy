/** Option and Result, the two failure-carrying shapes the rest of the model uses. */
module Wrappers {

  /** A nullable value: `None` stands for JavaScript's `null`. */
  datatype Option<+T> = None | Some(value: T) {
    function GetOr(default: T): T {
      match this
      case Some(v) => v
      case None => default
    }
  }

  /** The outcome of a validation that either yields a value or reports an issue. */
  datatype Result<+R, +E> = Ok(value: R) | Err(error: E)
}
