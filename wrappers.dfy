/** Option and Result, the two failure-carrying wrappers the rest of the model uses
    for C#'s nullable values and Python's raised exceptions. */
module Wrappers {

  /** A value that may be absent: C#'s `T?`, Python's `None`. */
  datatype Option<+T> = None | Some(value: T) {

    /** The value, or `default` when absent. */
    function GetOr(default: T): T {
      match this
      case Some(v) => v
      case None => default
    }
  }

  /** The outcome of a computation that may raise instead of returning. */
  datatype Result<+T, +E> = Ok(value: T) | Err(error: E)
}
