/** Option and Result types shared by the ledger modules. */
module Wrappers {

  /** A value that may be absent; stands for JavaScript's `null`/`undefined`. */
  datatype Option<+T> = None | Some(value: T) {

    /** Returns the value held, or `default` when there is none. */
    function GetOr(default: T): T {
      match this
      case Some(v) => v
      case None => default
    }
  }

  /** The outcome of an operation that may throw: a value or the error it threw. */
  datatype Result<+R, +E> = Success(value: R) | Failure(error: E)
}
