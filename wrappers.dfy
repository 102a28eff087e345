/** Failure-carrying results used by the rest of the model. */
module Wrappers {

  /** A value that may be absent: JavaScript's `undefined` where the source reads a missing property. */
  datatype Option<+T> = None | Some(value: T) {

    /** The value, or `default` when absent. */
    function GetOr(default: T): T {
      match this
      case Some(v) => v
      case None => default
    }
  }

  /** The result of an operation that either completes or throws `error`. */
  datatype Outcome<+E> = Pass | Fail(error: E)
}
