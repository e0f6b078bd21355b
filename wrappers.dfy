/** Failure-carrying wrappers shared by every module of the model. */
module Wrappers {

  /** A value that may be missing: JavaScript `undefined`, Python `None`. */
  datatype Option<+T> = None | Some(value: T) {
    function GetOr(default: T): T {
      match this
      case Some(v) => v
      case None => default
    }
  }

  /** The result of evaluating an expression that may throw (a JavaScript `TypeError`). */
  datatype Outcome<+T> = Returns(value: T) | Throws
}
