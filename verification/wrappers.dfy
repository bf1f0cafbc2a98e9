/** Failure-compatible wrappers shared by the ledger and the client helpers. */
module Wrappers {

  /** A value that may be absent: JSON `null`, a missing body field, a
      failed lookup. */
  datatype Option<+T> = None | Some(value: T) {

    /** The wrapped value, or `default` when absent. */
    function GetOr(default: T): T {
      match this
      case Some(v) => v
      case None => default
    }
  }

  /** The outcome of a route handler: a value, or the error it responds with. */
  datatype Result<+T, +E> = Ok(value: T) | Err(error: E)
}
