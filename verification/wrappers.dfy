/** Failure-compatible wrappers shared by every module of the model. */
module Wrappers {

  /** An optional value: a Go nil pointer or a TypeScript `T | null`. */
  datatype Option<+T> = None | Some(value: T) {

    /** The wrapped value, or `default` when there is none. */
    function GetOr(default: T): T {
      match this
      case Some(v) => v
      case None => default
    }
  }
}
