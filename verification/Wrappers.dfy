/** Failure-carrying values shared by the modules of this project. */
module Wrappers {

  /** A Go pointer that may be nil, or a map lookup that may miss. */
  datatype Option<+T> = None | Some(value: T) {
    function GetOr(default: T): T {
      match this
      case Some(v) => v
      case None => default
    }
  }

  /** A Go `(value, error)` pair: exactly one of the two is meaningful. */
  datatype Result<+T> = Ok(value: T) | Err
}
