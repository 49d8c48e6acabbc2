/** Failure-compatible wrappers shared by every module of the model. */
module Wrappers {

  /** An optional value: JSON fields that are absent or null, rows not found. */
  datatype Option<+T> = None | Some(value: T) {

    /** The wrapped value, or `default` when there is none. */
    function GetOr(default: T): T {
      match this
      case Some(v) => v
      case None => default
    }
  }

  /** Either a value or an error, for operations that can reject their input. */
  datatype Result<+R, +E> = Ok(value: R) | Err(error: E)
}
