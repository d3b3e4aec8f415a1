/** Small failure-carrying datatypes shared by the installer model. */
module Wrappers {

  /** A value that may be absent, such as an unset environment variable or a missing file. */
  datatype Option<+T> = None | Some(value: T) {

    /** The carried value, or `default` when there is none. */
    function GetOr(default: T): T {
      match this
      case Some(v) => v
      case None => default
    }
  }

  /** Either a computed value or the error the source would raise. */
  datatype Result<+R, +E> = Ok(value: R) | Err(error: E)
}
