/** Optional values and success/failure results used across the rental model. */
module Wrappers {

  /** A value that may be absent: a nullable foreign key, an unset field. */
  datatype Option<+T> = None | Some(value: T) {

    /** The wrapped value, or `default` when absent. */
    function GetOr(default: T): T {
      match this
      case Some(v) => v
      case None => default
    }
  }

  /** An operation that either yields a value or reports why it did not. */
  datatype Result<+T, +E> = Ok(value: T) | Err(error: E)

  /** An operation that yields nothing but may report a failure. */
  datatype Outcome<+E> = Pass | Fail(error: E)
}
