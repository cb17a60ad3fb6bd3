/** Failure-carrying datatypes shared by the other modules. */
module Wrappers {

  /** A value that may be absent: Java's `null` or an SQL NULL. */
  datatype Option<+T> = None | Some(value: T) {
    /** The value, or `default` when absent (SharedPreferences' default argument). */
    function GetOr(default: T): T {
      match this
      case Some(v) => v
      case None => default
    }
  }

  /** The outcome of a Java method that may throw an unchecked exception. */
  datatype Result<+T> = Ok(value: T) | Thrown
}
