/** Optional values and the JVM exceptions the program raises, as plain data. */
module Outcomes {

  /** A value that may be absent; stands for Kotlin's nullable fields. */
  datatype Option<+T> = None | Some(value: T) {

    /** The value, or `default` when there is none (Kotlin's `?:`). */
    function GetOr(default: T): T {
      match this
      case Some(v) => v
      case None => default
    }
  }

  /** The exception classes the program throws and tells apart, each with its message. */
  datatype Failure =
    | IllegalArgument(message: string)
    | IllegalState(message: string)
    | FileNotFound(message: string)

  /** Either the value a call returns or the exception it throws instead. */
  datatype Result<+T> = Ok(value: T) | Err(failure: Failure)
}
