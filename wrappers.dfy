/** Optional values: `None` stands for JavaScript's `null`, `undefined` or `NaN`
    wherever the source produces one of them instead of a value. */
module Wrappers {

  datatype Option<+T> = None | Some(value: T) {

    /** The value, or `default` when there is none (JavaScript's `x || d`
        on a value that is either present or null). */
    function GetOr(default: T): T {
      match this
      case Some(v) => v
      case None => default
    }
  }

  /** The outcome of a request the source awaits: its value, or the
      message of the error it throws. */
  datatype Result<+T> = Success(value: T) | Failure(error: string)
}
