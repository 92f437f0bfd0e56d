/** The nullable values of the modelled Kotlin and Java code: `T?` becomes `Option<T>`. */
module Wrappers {

  datatype Option<+T> = None | Some(value: T) {

    /** Kotlin's `x ?: default`. */
    function GetOr(default: T): T {
      match this
      case Some(v) => v
      case None => default
    }

    /** The value as a list: one element when present, none when absent. */
    function ToSeq(): (r: seq<T>)
      ensures Some? ==> r == [value]
      ensures None? ==> r == []
    {
      match this
      case Some(v) => [v]
      case None => []
    }
  }

  /** The outcome of an operation that throws: its value, or the message of the exception. */
  datatype Result<+T> = Success(value: T) | Failure(error: string)
}
