/** Nullable values and thrown-or-returned outcomes of the Kotlin source, as values. */
module Wrappers {

  /** A Kotlin nullable: `None` stands for `null`. */
  datatype Option<+T> = None | Some(value: T) {
    function GetOr(default: T): T {
      match this
      case Some(v) => v
      case None => default
    }
  }

  /** A call that either returns a value or fails with an error. */
  datatype Result<+T, +E> = Success(value: T) | Failure(error: E)

  /** A call that returns nothing, or fails with an error. */
  datatype Outcome<+E> = Pass | Fail(error: E)
}
