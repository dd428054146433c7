/** Option and Result values shared by the ticket and report models. */
module Wrappers {

  datatype Option<+T> = None | Some(value: T) {
    /** The wrapped value, or `default` when there is none (JavaScript's `x || default`). */
    function GetOr(default: T): T {
      match this
      case Some(v) => v
      case None => default
    }
  }

  /** Either a value or the error the code would throw instead. */
  datatype Result<+T, +E> = Success(value: T) | Failure(error: E)
}
