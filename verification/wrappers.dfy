/** Option and Result: the absent-or-present and success-or-failure values
    the rest of the model uses instead of JavaScript's null, undefined and
    thrown errors. */
module Wrappers {

  datatype Option<+T> = None | Some(value: T) {

    /** The Some value, or the given default when None. */
    function GetOr(default: T): T {
      match this
      case Some(v) => v
      case None => default
    }
  }

  datatype Result<+R, +E> = Success(value: R) | Failure(error: E)
}
