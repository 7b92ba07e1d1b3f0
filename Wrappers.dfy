/** Optional values and results, standing for `undefined`-able fields and thrown errors. */
module Wrappers {

  datatype Option<+T> = None | Some(value: T) {
    /** The wrapped value, or `default` when there is none: a key the spread copies wins over the
        old value, and an absent optional field falls back to the form's default. */
    function GetOr(default: T): T {
      match this
      case Some(v) => v
      case None => default
    }
  }

  datatype Result<+T, +E> = Success(value: T) | Failure(error: E)
}
