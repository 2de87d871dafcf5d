/** The absent-or-present and success-or-failure values the downloader passes around
    (Python's None, and the `(value, error)` pairs of its methods). */
module Wrappers {

  datatype Option<+T> = None | Some(value: T) {

    /** `d.get(key, default)` once the lookup has been made: the value, or the default. */
    function GetOr(default: T): T {
      match this
      case Some(v) => v
      case None => default
    }
  }

  datatype Result<+R, +E> = Success(value: R) | Failure(error: E)
}
