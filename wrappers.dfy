/** Optional values and results, standing for the source's `T | null` and
    for a call that either returns or throws. */
module Wrappers {

  datatype Option<+T> = None | Some(value: T) {

    /** The value, or `default` when there is none (the source's `x ?? default`). */
    function GetOr(default: T): T {
      match this
      case Some(v) => v
      case None => default
    }
  }

  /** `Err` is a thrown error carrying its message. */
  datatype Result<+T, +E> = Ok(value: T) | Err(error: E)
}
