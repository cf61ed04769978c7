/** Optional values and outcomes that may have failed. */
module Wrappers {

  /** Either nothing, or one value. The directive lookups answer with it. */
  datatype Option<+T> = None | Some(value: T) {

    /** The carried value, or the fallback when nothing is carried. */
    function GetOr(fallback: T): T {
      if Some? then value else fallback
    }
  }

  /** The outcome of a step that either produced a value or raised an
      error. */
  datatype Result<+R, +E> = Success(value: R) | Failure(error: E)
}
