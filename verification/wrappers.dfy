/** Optional values: the model's rendering of a TypeScript `T | undefined`
    (or `T | null`) field or return value. */
module Wrappers {

  datatype Option<+T> = None | Some(value: T) {

    /** The `x ?? d` / `x || d` idiom for a value that is either present or absent. */
    function GetOr(default: T): (r: T)
      ensures Some? ==> r == value
      ensures None? ==> r == default
    {
      match this
      case Some(v) => v
      case None => default
    }
  }
}
