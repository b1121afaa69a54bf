/** Optional values: the model of TypeScript's `undefined`, `null` and optional fields. */
module Wrappers {

  datatype Option<+T> = None | Some(value: T) {

    /** Returns the value inside Some, or the given default for None. */
    function GetOr(default: T): T
    {
      match this
      case Some(v) => v
      case None => default
    }
  }
}
