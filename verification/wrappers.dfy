/** Optional values, standing in for the `null` / `undefined` of the application's data. */
module Wrappers {

  datatype Option<+T> = None | Some(value: T) {

    /** The value, or `default` when absent (the `??` operator). */
    function GetOr(default: T): T
    {
      match this
      case Some(v) => v
      case None => default
    }

    /** This value when present, otherwise `other` (a chain of `??`). */
    function Or(other: Option<T>): Option<T>
    {
      if Some? then this else other
    }
  }
}
