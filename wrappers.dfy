/** Optional values: the model's stand-in for C# `null`, `int?` and JS `undefined`. */
module Wrappers {

  datatype Option<T> = None | Some(value: T)
  {
    /** The `??` operator: the carried value, or the fallback when absent. */
    function GetOr(fallback: T): T
    {
      match this
      case None => fallback
      case Some(v) => v
    }
  }
}
