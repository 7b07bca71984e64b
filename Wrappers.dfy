/** Optional values, standing for Python's `None` / "a value". */
module Wrappers {
  datatype Option<+T> = None | Some(value: T)
  {
    /** Python's `x or default` for a value that is `None` or present. */
    function GetOr(default: T): T
    {
      match this
      case Some(v) => v
      case None => default
    }
  }
}
