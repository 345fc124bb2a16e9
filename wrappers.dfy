/** Optional values: a dictionary key that may be absent, a file that may not parse. */
module Wrappers {

  datatype Option<+T> = None | Some(value: T) {

    /** The value, or `default` when the key is absent: Python's `d.get(key, default)` on a missing key. */
    function GetOr(default: T): T {
      match this
      case Some(v) => v
      case None => default
    }
  }
}
