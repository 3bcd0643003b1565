/** Optional values and Python-style attribute lookups shared by every module. */
module Wrappers {

  /** A value that may be absent: Python's `None`, a failed parse, a network error. */
  datatype Option<+T> = None | Some(value: T) {

    /** The value held, or `default` when there is none. */
    function GetOr(default: T): T {
      match this
      case Some(v) => v
      case None => default
    }
  }

  /** What a Python lookup such as `getattr(obj, name, default)` or `data.get(key)`
      can find: the attribute or key is missing altogether, it is present but
      holds `None`, or it holds a value. */
  datatype Field<+T> = Absent | Null | Given(value: T)

  /** How a Python call ends: it returns a value, or an exception escapes it. */
  datatype Outcome<+T> = Returned(value: T) | Raised
}
