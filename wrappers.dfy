/** Optional values and results, used for SQL NULL, absent request fields and
    statements that fail. */
module Wrappers {

  /** `None` stands for SQL NULL, a JavaScript `null`/`undefined`, or "no row". */
  datatype Option<+T> = None | Some(value: T) {

    /** The value, or `default` when there is none. */
    function GetOr(default: T): T {
      match this
      case Some(v) => v
      case None => default
    }
  }

  /** SQL `COALESCE(a, b)` on a nullable column: `a` unless it is NULL. */
  function Coalesce<T>(a: Option<T>, b: Option<T>): Option<T> {
    if a.Some? then a else b
  }

  /** A call that either returns a value or throws an error. */
  datatype Result<+T, +E> = Ok(value: T) | Err(error: E)
}
