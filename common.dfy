/** Values shared by every module: optional values, results, and the identities the
    records refer to. */
module Common {

  /** An optional value: a field or request parameter that may be absent. */
  datatype Option<+T> = None | Some(value: T) {
    /** The value, or `default` when absent (a schema default, or `x || y` in JavaScript). */
    function GetOr(default: T): T {
      if Some? then value else default
    }
  }

  /** The outcome of an operation that either succeeds with a value or fails with an error. */
  datatype Result<+R, +E> = Success(value: R) | Failure(error: E)

  /** Users are identified by an opaque document id; a natural number here. */
  type UserId = nat

  /** Instants, in milliseconds since the epoch (the `Date` values the records carry). */
  type Time = int
}
