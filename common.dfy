/** Value types shared by every component: nullable references, results of
    operations that may throw, identifiers and timestamps. */
module Common {

  /** A Java reference that may be null. */
  datatype Option<+T> = None | Some(value: T)

  /** The outcome of a service call: a value, or the exception it throws. */
  datatype Result<+R, +E> = Success(value: R) | Failure(error: E)

  /** A `java.util.UUID`; only equality and freshness matter. */
  type Uuid = nat

  /** A `java.time.LocalDateTime`, as a point on a discrete time line:
      `a.isAfter(b)` is `a > b` and `a.isEqual(b)` is `a == b`. */
  type Time = int
}
