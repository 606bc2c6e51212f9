/**
 Shared value types: nullable columns, results of store and provider calls,
 and the SQL comparison of nullable integers.
 */
module Base {

  /** A nullable column (pgtype.Int4, pgtype.Text, ... with their Valid flag). */
  datatype Option<+T> = None | Some(value: T)

  /** The outcome of a call that can fail. */
  datatype Result<+T, +E> = Ok(value: T) | Err(error: E)

  /** A point in time or a calendar date, on one abstract integer scale. */
  type Timestamp = int

  /** One byte of a UTF-8 encoded string (Go's `len` counts these). */
  newtype byte = x: int | 0 <= x < 256

  /** SQL `a = b` on nullable integers: a comparison with NULL is never true. */
  predicate SqlEq(a: Option<int>, b: Option<int>)
  {
    a.Some? && b.Some? && a.value == b.value
  }
}
