/** Explicit outcome types standing in for the exceptions the scraper raises. */
module Outcomes {

  /** A value that may be absent (a lookup that found nothing, a parse that failed). */
  datatype Option<+T> = None | Some(value: T)

  /** The value a step returns, or the exception it raises. */
  datatype Result<+T, +E> = Ok(value: T) | Err(error: E)

  /** A check that returns nothing on success and raises on failure. */
  datatype Outcome<+E> = Pass | Fail(error: E)
}
