/**
 * The two kinds of exception the modelled code can raise, and the
 * result types that carry them instead of raising.
 */
module Exceptions {

  /** IndexError: an index past the end of a byte list.
      InvalidKey: a key other than 0 or 1 given to a 2D vector. */
  datatype Exception = IndexError | InvalidKey

  /** A value, or the exception raised instead of producing it. */
  datatype Result<T> = Ok(value: T) | Err(error: Exception)

  /** The outcome of an operation that returns nothing but may raise. */
  datatype Outcome = Pass | Fail(error: Exception)
}
