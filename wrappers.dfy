/** Option and Outcome: the `T | null` returns and the thrown errors of the source. */
module Wrappers {

  /** A value that may be absent (`T | null` / `undefined` in the source). */
  datatype Option<+T> = None | Some(value: T)

  /** The result of an operation that either succeeds or is rejected with a reason. */
  datatype Outcome<+E> = Pass | Fail(error: E)
}
