/** Small failure-carrying datatypes shared by the other modules. */
module Wrappers {

  /** A value that may be absent: JavaScript's `null` / `undefined` become `None`. */
  datatype Option<+T> = None | Some(value: T)

  /** The outcome of an operation that returns nothing on success and may throw. */
  datatype Outcome<+E> = Pass | Fail(error: E)
}
