/** Failure-compatible wrappers used across the model: `Option` stands for a
    Java reference that may be null, `Result` for a call that either returns
    a value or throws. */
module Wrappers {

  /** A possibly-null reference: `None` is Java's `null`. */
  datatype Option<+T> = None | Some(value: T)

  /** The outcome of a Java call: it returned `value` or threw `error`. */
  datatype Result<+T, +E> = Success(value: T) | Failure(error: E)
}
