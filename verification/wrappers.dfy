/** Failure-compatible wrappers used throughout the model: `Option` for values
    the Java code represents with a possibly-null reference, and `Result` for
    operations that either produce a value or throw. */
module Wrappers {

  /** A value that may be absent; `None` stands for Java's `null`. */
  datatype Option<+T> = None | Some(value: T)

  /** Either the value an operation produced or the error it raised. */
  datatype Result<+R, +E> = Success(value: R) | Failure(error: E)
}
