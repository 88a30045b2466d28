/** Failure-carrying result types used across the model. */
module Wrappers {

  datatype Option<+T> = None | Some(value: T)

  /** The outcome of an operation that ends either with a value or with a thrown exception. */
  datatype Result<+R, +E> = Success(value: R) | Failure(error: E)
}
