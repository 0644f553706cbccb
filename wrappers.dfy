/** Option stands for a Java reference that may be null; Result for an
    operation that either yields a value or fails with an exception. */
module Wrappers {

  datatype Option<+T> = None | Some(value: T)

  datatype Result<+R, +E> = Success(value: R) | Failure(error: E)
}
