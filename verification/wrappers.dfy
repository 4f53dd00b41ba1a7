/** Failure-carrying result types shared by the modules of this model. */
module Wrappers {

  /** A value that may be absent; stands for a nullable Java reference. */
  datatype Option<+T> = None | Some(value: T)

  /** The outcome of an operation that the Java code may abort with an exception. */
  datatype Result<+R, +E> = Success(value: R) | Failure(error: E)
}
