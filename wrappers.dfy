/** Failure-carrying results, standing in for the exceptions the source raises. */
module Wrappers {

  /** Either a value or the error that prevented computing it. */
  datatype Result<T, E> = Success(value: T) | Failure(error: E)

  /** The outcome of an operation that returns nothing but may fail. */
  datatype Outcome<E> = Pass | Fail(error: E)
}
