/** Failure values of the engine: the two exceptions its code can raise. */
module Wrappers {

  /** `AssertionError` is raised by the shape guard; `NotImplementedError` by the abstract base method. */
  datatype Error = AssertionError(message: string) | NotImplementedError

  /** A value or Python's `None`. */
  datatype Option<+T> = None | Some(value: T)

  /** The result of an operation that either returns a value or raises. */
  datatype Result<+T> = Success(value: T) | Failure(error: Error)

  /** The result of an operation that returns nothing or raises. */
  datatype Outcome = Pass | Fail(error: Error)
}
