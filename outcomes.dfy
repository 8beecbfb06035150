/** Java's null and thrown exceptions, made explicit. */
module Outcomes {

  /** A Java reference that may be null. */
  datatype Option<T> = None | Some(value: T)

  /** The result of a call that either returns normally or throws;
      `error` is the exception's message (`Throwable.getMessage()`). */
  datatype Result<T> = Success(value: T) | Failure(error: string)
}
