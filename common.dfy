/** Shared value types: optional values, results carrying the exceptions the
    Java code throws, and the error kinds it uses. */
module Common {

  /** A Java reference that may be null. */
  datatype Option<T> = None | Some(value: T)

  /** The Java exceptions raised by the modelled code, with their messages. */
  datatype Error =
    | IllegalArgument(message: string)
    | IllegalState(message: string)
    | UnsupportedOperation(message: string)
    | NegativeArraySize(size: int)
    | ArrayIndexOutOfBounds(index: int)

  /** A value, or the exception that was thrown instead. */
  datatype Result<T> = Success(value: T) | Failure(error: Error)

  /** A void call that either returns normally or throws. */
  datatype Outcome = Pass | Fail(error: Error)
}
