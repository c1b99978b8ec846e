/** Option and Outcome, the failure-compatible wrappers the model uses for
    nullable references and for handlers that throw. */
module Wrappers {

  datatype Option<+T> = None | Some(value: T)

  /** What a handler that throws produces instead of finishing its work. */
  datatype Error = NotImplemented(what: string) | NullReference(what: string)

  datatype Outcome = Pass | Fail(error: Error)

  /** The value of a call that may throw instead of returning. */
  datatype Result<+T> = Success(value: T) | Failure(error: Error)
}
