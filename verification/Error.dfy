/** The errors of an open stream, and which of them resubscribing can fix
    (preconfs-client/src/error.rs, preconfs-client/src/reconnect.rs). */
module Error {

  datatype Code =
    | CodeOk | Cancelled | Unknown | InvalidArgument | DeadlineExceeded | NotFound
    | AlreadyExists | PermissionDenied | ResourceExhausted | FailedPrecondition
    | Aborted | OutOfRange | Unimplemented | Internal | Unavailable | DataLoss
    | Unauthenticated

  datatype Status = Status(code: Code, message: string)

  datatype StreamError = Refused(status: Status) | Closed

  predicate RetryableStatus(status: Status) {
    match status.code
    case Unavailable | DataLoss | ResourceExhausted | Internal
       | Unknown | Aborted | Cancelled | DeadlineExceeded => true
    case CodeOk | Unauthenticated | PermissionDenied | InvalidArgument | FailedPrecondition
       | NotFound | AlreadyExists | OutOfRange | Unimplemented => false
  }

  predicate Retryable(error: StreamError) {
    match error
    case Closed => true
    case Refused(status) => RetryableStatus(status)
  }

  /** What is wrong with the request or the token, and stays wrong. */
  const TERMINAL_CODES: set<Code> := {
    CodeOk, Unauthenticated, PermissionDenied, InvalidArgument, FailedPrecondition,
    NotFound, AlreadyExists, OutOfRange, Unimplemented}

  predicate Terminal(error: StreamError) {
    error.Refused? && error.status.code in TERMINAL_CODES
  }

  /** Everything is retried but a status about the request or the token. */
  lemma {:induction false} RetryableIff(error: StreamError)
    ensures Retryable(error) <==> !Terminal(error)
  {}
}
