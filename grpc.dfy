/** The gRPC-side vocabulary the middleware works with: status codes, the
    errors a call can return, the errors of a context, and the reply of a
    server handler. */
module Grpc {

  datatype Option<+T> = None | Some(value: T)

  /** The status codes of gRPC, in the order of their numeric values 0..16. */
  datatype Code =
    | OK | Canceled | Unknown | InvalidArgument | DeadlineExceeded
    | NotFound | AlreadyExists | PermissionDenied | ResourceExhausted
    | FailedPrecondition | Aborted | OutOfRange | Unimplemented
    | Internal | Unavailable | DataLoss | Unauthenticated

  /** What `ctx.Err()` can return once a context is done: the two errors of
      the standard context package, or the error of some other context
      implementation. */
  datatype CtxErr = CtxDeadlineExceeded | CtxCanceled | CtxOther(text: string)

  /** An error value as the middleware sees it: a gRPC status error (made by
      `grpc.Errorf`), or a context error passed on as it is. */
  datatype Error =
    | StatusError(code: Code, msg: string)
    | ContextError(cause: CtxErr)

  /** The text of a context error (`err.Error()`). */
  function CtxErrText(e: CtxErr): string
  {
    match e
    case CtxDeadlineExceeded => "context deadline exceeded"
    case CtxCanceled => "context canceled"
    case CtxOther(t) => t
  }

  /** `grpc.Code(err)`: the code of a status error; any other error is
      `Unknown`. */
  function CodeOf(e: Error): Code
  {
    match e
    case StatusError(code, _) => code
    case ContextError(_) => Unknown
  }

  /** What a unary server handler returns: a response (nil when absent) and
      an error (nil when absent). */
  datatype Reply<P> = Reply(resp: Option<P>, err: Option<Error>)

  /** A failed reply with no response. */
  function Failed<P>(e: Error): Reply<P>
  {
    Reply(None, Some(e))
  }
}
