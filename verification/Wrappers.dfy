/** Optional values and results shared by every component. */
module Wrappers {
  datatype Option<+T> = None | Some(value: T)

  datatype Result<+T, +E> = Success(value: T) | Failure(error: E) {
    function GetOr(default: T): T { if Success? then value else default }
  }

  /** The gRPC status codes the modelled operations return. */
  datatype Status =
    | InvalidArgument
    | NotFound
    | AlreadyExists
    | FailedPrecondition
    | ResourceExhausted
    | Unimplemented
    | Unavailable
    | Internal
}
