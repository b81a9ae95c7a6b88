/** The result codes shared by every component, and the usual optional value. */
module Statuses {

  datatype Status =
    | OK | IO | PARSE | CONFIG | MODEL | NOT_FOUND | INVALID | DENIED | TIMEOUT
    | CANCELLED | BUSY | PROTOCOL | CONTEXT | UNSUPPORTED | SIBLING | NOMEM | LIMIT

  datatype Option<+T> = None | Some(value: T)

  datatype Result<+T> = Success(value: T) | Failure(error: Status)
}
