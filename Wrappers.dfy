/** Small result types shared by the server and client modules. */
module Wrappers {

  /** A JavaScript value that may be `undefined`/`null`. */
  datatype Option<+T> = None | Some(value: T) {
    function GetOr(default: T): T {
      match this
      case Some(v) => v
      case None => default
    }
  }

  /** The JSON reply of an HTTP handler: a success payload, or a non-2xx status
      carrying the handler's error message. */
  datatype Reply<+T> = Ok(value: T) | Rejected(status: int, message: string)
}
