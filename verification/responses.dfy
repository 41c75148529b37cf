/** Optional values and the JSON replies of the HTTP handlers. */
module Responses {

  /** A value that may be absent (a JavaScript `undefined` or `null`). */
  datatype Option<+T> = None | Some(value: T)

  /** A handler's reply: the success body, or an HTTP status with the `{ error }` message. */
  datatype Response<+T> = Ok(value: T) | Err(status: nat, message: string)
}
