/** Result types shared by the model: absent values, call completions and
    what a request handler sends back. */
module Wrappers {

  /** A value that may be missing: JavaScript's `null` or `undefined`. */
  datatype Option<+T> = None | Some(value: T)

  /** How an awaited call ended: it produced a value, or it threw (its
      promise was rejected). */
  datatype Completion<+T> = Normal(value: T) | Thrown

  /** The outcome of one request: a JSON body with status 200, a 404 whose
      body is `{ message }`, or no response of the handler's own because an
      exception escaped it. */
  datatype Response<+T> = Ok(body: T) | NotFound(message: string) | Unhandled
}
