/** What the client stores see of a call to an edge function
    (`callAuthFunction`, `callFilesFunction`, `callCloudinaryFunction`): the
    decoded body of a 2xx response, or an exception carrying the body's
    `error` text. */
module Endpoint {
  import opened Base

  const RequestFailed := "Request failed"

  /** The outcome of one call: a 2xx body, or a non-2xx status whose body
      may lack an `error` field. */
  datatype Reply<+T> = Answered(body: T) | Rejected(error: Option<string>)

  /** The message of the exception thrown on a non-2xx status:
      `data.error || 'Request failed'`. It is never empty, so a caller that
      returns it as `{ error }` always reports a failure. */
  function Thrown(error: Option<string>): (m: string)
    ensures m != ""
    ensures Truthy(error) ==> m == error.value
    ensures !Truthy(error) ==> m == RequestFailed
  {
    if Truthy(error) then error.value else RequestFailed
  }
}
