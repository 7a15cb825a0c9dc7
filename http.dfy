/** The JSON replies of the API routes: an HTTP status and a body that is
    either `{ error: message }` or the route's own payload. */
module Http {

  datatype Body<T> = Error(message: string) | Payload(value: T)

  datatype Reply<T> = Reply(status: nat, body: Body<T>)

  /** `NextResponse.json({ error: message }, { status })` */
  function Fail<T>(status: nat, message: string): Reply<T> {
    Reply(status, Error(message))
  }

  /** What an upstream `fetch` yields: the request throws, the response is
      not OK, or it is OK and its body decodes (or fails to) into `J`. */
  datatype Upstream<J> = NetworkError | NotOk | Fetched(json: J)

  /** `NextResponse.json(value)`: status 200. */
  function Ok<T>(value: T): Reply<T> {
    Reply(200, Payload(value))
  }
}
