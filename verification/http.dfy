/** What a page handler can observe of one backend call, once `fetch` and
    `response.json()` are replaced by data: the request either never reached
    the server, or it produced a status code and a body that either parsed or
    made `response.json()` (or a property read on it) throw. */
module Http {
  import opened Wrappers

  /** A value a handler may catch: an `Error` object with its `message`, or
      any other thrown value (for which `instanceof Error` is false). */
  datatype Thrown = ErrorObject(message: string) | NotAnError

  /** `response.ok`. */
  predicate IsOk(status: int) {
    200 <= status <= 299
  }

  /** The status the session guard treats as "session no longer valid". */
  const Unauthorized: int := 401

  /** A response body as the handler reads it: `Unreadable` carries the text of
      the error that reading it threw; `Json` carries the body's `message`
      field (None when absent) and the page-specific rest of the body. */
  datatype Body<P> = Unreadable(error: string) | Json(message: Option<string>, payload: P)

  /** One backend call: `Unreachable` when `fetch` itself rejects (its error
      text attached), otherwise the status code and the body. */
  datatype Reply<P> = Unreachable(error: string) | Response(status: int, body: Body<P>)

  /** `field || fallback` on an optional string field: the empty string is
      falsy in JavaScript, so it falls back too. */
  function OrElse(field: Option<string>, fallback: string): (r: string)
    ensures fallback != "" ==> r != ""
    ensures field.Some? && field.value != "" ==> r == field.value
    ensures (field.None? || field.value == "") ==> r == fallback
  {
    match field
    case Some(v) => if v != "" then v else fallback
    case None => fallback
  }

  /** `err.message || fallback` in a `catch` block: the message of a thrown
      `Error` unless it is empty, and the fallback for anything else. */
  function CaughtMessage(err: Thrown, fallback: string): (r: string)
    ensures fallback != "" ==> r != ""
    ensures err.ErrorObject? && err.message != "" ==> r == err.message
    ensures (err.NotAnError? || err.message == "") ==> r == fallback
  {
    match err
    case ErrorObject(m) => OrElse(Some(m), fallback)
    case NotAnError => fallback
  }

  /** The error raised before a handler sees a parsed body: `fetch` rejecting
      (a `TypeError`) or `response.json()` failing (a `SyntaxError`); both
      are `Error` objects. None when the body parsed. */
  function TransportError<P>(reply: Reply<P>): (r: Option<Thrown>)
    ensures r.None? <==> reply.Response? && reply.body.Json?
    ensures r.Some? ==> r.value.ErrorObject?
  {
    match reply
    case Unreachable(e) => Some(ErrorObject(e))
    case Response(_, Unreadable(e)) => Some(ErrorObject(e))
    case Response(_, Json(_, _)) => None
  }

  /** `${err.message}` in a template literal: the message of an `Error`, and
      "undefined" for a thrown value without one. */
  function MessageText(err: Thrown): (r: string)
    ensures err.ErrorObject? ==> r == err.message
    ensures err.NotAnError? ==> r == "undefined"
  {
    match err
    case ErrorObject(m) => m
    case NotAnError => "undefined"
  }
}
