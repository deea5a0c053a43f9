/** What a `requests.get` call to the upstream service can come back with, and
    how the handlers turn a raised request exception into an HTTP error. The
    network call itself is not modelled: its outcome is an input. */
module Upstream {
  import opened Json

  /** The subclasses of `requests.RequestException` that a GET can raise.
      `ConnectTimeout` derives from both `requests.ConnectionError` and
      `requests.Timeout`; `ReadTimeout` only from `requests.Timeout`. */
  datatype RequestErrorKind =
    | ConnectTimeout
    | ReadTimeout
    | ConnectionError
    | TooManyRedirects
    | InvalidUrl
    | OtherRequestError

  /** `isinstance(e, requests.Timeout)`. */
  predicate IsTimeout(k: RequestErrorKind) {
    k.ConnectTimeout? || k.ReadTimeout?
  }

  /** `isinstance(e, requests.ConnectionError)`. */
  predicate IsConnectionError(k: RequestErrorKind) {
    k.ConnectTimeout? || k.ConnectionError?
  }

  /** The result of one upstream GET: an exception whose `str(e)` is `message`,
      or an answer with an HTTP status and a body of type `B`. */
  datatype Outcome<B> =
    | Raised(kind: RequestErrorKind, message: string)
    | Answered(status: int, body: B)

  /** An `HTTPException(status_code, detail)`; `detail` is whatever JSON value
      the handler passes (a string, or an upstream-supplied value). */
  datatype HttpError = HttpError(status: int, detail: JValue)

  /** The prefix of the detail of every non-timeout request failure. */
  const FailedPrefix := "Upstream request failed: "

  /** The handlers' `except requests.Timeout` clause followed by
      `except requests.RequestException as e`: the timeout clause is tried
      first, so an exception that is both a timeout and a connection error is
      reported as a timeout. */
  function Caught(kind: RequestErrorKind, message: string, timedOut: string): (e: HttpError)
    ensures e.status == 504 <==> IsTimeout(kind)
    ensures e.status == 502 <==> !IsTimeout(kind)
    ensures IsTimeout(kind) ==> e.detail == JString(timedOut)
    ensures !IsTimeout(kind) ==> e.detail == JString(FailedPrefix + message)
  {
    if IsTimeout(kind) then HttpError(504, JString(timedOut))
    else HttpError(502, JString(FailedPrefix + message))
  }

  /** A connect timeout is also a connection error, and because the timeout
      clause comes first it is still answered with 504. */
  lemma ConnectTimeoutCaughtAsTimeout(message: string, timedOut: string)
    ensures IsConnectionError(ConnectTimeout) && IsTimeout(ConnectTimeout)
    ensures Caught(ConnectTimeout, message, timedOut) == HttpError(504, JString(timedOut))
  {
  }
}
