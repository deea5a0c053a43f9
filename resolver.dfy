/** The `/api/tiktok` resolver of backend/main.py: one upstream metadata request,
    then a fixed chain of checks (HTTP status, then JSON decoding, then the
    upstream's own `code`, then field selection with `or` fallbacks). */
module Resolver {
  import opened Json
  import opened Upstream

  /** The body of the upstream answer as `resp.json()` sees it: text that is
      not JSON (whose decoding error reads `reason`), or a decoded document. */
  datatype Body = Malformed(reason: string) | Parsed(json: JValue)

  /** What the handler produces: the normalised record, an HTTPException, or
      an exception the handler does not catch (`.get` called on a decoded
      value that is not a dict), which the framework answers with a bare 500. */
  datatype Resolution =
    | Resolved(title: JValue, thumbnailUrl: JValue, downloadUrl: JValue)
    | Failed(error: HttpError)
    | Uncaught

  const Placeholder := "TikTok Video"
  const TimedOut := "Timed out fetching video info"
  const UpstreamError := "Upstream error"
  const InvalidResponse := "Invalid response"

  /** The upstream accepted the request: its `code` compares equal to 0. */
  predicate CodeOk(fields: map<string, JValue>) {
    EqualsZero(Get(fields, "code"))
  }

  /** `data.get("data", {})` yields a dict, so the field lookups succeed. */
  predicate PayloadIsDict(fields: map<string, JValue>) {
    "data" !in fields || fields["data"].JObject?
  }

  /** The dict `d` that the record is built from. */
  function Payload(fields: map<string, JValue>): map<string, JValue>
    requires PayloadIsDict(fields)
  {
    if "data" in fields then fields["data"].fields else map[]
  }

  /** The returned dict: `title` falls back to the placeholder, the two URLs
      fall back from the primary field to the secondary one. */
  function Normalise(d: map<string, JValue>): (r: Resolution)
    ensures r.Resolved?
    ensures Truthy(r.title)
  {
    Resolved(
      Or(Get(d, "title"), JString(Placeholder)),
      Or(Get(d, "cover"), Get(d, "origin_cover")),
      Or(Get(d, "play"), Get(d, "wmplay")))
  }

  /** Everything after a 200 answer was decoded into `v`. */
  function Interpret(v: JValue): (r: Resolution)
    ensures r.Failed? ==> r.error.status == 400
  {
    if !v.JObject? then Uncaught
    else if !CodeOk(v.fields) then
      Failed(HttpError(400, GetOr(v.fields, "msg", JString(InvalidResponse))))
    else if !PayloadIsDict(v.fields) then Uncaught
    else Normalise(Payload(v.fields))
  }

  /** The handler `tiktok`, on the outcome of its upstream request. */
  function Tiktok(o: Outcome<Body>): (r: Resolution)
    ensures r.Failed? ==> r.error.status != 200
    ensures r.Resolved? ==> Truthy(r.title)
  {
    match o
    case Raised(kind, message) => Failed(Caught(kind, message, TimedOut))
    case Answered(status, body) =>
      if status != 200 then Failed(HttpError(status, JString(UpstreamError)))
      else match body
        case Malformed(reason) => Failed(Caught(OtherRequestError, reason, TimedOut))
        case Parsed(v) => Interpret(v)
  }

  /** A request exception: a timeout gives 504, any other failure 502 with
      the exception's text, and nothing else is looked at. */
  lemma TransportFailures(kind: RequestErrorKind, message: string)
    ensures Tiktok(Raised(kind, message)).Failed?
    ensures IsTimeout(kind) ==>
      Tiktok(Raised(kind, message)).error == HttpError(504, JString(TimedOut))
    ensures !IsTimeout(kind) ==>
      Tiktok(Raised(kind, message)).error == HttpError(502, JString(FailedPrefix + message))
  {
  }

  /** A status other than 200 is an error with exactly that status and the
      detail "Upstream error", whatever the body holds: the status is checked
      before the body is read. */
  lemma StatusCheckedFirst(status: int, b1: Body, b2: Body)
    requires status != 200
    ensures Tiktok(Answered(status, b1)) == Failed(HttpError(status, JString(UpstreamError)))
    ensures Tiktok(Answered(status, b1)) == Tiktok(Answered(status, b2))
  {
  }

  /** A 200 answer that is not JSON: `resp.json()` raises a decoding error,
      which is a `RequestException`, so it is reported as a 502. */
  lemma MalformedBodyIs502(reason: string)
    ensures Tiktok(Answered(200, Malformed(reason))) == Failed(HttpError(502, JString(FailedPrefix + reason)))
  {
  }

  /** When `code` is missing or is not 0 the answer is a 400 whose detail is the
      upstream `msg` when that key is present (even if it is empty or null) and
      "Invalid response" otherwise; the `data` field is never consulted. */
  lemma CodeCheckedBeforeData(fields: map<string, JValue>, other: JValue)
    requires !CodeOk(fields)
    ensures "msg" in fields ==>
      Tiktok(Answered(200, Parsed(JObject(fields)))) == Failed(HttpError(400, fields["msg"]))
    ensures "msg" !in fields ==>
      Tiktok(Answered(200, Parsed(JObject(fields)))) == Failed(HttpError(400, JString(InvalidResponse)))
    ensures Tiktok(Answered(200, Parsed(JObject(fields)))) ==
            Tiktok(Answered(200, Parsed(JObject(fields["data" := other]))))
  {
    assert !CodeOk(fields["data" := other]) by {
      assert Get(fields["data" := other], "code") == Get(fields, "code");
    }
  }

  /** A record is produced exactly when the request went through with status
      200, the body decoded to a dict, its `code` equals 0 and its `data` is a
      dict or absent. Nothing rejects a record whose download URL is missing. */
  lemma ResolvedExactly(o: Outcome<Body>)
    ensures Tiktok(o).Resolved? <==>
      && o.Answered? && o.status == 200
      && o.body.Parsed? && o.body.json.JObject?
      && CodeOk(o.body.json.fields)
      && PayloadIsDict(o.body.json.fields)
  {
  }

  /** The title is the upstream title when that is truthy and the placeholder
      otherwise, so a returned title is never empty. */
  lemma TitleNeverEmpty(fields: map<string, JValue>)
    requires CodeOk(fields) && PayloadIsDict(fields)
    ensures var r := Tiktok(Answered(200, Parsed(JObject(fields))));
      && r.Resolved?
      && Truthy(r.title)
      && (r.title.JString? ==> r.title.s != "")
      && (Truthy(Get(Payload(fields), "title")) ==> r.title == Get(Payload(fields), "title"))
      && (!Truthy(Get(Payload(fields), "title")) ==> r.title == JString(Placeholder))
  {
  }

  /** `thumbnail_url` is `cover` when truthy, else `origin_cover` as it is (a
      missing key gives null); `download_url` is `play` when truthy, else
      `wmplay`. Each URL is truthy exactly when one of its two sources is. */
  lemma FallbackChains(fields: map<string, JValue>)
    requires CodeOk(fields) && PayloadIsDict(fields)
    ensures var r := Tiktok(Answered(200, Parsed(JObject(fields))));
      var d := Payload(fields);
      && r.Resolved?
      && r.thumbnailUrl == (if Truthy(Get(d, "cover")) then Get(d, "cover") else Get(d, "origin_cover"))
      && (Truthy(r.thumbnailUrl) <==> Truthy(Get(d, "cover")) || Truthy(Get(d, "origin_cover")))
      && r.downloadUrl == (if Truthy(Get(d, "play")) then Get(d, "play") else Get(d, "wmplay"))
      && (Truthy(r.downloadUrl) <==> Truthy(Get(d, "play")) || Truthy(Get(d, "wmplay")))
  {
  }

  /** An accepted answer without any `data` is still a record: the placeholder
      title and two null URLs. */
  lemma MissingUrlsAccepted()
    ensures Tiktok(Answered(200, Parsed(JObject(map["code" := JNum(0.0)])))) ==
            Resolved(JString(Placeholder), JNull, JNull)
  {
  }

  /** Decoded values the handler cannot take apart: a body that is not a dict,
      or a `data` that is not a dict, ends in an uncaught exception. */
  lemma NonDictIsUncaught(fields: map<string, JValue>, v: JValue)
    requires !v.JObject?
    ensures Tiktok(Answered(200, Parsed(v))) == Uncaught
    ensures CodeOk(fields) && "data" in fields && fields["data"] == v ==>
      Tiktok(Answered(200, Parsed(JObject(fields)))) == Uncaught
  {
  }
}
