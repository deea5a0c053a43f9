/** The `/api/tiktok` handler of the top-level main.py. Its body is the same
    sequence of checks as the backend resolver, character for character, so it
    is defined by that resolver; its contract collects what this handler
    promises, proved from the resolver's definition. */
module RootApp {
  import opened Json
  import opened Upstream
  import opened Resolver

  function Tiktok(o: Outcome<Body>): (r: Resolution)
    // A request exception: 504 for a timeout (tried first), 502 otherwise.
    ensures o.Raised? ==> r == Failed(Caught(o.kind, o.message, TimedOut))
    ensures o.Raised? && IsTimeout(o.kind) ==> r.error.status == 504
    ensures o.Raised? && !IsTimeout(o.kind) ==> r.error.status == 502
    // The status is checked before anything else about the answer.
    ensures o.Answered? && o.status != 200 ==> r == Failed(HttpError(o.status, JString(UpstreamError)))
    // Then the upstream `code`: missing or non-zero is a 400 carrying `msg`.
    ensures o.Answered? && o.status == 200 && o.body.Parsed? && o.body.json.JObject? &&
            !CodeOk(o.body.json.fields) ==>
            r == Failed(HttpError(400, GetOr(o.body.json.fields, "msg", JString(InvalidResponse))))
    // Only then the record, with a title that is never empty and URLs taken
    // from the first truthy field of each pair.
    ensures r.Resolved? <==>
      o.Answered? && o.status == 200 && o.body.Parsed? && o.body.json.JObject? &&
      CodeOk(o.body.json.fields) && PayloadIsDict(o.body.json.fields)
    ensures r.Resolved? ==> Truthy(r.title) && (r.title.JString? ==> r.title.s != "")
    ensures r.Resolved? ==>
      var d := Payload(o.body.json.fields);
      && (Truthy(r.thumbnailUrl) <==> Truthy(Get(d, "cover")) || Truthy(Get(d, "origin_cover")))
      && r.thumbnailUrl in {Get(d, "cover"), Get(d, "origin_cover")}
      && (Truthy(Get(d, "cover")) ==> r.thumbnailUrl == Get(d, "cover"))
      && r.thumbnailUrl ==
           (if Truthy(Get(d, "cover")) then Get(d, "cover") else Get(d, "origin_cover"))
      && (Truthy(r.downloadUrl) <==> Truthy(Get(d, "play")) || Truthy(Get(d, "wmplay")))
      && r.downloadUrl in {Get(d, "play"), Get(d, "wmplay")}
      && (Truthy(Get(d, "play")) ==> r.downloadUrl == Get(d, "play"))
      && r.downloadUrl ==
           (if Truthy(Get(d, "play")) then Get(d, "play") else Get(d, "wmplay"))
    // The title is the upstream title when that is truthy, else the placeholder.
    ensures r.Resolved? ==>
      var d := Payload(o.body.json.fields);
      r.title == (if Truthy(Get(d, "title")) then Get(d, "title") else JString(Placeholder))
  {
    Resolver.Tiktok(o)
  }
}
