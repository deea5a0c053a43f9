/** The stream relay of backend/main.py: `_proxy_stream` opens the upstream
    media request and picks the content type, `iter_chunks` forwards the body
    chunk by chunk, and the `/api/stream` and `/api/download` handlers wrap the
    result in a streaming response. */
module Relay {
  import opened Json
  import opened Upstream
  import opened Attachment
  import opened PyStr

  newtype Byte = b: int | 0 <= b < 256
  type Chunk = seq<Byte>

  /** `iter_content(chunk_size=1024 * 64)` asks for reads of 64 KiB;
      `ChunksStayBounded` takes as its premise that no upstream chunk is
      larger than that. */
  const ChunkSize := 1024 * 64
  const DefaultContentType := "application/octet-stream"
  const TimedOut := "Timed out fetching video stream"
  const StreamingError := "Upstream error while streaming"

  /** An upstream answer opened with `stream=True`: its headers, keyed by
      lower-cased name (`requests` looks headers up case-insensitively), and
      the chunks `iter_content` will produce, empty ones included. */
  datatype Media = Media(headers: map<string, string>, chunks: seq<Chunk>)

  /** What `_proxy_stream` returns: an HTTPException, or the content type and
      the not yet consumed upstream body. */
  datatype Proxied = Refused(error: HttpError) | Opened(contentType: string, body: seq<Chunk>)

  /** A response of the framework: an error, a streaming response with its
      media type, extra headers and the chunks it delivers, or the generic 500
      the framework sends when building the streaming response raises. */
  datatype Reply =
    | ErrorReply(error: HttpError)
    | StreamingReply(mediaType: string, headers: map<string, string>, body: seq<Chunk>)
    | InternalError

  /** `StreamingResponse` encodes the media type and every header name and
      value as Latin-1 when it is constructed; a character above U+00FF makes
      the constructor raise. */
  predicate Encodable(mediaType: string, headers: map<string, string>) {
    && Latin1(mediaType)
    && forall name :: name in headers ==> Latin1(name) && Latin1(headers[name])
  }

  /** `upstream.headers.get("Content-Type", "application/octet-stream")`: a
      header that is present is used as it is, even when empty. */
  function ContentType(headers: map<string, string>): string {
    if "content-type" in headers then headers["content-type"] else DefaultContentType
  }

  /** `_proxy_stream`: request exceptions first (timeout before any other),
      then the status, and only for a 200 the content type and the body. */
  function ProxyStream(o: Outcome<Media>): (r: Proxied)
    ensures r.Refused? <==> o.Raised? || o.status != 200
    ensures o.Raised? ==> r.error == Caught(o.kind, o.message, TimedOut)
    ensures o.Raised? ==> (r.error.status == 504 <==> IsTimeout(o.kind))
    ensures o.Answered? && o.status != 200 ==>
      r.error == HttpError(o.status, JString(StreamingError))
    ensures r.Refused? ==> r.error.status != 200
    ensures r.Opened? ==> r.body == o.body.chunks
    ensures r.Opened? && "content-type" in o.body.headers ==>
      r.contentType == o.body.headers["content-type"]
    ensures r.Opened? && "content-type" !in o.body.headers ==>
      r.contentType == DefaultContentType
  {
    match o
    case Raised(kind, message) => Refused(Caught(kind, message, TimedOut))
    case Answered(status, media) =>
      if status != 200 then Refused(HttpError(status, JString(StreamingError)))
      else Opened(ContentType(media.headers), media.chunks)
  }

  /** The chunks of `s` that are not empty, in their order: the reference for
      what the relay emits. */
  function NonEmpty(s: seq<Chunk>): seq<Chunk> {
    if s == [] then []
    else NonEmpty(s[..|s| - 1]) + (if s[|s| - 1] == [] then [] else [s[|s| - 1]])
  }

  /** All bytes of `s`, in order. */
  function Concat(s: seq<Chunk>): seq<Byte> {
    if s == [] then [] else Concat(s[..|s| - 1]) + s[|s| - 1]
  }

  /** `iter_chunks`: forward every upstream chunk in order, skipping the
      empty ones. The relayed chunks are all non-empty and carry exactly the
      upstream bytes. */
  method IterChunks(upstream: seq<Chunk>) returns (relayed: seq<Chunk>)
    ensures relayed == NonEmpty(upstream)
    ensures forall i :: 0 <= i < |relayed| ==> relayed[i] != []
    ensures Concat(relayed) == Concat(upstream)
  {
    relayed := [];
    for i := 0 to |upstream|
      invariant relayed == NonEmpty(upstream[..i])
    {
      assert upstream[..i + 1][..i] == upstream[..i];
      var chunk := upstream[i];
      if chunk != [] {
        relayed := relayed + [chunk];
      }
    }
    assert upstream[..|upstream|] == upstream;
    NoEmptyChunks(upstream);
    SameBytes(upstream);
  }

  /** `/api/stream`: the upstream body relayed under the upstream's content
      type, or the error `_proxy_stream` raised. */
  method StreamVideo(o: Outcome<Media>) returns (reply: Reply)
    ensures reply.ErrorReply? <==> ProxyStream(o).Refused?
    ensures reply.ErrorReply? ==> reply.error == ProxyStream(o).error
    ensures reply.InternalError? <==>
      ProxyStream(o).Opened? && !Latin1(ProxyStream(o).contentType)
    ensures reply.StreamingReply? ==>
      && reply.mediaType == ProxyStream(o).contentType
      && reply.headers == map[]
      && reply.body == NonEmpty(o.body.chunks)
      && Concat(reply.body) == Concat(o.body.chunks)
  {
    var proxied := ProxyStream(o);
    if proxied.Refused? {
      reply := ErrorReply(proxied.error);
    } else if !Encodable(proxied.contentType, map[]) {
      reply := InternalError;
    } else {
      var chunks := IterChunks(proxied.body);
      reply := StreamingReply(proxied.contentType, map[], chunks);
    }
  }

  /** `/api/download`: as `/api/stream`, plus a `Content-Disposition` header
      naming the sanitised file. The upstream request is made first, so an
      upstream failure is reported whatever the file name; a name the header
      cannot carry in Latin-1 makes the response constructor raise. */
  method DownloadVideo(o: Outcome<Media>, filename: Option<string>) returns (reply: Reply)
    ensures reply.ErrorReply? <==> ProxyStream(o).Refused?
    ensures reply.ErrorReply? ==> reply.error == ProxyStream(o).error
    ensures reply.InternalError? <==>
      && ProxyStream(o).Opened?
      && !(Latin1(ProxyStream(o).contentType) && Latin1(Disposition(SafeName(filename))))
    ensures reply.StreamingReply? ==>
      && reply.mediaType == ProxyStream(o).contentType
      && reply.headers == map["Content-Disposition" := Disposition(SafeName(filename))]
      && reply.body == NonEmpty(o.body.chunks)
      && Concat(reply.body) == Concat(o.body.chunks)
  {
    var proxied := ProxyStream(o);
    if proxied.Refused? {
      reply := ErrorReply(proxied.error);
    } else {
      var name := SafeName(filename);
      var headers := map["Content-Disposition" := Disposition(name)];
      DispositionHeaderEncodable(proxied.contentType, "Content-Disposition", Disposition(name));
      if !Encodable(proxied.contentType, headers) {
        reply := InternalError;
      } else {
        var chunks := IterChunks(proxied.body);
        reply := StreamingReply(proxied.contentType, headers, chunks);
      }
    }
  }

  /** With only the `Content-Disposition` header, whose name is ASCII, the
      response can be built exactly when the media type and the header's
      value are Latin-1. */
  lemma DispositionHeaderEncodable(mediaType: string, name: string, value: string)
    requires name == "Content-Disposition"
    ensures Encodable(mediaType, map[name := value]) <==> Latin1(mediaType) && Latin1(value)
  {
    assert Latin1(name);
    var m := map[name := value];
    assert name in m && m[name] == value;
    assert forall n :: n in m ==> n == name && m[n] == value;
  }

  /** The upstream headers come from `http.client`, which decodes them as
      Latin-1, so the content type `_proxy_stream` passes on is always
      encodable and `/api/stream` never fails while building its response. */
  lemma UpstreamContentTypeEncodable(o: Outcome<Media>)
    requires o.Answered? && o.status == 200
    requires forall name :: name in o.body.headers ==> Latin1(o.body.headers[name])
    ensures Latin1(ProxyStream(o).contentType)
  {
    assert Latin1(DefaultContentType);
  }

  /** No relayed chunk is empty. */
  lemma {:induction false} NoEmptyChunks(s: seq<Chunk>)
    ensures forall i :: 0 <= i < |NonEmpty(s)| ==> NonEmpty(s)[i] != []
  {
    if s != [] {
      NoEmptyChunks(s[..|s| - 1]);
    }
  }

  /** Dropping empty chunks loses no byte and reorders none. */
  lemma {:induction false} SameBytes(s: seq<Chunk>)
    ensures Concat(NonEmpty(s)) == Concat(s)
  {
    if s != [] {
      var init, last := s[..|s| - 1], s[|s| - 1];
      SameBytes(init);
      if last != [] {
        var out := NonEmpty(init) + [last];
        assert NonEmpty(s) == out;
        assert out[..|out| - 1] == NonEmpty(init);
        assert Concat(out) == Concat(NonEmpty(init)) + last;
      } else {
        assert NonEmpty(s) == NonEmpty(init) + [] == NonEmpty(init);
        assert Concat(s) == Concat(init) + last == Concat(init);
      }
    }
  }

  /** The relay keeps exactly the upstream chunks that are not empty. */
  lemma {:induction false} KeepsExactlyNonEmpty(s: seq<Chunk>, c: Chunk)
    ensures c in NonEmpty(s) <==> c in s && c != []
  {
    if s != [] {
      var init := s[..|s| - 1];
      KeepsExactlyNonEmpty(init, c);
      assert s == init + [s[|s| - 1]];
    }
  }

  /** Relaying two stretches of the body one after the other emits what
      relaying them together emits: forwarding chunk by chunk as they arrive
      is the same as filtering the whole body. */
  lemma {:induction false} RelayIsIncremental(a: seq<Chunk>, b: seq<Chunk>)
    ensures NonEmpty(a + b) == NonEmpty(a) + NonEmpty(b)
  {
    if b != [] {
      var binit := b[..|b| - 1];
      RelayIsIncremental(a, binit);
      assert (a + b)[..|a + b| - 1] == a + binit;
    } else {
      assert a + b == a;
    }
  }

  /** A body without any byte (no chunks, or only empty ones) is relayed as
      no chunk at all, and a body with bytes yields at least one chunk. */
  lemma {:induction false} EmptyBodyRelaysNothing(s: seq<Chunk>)
    ensures NonEmpty(s) == [] <==> Concat(s) == []
  {
    SameBytes(s);
    NoEmptyChunks(s);
    var out := NonEmpty(s);
    if out != [] {
      ConcatOfNonEmptyChunks(out);
    }
  }

  /** Bytes of a non-empty sequence of non-empty chunks are not empty. */
  lemma {:induction false} ConcatOfNonEmptyChunks(s: seq<Chunk>)
    requires s != [] && s[|s| - 1] != []
    ensures Concat(s) != []
  {
  }

  /** The relay never makes a chunk larger than the upstream reads were. */
  lemma {:induction false} ChunksStayBounded(s: seq<Chunk>)
    requires forall i :: 0 <= i < |s| ==> |s[i]| <= ChunkSize
    ensures forall i :: 0 <= i < |NonEmpty(s)| ==> |NonEmpty(s)[i]| <= ChunkSize
  {
    if s != [] {
      ChunksStayBounded(s[..|s| - 1]);
    }
  }
}
