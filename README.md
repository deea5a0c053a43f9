# TikTok resolver and stream relay: a Dafny model

This project models the logic of a small HTTP gateway. The gateway resolves a
TikTok URL through the third-party tikwm metadata API (`/api/tiktok`). It then
relays the resolved media bytes to the client, either inline (`/api/stream`)
or as a named attachment (`/api/download`). The network calls are not
modelled: each upstream request is an input that says what happened. That is
either a `requests` exception, or an answer with a status and a body. What the
model covers is every decision the handlers make about that outcome:

- `Json`: decoded JSON values, with Python truthiness and Python's `== 0`.
- `Upstream`: the `requests` exception kinds and the upstream outcome. Also
  the shared `except requests.Timeout` / `except requests.RequestException`
  mapping to 504 and 502.
- `Resolver`: the `tiktok` handler of `backend/main.py`. It checks, in order,
  the status, the JSON decoding and the upstream `code`. Then it normalises
  the title, thumbnail and download URL with `or` fallbacks.
- `RootApp`: the `tiktok` handler of the top-level `main.py`. Its code is
  identical to the backend handler, so it is defined by the `Resolver`
  function, and its contract lists this handler's promises.
- `PyStr`: `str.strip()`, `str.replace("/", "-")` and
  `s.lower().endswith(".mp4")`.
- `Attachment`: the download file-name sanitiser and the
  `Content-Disposition` header.
- `Relay`: `_proxy_stream` (errors and content type) and the `iter_chunks`
  loop, as a method with a loop invariant. Also the two streaming handlers
  that combine them.

Some consequences of the code that are easy to miss:

- The resolver reads only `play`/`wmplay` for the download URL and
  `cover`/`origin_cover` for the thumbnail.
- The resolver does not reject a record that lacks a download URL. Such a
  record is returned with a null `download_url` (`Resolver.MissingUrlsAccepted`).
- The download name gets ".mp4" only when it does not already end in ".mp4"
  in some letter case. Other video extensions are not recognised.
- An upstream body that is not valid JSON is reported as a 502 with the
  "Upstream request failed: " prefix. This is because `resp.json()` raises
  `requests.JSONDecodeError`, which is a `RequestException` in requests 2.27
  and later.
- The streaming response encodes its media type and header values as
  Latin-1 when it is built. A download name with a non-blank character above
  U+00FF therefore ends in a generic 500 (`Relay.InternalError`), not in a
  file.

## Model

| member | source | states |
|---|---|---|
| Json.Or | backend/main.py:29-31 | `a or b` returns one of its operands: the first when it is truthy, the second otherwise. It is truthy exactly when one of the operands is. |
| Json.FalsyValues | backend/main.py:29-31 | `Json.Truthy` is Python truthiness: a value is falsy exactly when it is null, false, zero, or an empty string, list or object. |
| Json.ZeroIsFalsy | backend/main.py:25 | `Json.EqualsZero` (Python's `== 0`) holds only for the numbers zero and for `False`, and each of them is falsy. |
| Upstream.Caught | backend/main.py:33-36 | A request exception gives 504 exactly when it is a `requests.Timeout`, with the fixed timeout text. Otherwise it gives 502 with "Upstream request failed: " followed by the exception text. |
| Upstream.ConnectTimeoutCaughtAsTimeout | backend/main.py:42-45 | A connect timeout is both a connection error and a timeout. Because the timeout clause comes first, it is answered with 504. |
| Resolver.Normalise | backend/main.py:27-32 | The normalised dict is always a record whose title is truthy. |
| Resolver.Interpret | backend/main.py:24-32 | The only error that a decoded 200 answer can give is a 400. |
| Resolver.Tiktok | backend/main.py:17-36 | The resolver never reports an error with status 200. Every record it returns has a non-empty title. |
| Resolver.TransportFailures | backend/main.py:33-36 | A timeout gives 504 "Timed out fetching video info". Any other request exception gives 502 with the exception text. |
| Resolver.StatusCheckedFirst | backend/main.py:22-23 | A non-200 status gives an error with exactly that status and "Upstream error", whatever the body is. |
| Resolver.MalformedBodyIs502 | backend/main.py:24-36 | A 200 answer that is not JSON gives 502 with the decoding error's text. |
| Resolver.CodeCheckedBeforeData | backend/main.py:25-27 | A missing or non-zero `code` gives 400. The detail is `msg` if that key is present, else "Invalid response". The `data` field does not affect the result. |
| Resolver.ResolvedExactly | backend/main.py:22-32 | A record is produced if and only if all of these hold: no exception, status 200, the body is a JSON object, `code` equals 0, and `data` is an object or absent. |
| Resolver.TitleNeverEmpty | backend/main.py:29 | The title is the upstream title when that is truthy, else "TikTok Video". So the title is never empty. |
| Resolver.FallbackChains | backend/main.py:30-31 | `thumbnail_url` is `cover` if truthy, else `origin_cover`. `download_url` is `play` if truthy, else `wmplay`. Each URL is truthy if and only if one of its two sources is. |
| Resolver.MissingUrlsAccepted | backend/main.py:27-32 | An accepted answer without `data` is still returned as a record: the placeholder title and null URLs. |
| Resolver.NonDictIsUncaught | backend/main.py:24-27 | A decoded body that is not an object ends in an uncaught exception. So does a `data` value that is not an object. |
| RootApp.Tiktok | main.py:15-34 | Timeout gives 504 and other request failures give 502, timeout checked first. Then non-200 gives that status with "Upstream error". Then a missing or non-zero `code` gives 400 with `msg` or "Invalid response". A record exists exactly when all checks pass. Its title is the upstream title when truthy, else "TikTok Video", so never empty. `thumbnail_url` is `cover` if truthy, else `origin_cover`; `download_url` is `play` if truthy, else `wmplay`. |
| PyStr.SkipSpace | backend/main.py:69 | The left scan of `strip`: everything before the result is whitespace, and the character at the result is not. |
| PyStr.SkipSpaceBack | backend/main.py:69 | The right scan of `strip`: everything from the result to the start point is whitespace, and the character before the result is not. |
| PyStr.Strip | backend/main.py:69 | `strip()` returns an infix of its input. What it removes on both sides is whitespace. The result neither starts nor ends with whitespace. It is empty exactly when the input is all whitespace. |
| PyStr.StripKeepsTrimmed | backend/main.py:69 | Stripping a string that has no whitespace at either end leaves it unchanged. |
| PyStr.StripIdempotent | backend/main.py:69 | Stripping twice gives the same result as stripping once. |
| PyStr.ReplaceSlash | backend/main.py:69 | `replace("/", "-")` keeps the length and every other character, turns each slash into a hyphen, and leaves no slash. |
| PyStr.StripKeepsInner | backend/main.py:69 | `strip()` keeps every character of its input that is not whitespace. |
| PyStr.StripPadded | backend/main.py:69 | `strip()` removes one blank on each side of a non-empty trimmed string. |
| PyStr.CleaningKeepsLatin1 | backend/main.py:69 | `strip()` and then `replace("/", "-")` on a Latin-1 string give Latin-1 strings. |
| PyStr.EndsWithMp4IsLowerEndsWith | backend/main.py:70 | `PyStr.EndsWithMp4` holds exactly when the string, lower-cased letter by letter, ends with ".mp4". |
| Attachment.BaseName | backend/main.py:69 | The name before the extension step has no slash and no whitespace at either end. |
| Attachment.SafeName | backend/main.py:69-71 | The sanitised name has no slash and no surrounding whitespace. It ends in ".mp4" (any case). It is the base name, or the base name plus ".mp4". |
| Attachment.Disposition | backend/main.py:72 | The header is `attachment; filename="`, then the name, then a closing quote. The name can be read back from between them. |
| Attachment.DefaultsToVideo | backend/main.py:69-71 | A missing or empty file name gives "video" + ".mp4". |
| Attachment.CleanNameGainsExtension | backend/main.py:69-71 | A non-empty name with no slash, no surrounding whitespace and no ".mp4" ending is sent as that name plus ".mp4". |
| Attachment.ExtensionOnlyWhenMissing | backend/main.py:70-71 | ".mp4" is appended if and only if the base name does not already end in ".mp4" in some case. |
| Attachment.BlankNameKeepsOnlyExtension | backend/main.py:69-71 | A name made only of whitespace is not replaced by "video". It becomes ".mp4". |
| Attachment.SafeNameIdempotent | backend/main.py:69-71 | Sanitising an already sanitised name changes nothing. |
| Attachment.PlainNameGainsExtension | backend/main.py:69-71 | "my video" becomes "my video.mp4". |
| Attachment.SlashBecomesHyphen | backend/main.py:69-71 | "a/b" becomes "a-b" + ".mp4". |
| Attachment.PaddedMp4Kept | backend/main.py:69-71 | A clean name ending in ".mp4" in any case, padded with one blank on each side (such as " clip.MP4 "), is sent as the bare name: the blanks are removed and the name is not extended. |
| Attachment.DispositionNamesSafeFile | backend/main.py:72 | The quoted name in every download header is the sanitised name. It has no slash and ends in ".mp4". |
| Attachment.DispositionLatin1 | backend/main.py:72-73 | The header value can be encoded as Latin-1 exactly when the name can. |
| Attachment.Latin1NameIsHeaderSafe | backend/main.py:69-73 | A missing file name, or one made only of Latin-1 characters, gives a header that can be encoded as Latin-1. |
| Attachment.WideCharacterRefused | backend/main.py:69-73 | A file name with a non-whitespace character above U+00FF gives a header that cannot be encoded as Latin-1. |
| Relay.ProxyStream | backend/main.py:39-50 | A request exception gives 504 if and only if it is a timeout, else 502. A non-200 status gives that status with "Upstream error while streaming". A 200 keeps the body and uses the upstream `Content-Type` if present, else "application/octet-stream". |
| Relay.IterChunks | backend/main.py:52-55 | The loop emits exactly the non-empty upstream chunks, in order. None of them is empty, and together they hold the upstream bytes. |
| Relay.StreamVideo | backend/main.py:60-63 | `/api/stream` answers with the `_proxy_stream` error if there is one. If the content type is not Latin-1, building the response fails with a 500. Otherwise it streams the relayed chunks under the upstream content type, with no extra headers. |
| Relay.DownloadVideo | backend/main.py:66-73 | `/api/download` reports upstream errors before it looks at the file name. If the content type or the `Content-Disposition` value is not Latin-1, building the response fails with a 500. Otherwise it streams the relayed chunks with `Content-Disposition` set to the header for the sanitised name. |
| Relay.DispositionHeaderEncodable | backend/main.py:72-73 | With only the `Content-Disposition` header, the response can be built exactly when the media type and the header value are Latin-1. |
| Relay.UpstreamContentTypeEncodable | backend/main.py:50 | A content type taken from Latin-1 upstream headers, or the default, is Latin-1. So `/api/stream` never fails while building its response. |
| Relay.NoEmptyChunks | backend/main.py:54-55 | No relayed chunk is empty. |
| Relay.SameBytes | backend/main.py:52-55 | The relayed chunks concatenate to exactly the upstream bytes, in the same order. |
| Relay.KeepsExactlyNonEmpty | backend/main.py:53-55 | A chunk is relayed if and only if it is an upstream chunk and is not empty. |
| Relay.RelayIsIncremental | backend/main.py:52-55 | Relaying a body in two parts gives the same chunks as relaying it whole. So forwarding each chunk as it arrives gives the same result as filtering the complete body. |
| Relay.EmptyBodyRelaysNothing | backend/main.py:52-55 | No chunks are emitted if and only if the upstream body has no bytes. |
| Relay.ChunksStayBounded | backend/main.py:53 | If every upstream read is at most 64 KiB, so is every relayed chunk. |

## Left out

- The network calls, their 20 s and 30 s timeouts, and `resp.json()` decoding are not modelled. Their results are inputs: the `Outcome`, the `Body` and the `Media` values.
- Exception texts are opaque strings supplied by the caller. The model does not derive them from `requests`.
- The FastAPI application, the CORS middleware and the `/test` liveness endpoint are framework configuration with no logic.
- The lazy delivery of `StreamingResponse` is not modelled. A streaming reply holds the complete sequence of chunks it would deliver. Client disconnects, connection release and mid-stream upstream failures are also left out.
- Uncaught exceptions are not modelled in detail. `Resolver.Uncaught` and `Relay.InternalError` stand for the framework's generic 500 response, without its body. The upstream connection left open when the streaming response cannot be built is not modelled.
- JSON numbers are modelled as exact reals. Rounding to binary floating point is not modelled, nor are the `NaN` and `Infinity` literals that Python's `json` accepts.
- Response headers are a map keyed by lower-cased header name. This matches the case-insensitive lookup in `requests`. How urllib3 merges duplicate headers is not modelled.
- `PyStr.EndsWithMp4` models `s.lower().endswith(".mp4")` by looking at the last four characters of `s`. This is exact only because 'M' and 'P' are the only characters whose lower case is 'm' or 'p'. Full Unicode lower-casing is not modelled.
- Relay.StreamVideo: `mediaType` is the `media_type` argument. The "; charset=utf-8" suffix that the framework adds for `text/*` media types is not modelled.
