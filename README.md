# aws-s3-mcp in Dafny

A Dafny model of the core of aws-s3-mcp, an MCP (Model Context Protocol)
server. The server exposes S3 buckets to a language-model client through
three tools: `list-buckets`, `list-objects` and `get-object`. The model covers:

- **S3 resource** (`s3_resource.dfy`, module `S3`):
  - the bucket allow-list parsed from `S3_BUCKETS`;
  - the bucket limit from the constructor or `S3_MAX_BUCKETS`;
  - the allow-list filter and truncation of a bucket listing;
  - the allow-list guard in front of object listing and retrieval;
  - retrieval itself: chunk concatenation, then text/PDF/binary classification and the matching result shape.

  `S3Resource` is a class with constant fields set by its constructor. `GetObject` is a method with the chunk-gathering loop of the source.
- **Tools** (`get_object_tool.dfy`, `list_objects_tool.dfy`, `list_buckets_tool.dfy`, `error_response.dfy`):
  - argument defaulting;
  - the success envelope;
  - the error envelope of `createErrorResponse`;
  - the binary preview, which is base64 (section 4 of RFC 4648, `base64.dfy`) cut to 100 characters.
- **Response adapters** (`http_mock.dfy`, module `HttpMock`):
  - the Node request built for the protocol transport;
  - the buffering response object (class `MockResponse`) and its `getResponse`;
  - the streaming response object (class `StreamingResponse`), which forwards writes to a writer (class `ChunkSink`).

  Each method of the classes is specified by a pure transition function (`Apply`, `StreamApply`) on the object's state. The laws of a whole sequence of calls (`Replay`) are proved as lemmas.
- **HTTP transport** (`http_transport.dfy`, module `Http`):
  - the configuration defaults;
  - the session registry (class `HttpTransport`): insert-if-absent, delete on bind failure, clear on disconnect;
  - the `POST /mcp` route: Accept rewrite, session-id precedence, the forwarded buffered response and the 500 fallback;
  - the `GET /sse` reply.
- **Start-up decisions** (`application.dfy`, `transports.dfy`): `parseArgs` and `createTransportFactory`.

JavaScript semantics the decisions depend on are modelled as such:

- `||` on strings and numbers (falsy: `undefined`, `""`, `0`, `NaN`);
- `Number.parseInt(_, 10)` (`js_number.dfy`);
- `Array.prototype.slice(0, n)` with NaN and negative `n`;
- `String.prototype.split` with empty pieces kept;
- `trim()` with the ECMAScript white-space set (`js_string.dfy`).

Calls into code outside the model are parameters:

- the S3 client `send`;
- `pdf-parse`;
- UTF-8 decoding;
- `JSON.stringify`;
- the resource operations as the tools see them;
- the protocol transport's `handleRequest`;
- `server.connect`;
- `crypto.randomUUID`;
- `process.env`.

## Model

| member | source | states |
|---|---|---|
| S3.ClientOptionsOf | src/resources/s3.ts:20-40 | region is `AWS_REGION` when set and non-empty, else the argument, else "us-east-1"; credentials exactly when both keys are truthy; endpoint exactly when `AWS_ENDPOINT` is truthy; path-style addressing exactly when `AWS_S3_FORCE_PATH_STYLE` is "true" |
| S3.NonBlank | src/resources/s3.ts:58 | every kept entry is one of the given pieces, unchanged, and there are no more of them than pieces |
| S3.NonBlankComplete | src/resources/s3.ts:58 | no piece that is not blank is dropped |
| S3.NonBlankEntries | src/resources/s3.ts:58 | every kept entry is not blank (not all ECMAScript white space) |
| S3.NonBlankTrimmed | src/resources/s3.ts:58 | every kept entry trims to a non-empty string |
| S3.NonBlankAppend | src/resources/s3.ts:58 | the filter keeps order: filtering a concatenation is the concatenation of the filtered parts |
| S3.ConfiguredBuckets | src/resources/s3.ts:55-59 | each entry of the allow-list is one of the comma-separated pieces of `S3_BUCKETS` (of "" when unset) |
| S3.ConfiguredBucketsEntries | src/resources/s3.ts:55-59 | allow-list entries are never blank and contain no comma |
| S3.ConfiguredBucketsComplete | src/resources/s3.ts:57-58 | every comma-separated piece of `S3_BUCKETS` that is not blank is in the allow-list |
| S3.NoConfiguredBuckets | src/resources/s3.ts:57-58 | an unset or empty `S3_BUCKETS` gives the empty allow-list |
| S3.ConfiguredBucketsSingle | src/resources/s3.ts:57-58 | a single non-empty entry without commas is the whole allow-list, untrimmed, unless it is blank, which gives [] |
| S3.ConfiguredBucketsAppend | src/resources/s3.ts:57-58 | joining two lists with "," concatenates their allow-lists, in order |
| S3.MaxBucketsOf | src/resources/s3.ts:45-50 | the limit is the constructor argument when given, else `S3_MAX_BUCKETS` parsed base 10 when truthy, else 5 |
| S3.MaxBucketsFromEnvironment | src/resources/s3.ts:48-49 | `S3_MAX_BUCKETS=1` gives the limit 1 |
| S3.IsTextContentType | src/resources/s3.ts:180-186 | a text content type is never empty (so an absent type never makes a key text), never "application/octet-stream" and never "application/pdf" |
| S3.BucketsJson | src/tools/listBuckets.ts:48 | the JSON of a bucket list has one entry per bucket, in order, carrying its name |
| S3.ObjectsJson | src/tools/listObjects.ts:57 | the JSON of a listing has one entry per object, in order, carrying its key |
| S3.EndsWithAny | src/resources/s3.ts:217 | true exactly when the key ends with some extension of the list |
| S3.IsTextFile | src/resources/s3.ts:175-223 | text exactly when the content type (absent = "", case kept) starts with "text/" or is one of the three application types, or the lower-cased key ends with one of the 23 extensions |
| S3.ClassificationIgnoresKeyCase | src/resources/s3.ts:175-228 | both classifications give the same answer for a key and its lower-cased form |
| S3.UpperCasePdfExtension | src/resources/s3.ts:228-230 | a key ending in ".PDF" is a PDF whatever the content type |
| S3.PdfKeyIsNotTextByName | src/resources/s3.ts:192-230 | a ".pdf" key is a PDF, and is text only through a text content type |
| S3.NotTextByName | src/resources/s3.ts:175-223 | a key whose last two lower-cased characters are not the last two of any text extension matches no extension, and such a key is text exactly when its content type is |
| S3.ConvertPdfToText | src/resources/s3.ts:235-243 | the extractor's text, or exactly "Error: Could not extract text from PDF file." when it fails |
| S3.ContentTypeOf | src/resources/s3.ts:137 | never empty: the backend's content type when present and non-empty, else "application/octet-stream" |
| S3.NotAllowed | src/resources/s3.ts:99-101 | the refusal is an `Error` object, so the tools describe it by its message |
| S3.ConcatAppend | src/resources/s3.ts:149 | concatenating chunks distributes over appending chunk lists |
| S3.ConcatAt | src/resources/s3.ts:145-149 | byte j of chunk i sits right after all earlier chunks in the concatenation |
| S3.S3Resource.constructor | src/resources/s3.ts:18-53 | the client options, the bucket limit and the allow-list are the functions above of the environment and arguments; the allow-list is valid |
| S3.S3Resource.Admits | src/resources/s3.ts:95-102 | an empty allow-list admits every bucket, a non-empty one exactly its entries |
| S3.S3Resource.Listed | src/resources/s3.ts:81 | a bucket passing the filter has a name that is in the allow-list; a bucket without a name, or whose name is not listed, does not pass |
| S3.S3Resource.ListedIffNamed | src/resources/s3.ts:81 | with a valid allow-list, a bucket passes the filter exactly when its name is present and in the list |
| S3.S3Resource.KeepListed | src/resources/s3.ts:80-81 | every kept bucket passes the filter and comes from the input |
| S3.S3Resource.KeepListedAppend | src/resources/s3.ts:80-81 | the filter keeps backend order |
| S3.S3Resource.KeepListedComplete | src/resources/s3.ts:80-81 | no bucket that passes the filter is dropped |
| S3.S3Resource.ListBuckets | src/resources/s3.ts:70-89 | a backend error is passed on; a missing `Buckets` gives []; otherwise the first `maxBuckets` of the filtered (non-empty allow-list) or unfiltered listing; never more than a non-negative `maxBuckets` |
| S3.S3Resource.ListObjects | src/resources/s3.ts:92-116 | a bucket outside a non-empty allow-list fails with "Bucket X is not in the allowed buckets list" whatever the backend says; otherwise one request with the arguments (defaults "" and 1000) and a missing `Contents` gives [] |
| S3.S3Resource.GetObject | src/resources/s3.ts:119-172 | the guard first; backend errors passed on; a non-stream body fails; a stream that fails while it is read gives its error; otherwise the data is the in-order concatenation of the chunks; text beats PDF beats binary; octet-stream when no content type |
| S3Examples.TextByExtension | src/resources/s3.ts:192-218 | "file.txt", "file.json" and "file.html" are text by their names |
| S3Examples.NotTextByExtension | src/resources/s3.ts:175-223 | "file.jpg", "file.png" and "file.zip" with no content type are not text |
| S3Examples.TextByContentType | src/resources/s3.ts:180-186 | "text/plain", "application/json" and "application/xml" make a key text |
| S3Examples.NotTextByContentType | src/resources/s3.ts:175-223 | "image/jpeg", "application/octet-stream" and "TEXT/PLAIN" do not make a key text: the content type is compared as given, not lower-cased |
| S3Examples.PdfExamples | src/resources/s3.ts:226-232 | "file.pdf", "file.PDF" and any key typed "application/pdf" are PDFs; "file.txt" and "file.jpg" without a type, and keys typed "text/plain" or "image/jpeg", are not |
| JsString.TrimEmptyIffBlank | src/resources/s3.ts:58 | `trim() === ""` exactly when every character is ECMAScript white space |
| JsString.Trim | src/resources/s3.ts:58 | the result is never longer, starts and ends with no white space, and is the text itself when the text has none at either end |
| JsString.JoinSplit | src/resources/s3.ts:58 | splitting loses nothing: joining the pieces with the separator gives the text back |
| JsString.Split | src/resources/s3.ts:58 | there is always at least one piece, even for the empty text |
| JsString.SplitPiecesHaveNoSeparator | src/resources/s3.ts:58 | no piece of a split contains the separator |
| JsString.SplitAppend | src/resources/s3.ts:58 | splitting `a + "," + b` is splitting `a` followed by splitting `b` |
| JsString.ToLower | src/resources/s3.ts:177 | the same length, each character lower-cased |
| JsString.ToLowerIdempotent | src/resources/s3.ts:177 | lower-casing twice is lower-casing once |
| JsNumber.ParseDecimal | src/resources/s3.ts:49 | parsing the decimal text of a natural number, followed by anything but a digit, gives the number |
| JsNumber.ParseNegativeDecimal | src/application.ts:50 | the same with a leading minus gives the negated number |
| JsNumber.ParseInt10 | src/resources/s3.ts:49 | NaN exactly when no decimal digit follows the leading white space and the optional sign |
| JsNumber.SlicePrefix | src/resources/s3.ts:82-84 | `slice(0, n)` is a prefix; NaN gives []; a non-negative n gives min(n, length) elements; a negative n drops that many from the end |
| Base64.Encode | src/tools/getObject.ts:66 | the encoding has 4 characters per started group of 3 bytes |
| Base64.EncodeUsesAlphabet | src/tools/getObject.ts:66 | every character is from the RFC 4648 alphabet or the "=" pad |
| Base64.DecodeEncode | src/tools/getObject.ts:66 | decoding the encoding gives the bytes back |
| Base64.EncodeAppend | src/tools/getObject.ts:66 | encoding is compositional at multiples of 3 bytes |
| Base64.Preview | src/tools/getObject.ts:66 | the preview is the first min(100, length) characters of the encoding |
| Base64.PreviewOfPrefix | src/tools/getObject.ts:66 | the preview depends only on the first 75 bytes and is then their whole encoding |
| Base64.PreviewShowsShortData | src/tools/getObject.ts:66 | for at most 75 bytes the preview decodes to the data |
| Base64.TestVectors | src/tools/getObject.ts:66 | the encoding gives the seven test vectors of section 10 of RFC 4648, "" to "Zm9vYmFy" |
| Errors.Describe | src/helpers/createErrorResponse.ts:16 | an `Error` is described by its message, any other thrown value by its string form |
| ErrorResponse.ChosenMessage | src/helpers/createErrorResponse.ts:16 | the given message when non-empty, else the error's description |
| ErrorResponse.CreateErrorResponse | src/helpers/createErrorResponse.ts:8-32 | one text item, `isError` true, text "Error: " + the chosen message |
| ErrorResponse.Success | src/tools/getObject.ts:51-59 | a success envelope is one text item and no `isError` |
| ErrorResponse.ErrorIsNotSuccess | src/helpers/createErrorResponse.ts:23-31 | an error envelope is never a success envelope, whatever its text |
| ErrorResponse.ToolErrorText | src/tools/getObject.ts:70-75 | a tool's "context: description" message reaches the text after "Error: " unchanged |
| GetObjectTool.Execute | src/tools/getObject.ts:43-76 | asks for (bucket, key) only; text data verbatim; binary data as "Binary content (ct): base64 data is <preview>..."; any error as "Error: Error getting object k from bucket b: <description>" with `isError` true |
| GetObjectTool.BinaryText | src/tools/getObject.ts:66 | "Binary content (ct): base64 data is ", then at most 100 leading characters of the base64 encoding, then "..." |
| GetObjectTool.ErrorContext | src/tools/getObject.ts:73 | the failure message names the key after "Error getting object " and ends with " from bucket " and the bucket |
| GetObjectTool.ExecuteAsksOnlyForItsObject | src/tools/getObject.ts:44-47 | two resources that give the same answer for (bucket, key) give the same envelope |
| GetObjectTool.BinaryPreviewIsWholeForShortData | src/tools/getObject.ts:66 | for data of at most 75 bytes the binary text shows the whole encoding, which decodes to the data |
| GetObjectTool.RefusedBucket | src/tools/getObject.ts:70-75 | a bucket refused by the allow-list gives "Error: Error getting object k from bucket b: Bucket b is not in the allowed buckets list" |
| GetObjectTool.RefusalText | src/tools/getObject.ts:70-75 | the refusal seen by the caller starts with "Error: Error getting object " and the key, and ends with ": Bucket ", the bucket and " is not in the allowed buckets list" |
| ListObjectsTool.EffectivePrefix | src/tools/listObjects.ts:50 | `prefix \|\| ""`: a non-empty prefix is kept, absent or empty gives "" |
| ListObjectsTool.EffectiveMaxKeys | src/tools/listObjects.ts:51 | `maxKeys \|\| 1000`: a non-zero value is kept, absent or 0 gives 1000 |
| ListObjectsTool.ArgumentsPassThrough | src/tools/listObjects.ts:48-52 | a non-empty prefix and a non-zero `maxKeys` reach the resource unchanged: only the answer for exactly those arguments matters |
| ListObjectsTool.DefaultsAreFalsyValues | src/tools/listObjects.ts:50-51 | leaving the arguments out, passing "" and 0, and passing "" and 1000 give the same envelope |
| ListObjectsTool.Execute | src/tools/listObjects.ts:44-67 | one listing with the defaulted arguments; its JSON as the only text item without `isError`, or "Error: Error listing objects in bucket b: <description>" with `isError` true |
| ListObjectsTool.ListingJson | src/tools/listObjects.ts:57 | the listing JSON has one entry per object, in order, each carrying the key |
| ListBucketsTool.Execute | src/tools/listBuckets.ts:41-58 | the JSON of the buckets as the only text item without `isError`, or "Error: Error listing buckets: <description>" with `isError` true |
| ListBucketsTool.IgnoresArguments | src/tools/listBuckets.ts:41-43 | the arguments make no difference to the envelope |
| ListBucketsTool.BucketListJson | src/tools/listBuckets.ts:48 | the bucket JSON has one entry per bucket, in order, each carrying the name |
| HttpMock.HeaderEntries | src/utils/httpMock.ts:4 | the request's header entries: every name lower-cased; a name for each header sent, and no name that was not sent |
| HttpMock.HeaderSentOnce | src/utils/httpMock.ts:4 | a header sent once, in any spelling, is found under its lower-cased name with the value sent |
| HttpMock.RepeatedHeaderJoined | src/utils/httpMock.ts:4 | a header sent twice under two spellings of one name carries both values joined with ", " in the order sent |
| HttpMock.CreateMockNodeRequest | src/utils/httpMock.ts:3-33 | the target is the path followed by the query string; the headers are the lower-cased header entries of the request; the body is kept; HTTP/1.1 from 127.0.0.1:0 |
| HttpMock.RequestTargetPath | src/utils/httpMock.ts:9 | the path is the part of the target before the first "?" |
| HttpMock.AppendBody | src/utils/httpMock.ts:80-85 | appending makes the body text the old text followed by the data |
| HttpMock.HeaderOf | src/utils/httpMock.ts:63-71 | a lookup finds exactly the header stored under the lower-cased name |
| HttpMock.Apply | src/utils/httpMock.ts:50-98 | the status changes only by `writeHead`, to its code; headers only by `writeHead`, `setHeader` and `removeHeader`; the body only by `write` and `end`; `writeHead` and `flushHeaders` mark headers sent; `end` marks ended and finished; the `statusCode` property changes only by assignment |
| HttpMock.UnsignedShort | src/utils/httpMock.ts:144 | the Web IDL `unsigned short` value of a status code: in 0 to 65535, the code itself in that range, and equal to the code modulo 2^16 |
| HttpMock.NewResponse | src/utils/httpMock.ts:143-147 | the status is taken as an `unsigned short`; that value outside 200 to 599 throws; a body with a null body status (101, 103, 204, 205, 304) throws; otherwise the response carries exactly the body, that status, the status text and the headers given |
| HttpMock.Respond | src/utils/httpMock.ts:140-148 | nothing until `end`; then a response exactly when the `unsigned short` value of the `writeHead` status is in 200 to 599 and is not a null body status with a body, else the constructor's error; the response carries the body, that status value, the headers, and status text "OK" exactly when the code as written is 200, otherwise "Error" |
| HttpMock.ReplayBody | src/utils/httpMock.ts:80-97 | the body is the concatenation, in call order, of every `write` and every non-empty `end` payload |
| HttpMock.ReplayStatus | src/utils/httpMock.ts:40-52 | the status is the last `writeHead` code, or 200 |
| HttpMock.ReplayEnded | src/utils/httpMock.ts:88-141 | the response is ended, and `getResponse` resolves, exactly when `end` was called |
| HttpMock.StatusCodeAssignmentIgnored | src/utils/httpMock.ts:98-143 | assigning the `statusCode` property changes nothing `getResponse` reports |
| HttpMock.WriteHeadMerges | src/utils/httpMock.ts:51-58 | `writeHead` headers override stored ones of the same name and keep the rest |
| HttpMock.LowerCaseHeaderFound | src/utils/httpMock.ts:59-75 | a header set under a lower-case name is found under any spelling and removed by any spelling |
| HttpMock.MixedCaseHeaderNotFound | src/utils/httpMock.ts:59-65 | a header set as "Content-Type" is not found by `getHeader("Content-Type")` |
| HttpMock.MockResponse.constructor | src/utils/httpMock.ts:39-44 | a fresh response: status 200, no headers, no body, nothing sent or ended |
| HttpMock.MockResponse.WriteHead | src/utils/httpMock.ts:51-58 | sets the status, merges the headers when given, marks headers sent |
| HttpMock.MockResponse.SetHeader | src/utils/httpMock.ts:59-62 | stores the value under the exact name |
| HttpMock.MockResponse.RemoveHeader | src/utils/httpMock.ts:72-75 | deletes the lower-cased name |
| HttpMock.MockResponse.GetHeader | src/utils/httpMock.ts:63-65 | found exactly when the lower-cased name is stored, with the stored value |
| HttpMock.MockResponse.GetHeaders | src/utils/httpMock.ts:66-68 | the stored headers |
| HttpMock.MockResponse.HasHeader | src/utils/httpMock.ts:69-71 | true exactly when `getHeader` finds the header |
| HttpMock.MockResponse.FlushHeaders | src/utils/httpMock.ts:76-79 | marks headers sent and nothing else |
| HttpMock.MockResponse.Write | src/utils/httpMock.ts:80-87 | appends the data and answers true |
| HttpMock.MockResponse.End | src/utils/httpMock.ts:88-97 | appends a non-empty payload, marks ended and finished |
| HttpMock.MockResponse.AssignStatus | src/utils/httpMock.ts:98 | only the `statusCode` property changes, not the status `getResponse` reports |
| HttpMock.MockResponse.PerformAll | src/utils/httpMock.ts:50-138 | performing a sequence of calls leaves the state that replaying them gives |
| HttpMock.MockResponse.GetResponse | src/utils/httpMock.ts:140-148 | pending exactly until `end`; then the response `Respond` gives for the current state |
| HttpMock.PushChunk | src/utils/httpMock.ts:172-175 | a write to an open writer appends the chunk; to a closed one it leaves the chunks alone and is one more rejected promise |
| HttpMock.CloseWriter | src/utils/httpMock.ts:180 | the writer is closed and keeps its chunks; closing it again is one more rejected promise |
| HttpMock.StreamApply | src/utils/httpMock.ts:157-181 | only `write` and `end` reach the writer; `end` closes it; on an open writer no promise is rejected; on a closed one no chunk is added and every writer call is rejected |
| HttpMock.StreamingAgreesBeforeEnd | src/utils/httpMock.ts:172-175 | before `end` the writer is open, nothing was rejected, and it has received exactly the text the buffering response collects |
| HttpMock.StreamingAgreesAtEnd | src/utils/httpMock.ts:176-181 | after a final `end` the writer is closed, nothing was rejected, and it has received the buffered response's whole body |
| HttpMock.NothingAfterClose | src/utils/httpMock.ts:172-181 | once the writer is closed no chunk reaches it; every later writer call is a rejected promise, so there is a rejection exactly when some `write` or `end` follows |
| HttpMock.EndTwiceRejects | src/utils/httpMock.ts:176-181 | a second `end` is a rejected close |
| HttpMock.ChunkSink.Write | src/utils/httpMock.ts:173 | the writer records the chunk, or counts a rejection when closed |
| HttpMock.ChunkSink.Close | src/utils/httpMock.ts:180 | the writer is closed and keeps its chunks; a second close counts a rejection |
| HttpMock.StreamingResponse.constructor | src/utils/httpMock.ts:153-156 | the response forwards to the given writer |
| HttpMock.StreamingResponse.Write | src/utils/httpMock.ts:172-175 | forwards the data to the writer and answers true |
| HttpMock.StreamingResponse.End | src/utils/httpMock.ts:176-181 | forwards a non-empty payload, then closes the writer |
| HttpMock.StreamingResponse.GetHeader | src/utils/httpMock.ts:163 | always undefined |
| HttpMock.StreamingResponse.HasHeader | src/utils/httpMock.ts:165 | always false |
| Http.PortOf | src/transports/http.ts:25 | `port \|\| 3000`: never 0; a truthy port is kept; absent, 0 or NaN gives 3000 |
| Http.ConfigOf | src/transports/http.ts:23-37 | origin falls back to "*" when empty; method and header lists fall back only when absent |
| Http.MiddlewareUsesConfig | src/transports/http.ts:42-52 | the middleware's own fallbacks never apply |
| Http.MiddlewareCors | src/transports/http.ts:46-50 | the origin is never empty and a non-empty configured origin is kept; the method and header lists are passed as configured |
| Http.SessionKey | src/transports/http.ts:131 | a truthy session id is used, otherwise the generated one |
| Http.SessionStep | src/transports/http.ts:130-155 | a session answered is stored under the id; the only failure is "Server instance is required", with the registry unchanged; at most the id is added; a known id changes nothing |
| Http.SessionStepLaws | src/transports/http.ts:130-155 | the registry stays valid; a session answered is stored under its id and reports that id; it fails exactly for an unknown id without a server, changing nothing; other ids untouched |
| Http.SessionStepIdempotent | src/transports/http.ts:133-136 | asking again for an id just answered returns the same session and changes nothing |
| Http.ExistingSessionKeepsServer | src/transports/http.ts:133-136 | a stored session is returned as stored and the registry is unchanged |
| Http.Or | src/transports/http.ts:67-80 | `a \|\| b` on possibly undefined strings |
| Http.AcceptOf | src/transports/http.ts:67 | `accept` when truthy, else `Accept` |
| Http.NormalizeAccept | src/transports/http.ts:67-71 | afterwards the accept value is never the bare "text/event-stream"; the headers change only when it was |
| Http.NormalizeAcceptLaws | src/transports/http.ts:67-71 | after the rewrite the accept value is never exactly "text/event-stream"; an event-stream-only value becomes "application/json, text/event-stream" under both names; other values and headers are unchanged; the rewrite is idempotent |
| Http.ApplySessionQuery | src/transports/http.ts:74-77 | a truthy `sessionId` becomes the `mcp-session-id` header; a falsy one changes nothing; other headers are untouched |
| Http.PrepareRequest | src/transports/http.ts:63-77 | a POST whose target is the path and query string, with the body kept; a truthy `sessionId` becomes `mcp-session-id`; every header other than `accept`, `Accept` and `mcp-session-id` is the request's header entry of that name |
| Http.EffectiveId | src/transports/http.ts:79-80 | a truthy `sessionId` wins; the id is always one of the query value, `mcp-session-id` and `x-mcp-session-id` |
| Http.SessionIdPrecedence | src/transports/http.ts:74-80 | the session id is the query value if truthy, else the `mcp-session-id` entry if truthy, else the `x-mcp-session-id` entry, whatever the spelling the client used |
| Http.ClientAcceptIsLowerCase | src/transports/http.ts:67 | no client header reaches the route as `Accept`: the Accept value read is the `accept` entry when truthy, else none |
| Http.MixedCaseSessionHeaderCounts | src/transports/http.ts:79-80 | a session id sent as `Mcp-Session-Id: abc` without a query parameter is the id `abc` |
| Http.HeaderAgreesWithRegistry | src/transports/http.ts:75-81 | a truthy `mcp-session-id` header seen by the transport is the id the registry used |
| Http.Forward | src/transports/http.ts:86-93 | either a 500 or the response's status (as an `unsigned short`), status text, headers and body text; forwarded exactly when that status is in 200 to 599 and is not a null body status |
| Http.OutcomeOf | src/transports/http.ts:82-96 | a rejection gives the 500 reply `{"error": "Internal server error"}`; a forwarded reply always has a status in 200 to 599 that is not a null body status |
| Http.OutcomeOfRun | src/transports/http.ts:82-96 | a rejection gives 500; no `end` keeps the request waiting; otherwise, when the `unsigned short` value of the last `writeHead` code (200 without one) is in 200 to 599 and is not 204, 205 or 304, that value with the status text of the code as written, the headers and the written text, and for any other value a 500 |
| Http.NoContentBecomesInternalError | src/transports/http.ts:89-95 | a transport answering 204 with an empty body gets the client a 500, since the route always passes a body |
| Http.WrappedStatusIsForwarded | src/utils/httpMock.ts:143-147 | `writeHead(65736)` then `end("x")` reaches the client as 200 with status text "Error" and body "x" |
| Http.ServeRun | src/transports/http.ts:82-96 | performing the run on a fresh buffering response and forwarding what `getResponse` gives yields `OutcomeOf` of the run |
| Http.SseReply | src/transports/http.ts:100-123 | 200 with the five event-stream headers of the route (`SseHeaders`) when the server connects, else 500 |
| Http.SseEndpoint | src/transports/http.ts:107 | "/mcp?sessionId=" followed by the id, which can be read back from index 15 |
| Http.SseEndpointTargetsPost | src/transports/http.ts:107 | the endpoint path handed to the SSE transport has path "/mcp" and carries the session id after "sessionId=" |
| Http.SseIdStartsNewSession | src/transports/http.ts:130-148 | a POST to that endpoint path with an id no registered session has does not reach the SSE transport: it creates a new streamable session under the id, or fails without a server |
| Http.HttpTransport.constructor | src/transports/http.ts:23-37 | the configuration is `ConfigOf` of the argument and the registry is empty |
| Http.HttpTransport.GetOrCreateSession | src/transports/http.ts:130-155 | the answer and the new registry are those of `SessionStep` for the resolved id |
| Http.HttpTransport.BindFailed | src/transports/http.ts:150-152 | the id's entry is deleted, the rest kept |
| Http.HttpTransport.Disconnect | src/transports/http.ts:168-170 | the registry is empty |
| Http.HttpTransport.ListenPort | src/transports/http.ts:160-163 | the server listens on the configured port |
| Http.HttpTransport.HandlePost | src/transports/http.ts:61-97 | a body that is not JSON gives 500 and no change; otherwise the registry steps for the resolved id, a missing server gives 500, and the reply is `OutcomeOf` the transport's run on the rewritten request (500 for a rejection and for a status a new `Response` refuses) |
| Transports.CreateTransportFactory | src/transports/index.ts:5-15 | "stdio" gives the stdio factory, "http" and "sse" the HTTP factory, anything else fails with "Unsupported transport type: " + the value |
| Transports.EveryTypeHasFactory | src/transports/index.ts:5-15 | every declared transport type has a factory, the stdio one only for STDIO |
| Application.EnvPort | src/application.ts:50 | PORT parsed base 10 when truthy, else 3000 |
| Application.WantsHttp | src/application.ts:49 | HTTP is asked for when "--http" is an argument or `MCP_TRANSPORT` is exactly "http", and only then |
| Application.ParseArgs | src/application.ts:48-56 | HTTP exactly when "--http" is an argument or `MCP_TRANSPORT` is "http", else STDIO; an HTTP config exactly for HTTP, carrying the port |
| Application.OnlyHttpFlagMatters | src/application.ts:49 | arguments other than "--http" do not matter |
| Application.ParsedTransportHasFactory | src/application.ts:53 | the parsed transport always has a factory, the HTTP one exactly when HTTP was asked for |
| Application.ListeningPort | src/application.ts:50 | the HTTP server listens on PORT when it parses to a non-zero integer, else on 3000 |
| Application.EnvPortOfDecimal | src/application.ts:50 | PORT holding the decimal digits of any m is read as the number m |
| Application.ListeningPortOfDecimal | src/application.ts:50 | PORT holding the decimal digits of m makes the server listen on m, or on 3000 when m is 0 |
| Application.Port8080 | src/application.ts:50 | PORT=8080 is read as 8080 |
| Application.Port0 | src/application.ts:50 | PORT=0 is read as 0 |
| Application.ListeningPort8080 | src/application.ts:50 | PORT=8080 makes the server listen on 8080 |
| Application.ListeningPortZero | src/application.ts:50 | PORT=0 makes the server listen on the default 3000 |

## Left out

- Network and framework: Hono routing and middleware, `serve`, the health route and its clock, and the `GET /mcp` redirect. These are I/O or framework behaviour.
- The protocol SDK: `StreamableHTTPServerTransport`, `SSEServerTransport`, `McpServer.connect`, and the stdio transport. A transport's handling of a request is an input: the calls it makes on the response and whether it rejects.
- Bind failure: the asynchronous rejection of `server.connect` is the separate method `BindFailed`. Interleavings of concurrent requests are not modelled.
- The response object of `POST /mcp` is created inside `HandlePost`; the calls the transport makes on it are replayed in order after the run, not interleaved with it.
- `Headers` normalisation in `getResponse` and in the forwarded reply: header names are kept as stored. The `Object.fromEntries` copy of the response headers is the identity.
- `c.req.json()` parse errors are an input (`body` is `None`); URL parsing of the request is an input (path, query string and `sessionId` value given separately).
- Rendering: `JSON.stringify` is a parameter, and so is the text of the 500 JSON body written by the framework. The model fixes which value is rendered.
- Encodings: UTF-8 decoding (`toString("utf-8")`) is a parameter. `TextEncoder` in the streaming response is left out: the writer records the strings.
- `toLowerCase` maps only the ASCII letters.
- Numbers: `Number.parseInt` is modelled on its integer results and NaN. Precision loss above 2^53 and non-integer arguments (`maxBuckets`, `maxKeys`, `port`, the `writeHead` code) are left out.
- Logging (`logError`, `console.error`, `console.log`), `dotenv`, `showHelp`, `showVersion` and `Application.start` with `process.exit`.
- The no-op methods of the streaming response (`writeHead`, `setHeader`, `removeHeader`, `flushHeaders`) have no member: they change nothing.
- `getHeaders` on the buffering response returns the same map of values; its copy semantics are left out.
- S3.IsPdfFile: carries no contract of its own; its behaviour is stated by `S3Examples.PdfExamples`, `S3.UpperCasePdfExtension` and `S3.PdfKeyIsNotTextByName`.
- S3.Concat: carries no contract of its own; its meaning is stated by `S3.ConcatAt` and `S3.ConcatAppend`.
- HttpMock.Respond: the `TypeError` that `new Headers(...)` throws for an invalid header name or value is not modelled; every stored header is taken as valid.
- HttpMock.HeaderEntries: a fetch `Headers` object also strips leading and trailing whitespace from values, rejects invalid names and values, and lists each `set-cookie` header as its own entry (so the copy keeps the last one); the model joins every repeated name, `set-cookie` included, and takes names and values as sent.
- HttpMock.UnsignedShort: the conversion follows Web IDL, whose modulo is never negative. Node's fetch implementation computes it with the JavaScript `%`, so a negative code keeps its sign there: `writeHead(-65336)` makes `new Response` throw in Node and the route answer 500, while the model forwards status 200. `Http.Forward` and `Http.OutcomeOfRun` share this.
- Http.Forward: the same `Headers` validation of the response headers is not modelled. The status text is always "OK" or "Error", which the `Response` constructor accepts.
- HttpMock.HeaderOf: the stored headers are a plain object, so `getHeader` and `hasHeader` also see the property names of `Object.prototype` (`hasHeader("constructor")` is true). The lookup here sees only the stored headers; `HttpMock.MockResponse.GetHeader` and `HttpMock.MockResponse.HasHeader` share this.
- Http.Forward: `new Response` is modelled as the Fetch standard defines it, with its checks made when it is constructed. A runtime whose global `Response` defers those checks until the body is read would let the 204, 205 and 304 cases through the route's `try`; that variant is not modelled.
- HttpMock.ChunkSink.Write: the rejected promises of the writer after `close()` are counted, and are unhandled since nothing awaits them. What Node then does with an unhandled rejection (by default it ends the process) is not modelled. `HttpMock.PushChunk`, `HttpMock.ChunkSink.Close` and `HttpMock.NothingAfterClose` share this.
