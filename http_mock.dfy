/** The adapters that let a Node-style MCP transport run inside a fetch-style
    web server: a request object built from the incoming request, a response
    object that buffers everything written to it until `end`, and a response
    object that forwards every write to a stream writer. */
module HttpMock {
  import opened Wrappers
  import opened JsString
  import Json

  // ---------------------------------------------------------------- request

  /** The fields of the Node request object the transport reads. */
  datatype NodeRequest = NodeRequest(
    httpMethod: string,
    url: string,
    headers: map<string, string>,
    httpVersion: string,
    body: Json.Value,
    remoteAddress: string,
    remotePort: int)

  /** The request headers as the client sent them, in order: a name may come
      in any spelling, and more than once. */
  type RawHeaders = seq<(string, string)>

  /** `Object.fromEntries(headers.entries())` of the request's fetch
      `Headers`: every name is lower-cased, and the values sent under one
      name, in whatever spelling, are joined with ", " in the order sent. */
  function HeaderEntries(raw: RawHeaders): (m: map<string, string>)
    ensures forall k :: k in m ==> ToLower(k) == k
    ensures forall i :: 0 <= i < |raw| ==> ToLower(raw[i].0) in m
    ensures forall k :: k in m ==> exists i :: 0 <= i < |raw| && ToLower(raw[i].0) == k
    decreases |raw|
  {
    if |raw| == 0 then map[]
    else
      var init := raw[..|raw| - 1];
      var m := HeaderEntries(init);
      var name := ToLower(raw[|raw| - 1].0);
      var value := raw[|raw| - 1].1;
      ToLowerIdempotent(raw[|raw| - 1].0);
      assert forall i :: 0 <= i < |init| ==> init[i] == raw[i];
      m[name := if name in m then m[name] + ", " + value else value]
  }

  /** A header sent once, in any spelling, is found under its lower-cased
      name with the value sent. */
  lemma {:induction false} HeaderSentOnce(raw: RawHeaders, i: nat)
    requires i < |raw|
    requires forall j :: 0 <= j < |raw| && j != i ==> ToLower(raw[j].0) != ToLower(raw[i].0)
    ensures HeaderEntries(raw)[ToLower(raw[i].0)] == raw[i].1
    decreases |raw|
  {
    var init := raw[..|raw| - 1];
    var name := ToLower(raw[|raw| - 1].0);
    assert forall j :: 0 <= j < |init| ==> init[j] == raw[j];
    if i < |raw| - 1 {
      HeaderSentOnce(init, i);
      assert name != ToLower(raw[i].0);
    } else {
      assert name !in HeaderEntries(init) by {
        forall j | 0 <= j < |init|
          ensures ToLower(init[j].0) != name
        {
          assert init[j] == raw[j];
        }
      }
    }
  }

  /** A header sent twice, in two spellings, carries both values, joined in
      the order sent. */
  lemma RepeatedHeaderJoined(first: string, second: string, v: string, w: string)
    requires ToLower(first) == ToLower(second)
    ensures HeaderEntries([(first, v), (second, w)])[ToLower(first)] == v + ", " + w
  {
    var raw := [(first, v), (second, w)];
    assert raw[..1] == [(first, v)] && raw[..1][..0] == [];
    assert HeaderEntries(raw[..1]) == map[ToLower(first) := v];
  }

  /** `createMockNodeRequest(c, body)`: the request target is the URL's path
      followed by its query string; the headers are the lower-cased entries of
      the request's `Headers`; the already parsed body is handed over as it
      is; the peer is always 127.0.0.1:0 over HTTP/1.1. */
  function CreateMockNodeRequest(httpMethod: string, pathname: string, search: string,
                                 raw: RawHeaders, body: Json.Value): (r: NodeRequest)
    ensures r.httpMethod == httpMethod && r.headers == HeaderEntries(raw) && r.body == body
    ensures forall k :: k in r.headers ==> ToLower(k) == k
    ensures StartsWith(r.url, pathname) && r.url[|pathname|..] == search
    ensures r.httpVersion == "1.1" && r.remoteAddress == "127.0.0.1" && r.remotePort == 0
  {
    NodeRequest(httpMethod, pathname + search, HeaderEntries(raw), "1.1", body, "127.0.0.1", 0)
  }

  /** The path can be read back from the request target: it is everything up to
      the first '?', and the whole target when there is no query string. */
  lemma {:induction false} RequestTargetPath(httpMethod: string, pathname: string, query: string,
                                             headers: RawHeaders, body: Json.Value)
    requires '?' !in pathname
    ensures Split(CreateMockNodeRequest(httpMethod, pathname, "?" + query, headers, body).url, '?')[0] == pathname
    ensures Split(CreateMockNodeRequest(httpMethod, pathname, "", headers, body).url, '?') == [pathname]
  {
    var url := CreateMockNodeRequest(httpMethod, pathname, "?" + query, headers, body).url;
    assert url == pathname + ['?'] + query;
    SplitAppend(pathname, query, '?');
    SplitNoSeparator(pathname, '?');
    assert Split(url, '?') == [pathname] + Split(query, '?');
    assert pathname + "" == pathname;
  }

  // ------------------------------------------------- buffering response: spec

  /** Everything `getResponse` can observe about the buffering response, plus
      the `statusCode` property that callers may assign but that nothing reads. */
  datatype MockState = MockState(
    status: int,
    headers: map<string, string>,
    body: Option<string>,
    headersSent: bool,
    ended: bool,
    finished: bool,
    statusCodeField: int)

  /** The state right after `createMockNodeResponse()`: status 200, no headers,
      no body (`null`), nothing sent. */
  const Initial := MockState(200, map[], None, false, false, false, 200)

  /** One call a transport makes on a response object. */
  datatype ResponseCall =
    | WriteHeadCall(code: int, extra: Option<map<string, string>>)
    | SetHeaderCall(name: string, value: string)
    | RemoveHeaderCall(name: string)
    | FlushHeadersCall
    | WriteCall(data: string)
    | EndCall(final: Option<string>)
    | AssignStatusCode(code: int)

  /** The body as text; `null` reads as the empty text. */
  function BodyText(b: Option<string>): string {
    if b.None? then "" else b.value
  }

  /** `if (!responseData) responseData = data; else responseData += data;` */
  function AppendBody(b: Option<string>, data: string): (r: Option<string>)
    ensures r.Some? && BodyText(r) == BodyText(b) + data
  {
    if b.None? || b.value == "" then Some(data) else Some(b.value + data)
  }

  /** The header a name finds: lookups lower-case the name first. */
  function HeaderOf(headers: map<string, string>, name: string): (r: Option<string>)
    ensures r.Some? <==> ToLower(name) in headers
    ensures r.Some? ==> r.value == headers[ToLower(name)]
  {
    if ToLower(name) in headers then Some(headers[ToLower(name)]) else None
  }

  /** The effect of one call on the buffering response. */
  function Apply(s: MockState, c: ResponseCall): (r: MockState)
    ensures r.status == (if c.WriteHeadCall? then c.code else s.status)
    ensures !(c.WriteHeadCall? || c.SetHeaderCall? || c.RemoveHeaderCall?) ==> r.headers == s.headers
    ensures !(c.WriteCall? || c.EndCall?) ==> r.body == s.body
    ensures r.headersSent == (s.headersSent || c.WriteHeadCall? || c.FlushHeadersCall?)
    ensures r.ended == (s.ended || c.EndCall?) && r.finished == (s.finished || c.EndCall?)
    ensures r.statusCodeField == (if c.AssignStatusCode? then c.code else s.statusCodeField)
  {
    match c
    case WriteHeadCall(code, extra) =>
      s.(status := code,
         headers := if extra.Some? then s.headers + extra.value else s.headers,
         headersSent := true)
    case SetHeaderCall(name, value) => s.(headers := s.headers[name := value])
    case RemoveHeaderCall(name) => s.(headers := s.headers - {ToLower(name)})
    case FlushHeadersCall => s.(headersSent := true)
    case WriteCall(data) => s.(body := AppendBody(s.body, data))
    case EndCall(final) =>
      s.(body := if TruthyText(final) then AppendBody(s.body, final.value) else s.body,
         ended := true, finished := true)
    case AssignStatusCode(code) => s.(statusCodeField := code)
  }

  /** The state after a sequence of calls, applied in order. */
  function ReplayFrom(s: MockState, calls: seq<ResponseCall>): MockState
    decreases |calls|
  {
    if |calls| == 0 then s else Apply(ReplayFrom(s, calls[..|calls| - 1]), calls[|calls| - 1])
  }

  function Replay(calls: seq<ResponseCall>): MockState {
    ReplayFrom(Initial, calls)
  }

  /** The text a sequence of calls writes: every `write` chunk and every truthy
      `end` chunk, concatenated in order. */
  function Written(calls: seq<ResponseCall>): string
    decreases |calls|
  {
    if |calls| == 0 then ""
    else
      var c := calls[|calls| - 1];
      Written(calls[..|calls| - 1])
      + (if c.WriteCall? then c.data else if c.EndCall? && TruthyText(c.final) then c.final.value else "")
  }

  /** The code of the last `writeHead`, or `default` when there was none. */
  function LastWriteHead(calls: seq<ResponseCall>, default: int): int
    decreases |calls|
  {
    if |calls| == 0 then default
    else if calls[|calls| - 1].WriteHeadCall? then calls[|calls| - 1].code
    else LastWriteHead(calls[..|calls| - 1], default)
  }

  /** Whether `end` was called. */
  predicate EndWasCalled(calls: seq<ResponseCall>) {
    exists i :: 0 <= i < |calls| && calls[i].EndCall?
  }

  /** The calls with every assignment to the `statusCode` property removed. */
  function WithoutAssignments(calls: seq<ResponseCall>): (r: seq<ResponseCall>)
    ensures forall i :: 0 <= i < |r| ==> !r[i].AssignStatusCode?
    decreases |calls|
  {
    if |calls| == 0 then []
    else if calls[|calls| - 1].AssignStatusCode? then WithoutAssignments(calls[..|calls| - 1])
    else WithoutAssignments(calls[..|calls| - 1]) + [calls[|calls| - 1]]
  }

  /** A fetch `Response`. Header names are kept as given; the `Headers`
      class's own normalisation is not modelled. */
  datatype Response = Response(body: Option<string>, status: int, statusText: string,
                               headers: map<string, string>)

  /** What the fetch `Response` constructor throws: a `RangeError` for a status
      outside 200 to 599, a `TypeError` for a body given with a null body
      status. */
  datatype ResponseFault = StatusOutOfRange | BodyWithNullBodyStatus

  /** The statuses the `Response` constructor accepts. */
  predicate StatusInRange(status: int) {
    200 <= status <= 599
  }

  /** The null body statuses of the Fetch standard. */
  predicate NullBodyStatus(status: int) {
    status == 101 || status == 103 || status == 204 || status == 205 || status == 304
  }

  /** Web IDL's conversion of an integer to `unsigned short`: the value
      modulo 2^16, so that 65736 becomes 200 and -1 becomes 65535. */
  function UnsignedShort(n: int): (r: int)
    ensures 0 <= r < 0x1_0000
    ensures 0 <= n < 0x1_0000 ==> r == n
    ensures (n - r) % 0x1_0000 == 0
  {
    n % 0x1_0000
  }

  /** `new Response(body, {status, statusText, headers})` as the Fetch
      standard defines it; `None` is a `null` body. The status is first
      converted to an `unsigned short`; the range check on the converted
      value comes first, then the body check. */
  function NewResponse(body: Option<string>, status: int, statusText: string,
                       headers: map<string, string>): (r: Result<Response, ResponseFault>)
    ensures r == Err(StatusOutOfRange) <==> !StatusInRange(UnsignedShort(status))
    ensures r == Err(BodyWithNullBodyStatus) <==>
      StatusInRange(UnsignedShort(status)) && NullBodyStatus(UnsignedShort(status)) && body.Some?
    ensures r.Ok? ==>
      && r.value.body == body && r.value.status == UnsignedShort(status)
      && r.value.statusText == statusText && r.value.headers == headers
  {
    var code := UnsignedShort(status);
    if !StatusInRange(code) then Err(StatusOutOfRange)
    else if NullBodyStatus(code) && body.Some? then Err(BodyWithNullBodyStatus)
    else Ok(Response(body, code, statusText, headers))
  }

  /** `getResponse()`: pending until `end` has been called, then the response
      built from the body, the `writeHead` status and the stored headers, or
      the error its constructor throws. The status text looks at the code as
      written, the constructor at its `unsigned short` value. */
  function Respond(s: MockState): (r: Option<Result<Response, ResponseFault>>)
    ensures r.Some? <==> s.ended
    ensures r.Some? ==>
      (r.value.Ok? <==>
         StatusInRange(UnsignedShort(s.status)) && !(NullBodyStatus(UnsignedShort(s.status)) && s.body.Some?))
    ensures r.Some? && r.value.Ok? ==>
      && r.value.value.body == s.body && r.value.value.status == UnsignedShort(s.status)
      && r.value.value.headers == s.headers
    ensures r.Some? && r.value.Ok? ==> (r.value.value.statusText == "OK" <==> s.status == 200)
    ensures r.Some? && r.value.Ok? ==> (r.value.value.statusText == "Error" <==> s.status != 200)
  {
    if !s.ended then None
    else Some(NewResponse(s.body, s.status, if s.status == 200 then "OK" else "Error", s.headers))
  }

  // ------------------------------------------------- buffering response: laws

  /** The body is exactly the concatenation of what was written. */
  lemma {:induction false} ReplayFromBody(s: MockState, calls: seq<ResponseCall>)
    ensures BodyText(ReplayFrom(s, calls).body) == BodyText(s.body) + Written(calls)
    decreases |calls|
  {
    if |calls| > 0 {
      var init, c := calls[..|calls| - 1], calls[|calls| - 1];
      ReplayFromBody(s, init);
      var x := ReplayFrom(s, init);
      assert ReplayFrom(s, calls) == Apply(x, c);
      assert Written(calls) == Written(init)
        + (if c.WriteCall? then c.data else if c.EndCall? && TruthyText(c.final) then c.final.value else "");
    }
  }

  lemma ReplayBody(calls: seq<ResponseCall>)
    ensures BodyText(Replay(calls).body) == Written(calls)
  {
    ReplayFromBody(Initial, calls);
  }

  /** The status is the one given to the last `writeHead`, and 200 without one. */
  lemma {:induction false} ReplayStatus(calls: seq<ResponseCall>)
    ensures Replay(calls).status == LastWriteHead(calls, 200)
    decreases |calls|
  {
    if |calls| > 0 {
      ReplayStatus(calls[..|calls| - 1]);
    }
  }

  /** The response is ready exactly when `end` has been called. */
  lemma {:induction false} ReplayEnded(calls: seq<ResponseCall>)
    ensures Replay(calls).ended <==> EndWasCalled(calls)
    ensures Respond(Replay(calls)).Some? <==> EndWasCalled(calls)
    decreases |calls|
  {
    if |calls| > 0 {
      var init := calls[..|calls| - 1];
      ReplayEnded(init);
      if EndWasCalled(init) {
        var i :| 0 <= i < |init| && init[i].EndCall?;
        assert calls[i] == init[i];
      }
      if EndWasCalled(calls) && !calls[|calls| - 1].EndCall? {
        var i :| 0 <= i < |calls| && calls[i].EndCall?;
        assert init[i] == calls[i];
      }
    }
  }

  /** The state with the unread `statusCode` property forgotten. */
  function Observed(s: MockState): MockState {
    s.(statusCodeField := 200)
  }

  lemma {:induction false} AssignmentsUnobserved(s: MockState, calls: seq<ResponseCall>)
    ensures Observed(ReplayFrom(s, calls)) == Observed(ReplayFrom(s, WithoutAssignments(calls)))
    decreases |calls|
  {
    if |calls| > 0 {
      var init := calls[..|calls| - 1];
      var c := calls[|calls| - 1];
      AssignmentsUnobserved(s, init);
      var x := ReplayFrom(s, init);
      var y := ReplayFrom(s, WithoutAssignments(init));
      assert ReplayFrom(s, calls) == Apply(x, c);
      if c.AssignStatusCode? {
        assert WithoutAssignments(calls) == WithoutAssignments(init);
        assert Observed(Apply(x, c)) == Observed(x);
      } else {
        var w := WithoutAssignments(init) + [c];
        assert WithoutAssignments(calls) == w;
        assert w[..|w| - 1] == WithoutAssignments(init);
        assert ReplayFrom(s, w) == Apply(y, c);
        ObservedApply(x, y, c);
      }
    }
  }

  /** A call other than an assignment keeps two states that look the same
      looking the same. */
  lemma ObservedApply(x: MockState, y: MockState, c: ResponseCall)
    requires Observed(x) == Observed(y) && !c.AssignStatusCode?
    ensures Observed(Apply(x, c)) == Observed(Apply(y, c))
  {
  }

  /** Assigning `res.statusCode` changes nothing `getResponse` reports: only
      `writeHead` sets the status. */
  lemma StatusCodeAssignmentIgnored(calls: seq<ResponseCall>)
    ensures Respond(Replay(calls)) == Respond(Replay(WithoutAssignments(calls)))
  {
    AssignmentsUnobserved(Initial, calls);
  }

  /** `writeHead` merges its headers over the stored ones: a name it gives wins,
      any other stored header stays. */
  lemma WriteHeadMerges(s: MockState, code: int, extra: map<string, string>, name: string)
    ensures name in extra ==> Apply(s, WriteHeadCall(code, Some(extra))).headers[name] == extra[name]
    ensures name !in extra && name in s.headers ==>
      Apply(s, WriteHeadCall(code, Some(extra))).headers[name] == s.headers[name]
    ensures Apply(s, WriteHeadCall(code, None)).headers == s.headers
  {
  }

  /** A header stored under a lower-case name is found by any spelling of it
      and `removeHeader` deletes it. */
  lemma LowerCaseHeaderFound(s: MockState, name: string, spelling: string, value: string)
    requires ToLower(name) == name && ToLower(spelling) == name
    ensures HeaderOf(Apply(s, SetHeaderCall(name, value)).headers, spelling) == Some(value)
    ensures HeaderOf(Apply(Apply(s, SetHeaderCall(name, value)), RemoveHeaderCall(spelling)).headers, spelling).None?
  {
  }

  /** `setHeader` stores the name exactly as given while `getHeader` looks up
      the lower-cased name, so a header set with capital letters is not
      found again by its own name. */
  lemma MixedCaseHeaderNotFound()
    ensures HeaderOf(Apply(Initial, SetHeaderCall("Content-Type", "text/plain")).headers, "Content-Type").None?
  {
    assert ToLower("Content-Type")[0] == 'c';
    assert ToLower("Content-Type") != "Content-Type";
  }

  // ------------------------------------------------- buffering response: object

  /** The buffering response of `createMockNodeResponse()`; `State()` is the
      value its methods are specified by. */
  class MockResponse {
    var status: int
    var headers: map<string, string>
    var body: Option<string>
    var headersSent: bool
    var ended: bool
    var finished: bool
    var statusCodeField: int

    function State(): MockState
      reads this
    {
      MockState(status, headers, body, headersSent, ended, finished, statusCodeField)
    }

    constructor()
      ensures State() == Initial
    {
      status := 200;
      headers := map[];
      body := None;
      headersSent := false;
      ended := false;
      finished := false;
      statusCodeField := 200;
    }

    method WriteHead(code: int, extra: Option<map<string, string>>)
      modifies this
      ensures State() == Apply(old(State()), WriteHeadCall(code, extra))
    {
      status := code;
      if extra.Some? {
        headers := headers + extra.value;
      }
      headersSent := true;
    }

    method SetHeader(name: string, value: string)
      modifies this
      ensures State() == Apply(old(State()), SetHeaderCall(name, value))
    {
      headers := headers[name := value];
    }

    /** `getHeader(name)`: the header stored under the lower-cased name. */
    function GetHeader(name: string): (r: Option<string>)
      reads this
      ensures r.Some? <==> ToLower(name) in headers
      ensures r.Some? ==> r.value == headers[ToLower(name)]
    {
      HeaderOf(headers, name)
    }

    /** `getHeaders()` returns a copy: a value, not the stored map. */
    function GetHeaders(): (r: map<string, string>)
      reads this
      ensures r == State().headers
    {
      headers
    }

    /** `hasHeader(name)`: whether the lower-cased name is stored. */
    predicate HasHeader(name: string)
      reads this
      ensures HasHeader(name) <==> GetHeader(name).Some?
    {
      HeaderOf(headers, name).Some?
    }

    method RemoveHeader(name: string)
      modifies this
      ensures State() == Apply(old(State()), RemoveHeaderCall(name))
    {
      headers := headers - {ToLower(name)};
    }

    method FlushHeaders()
      modifies this
      ensures State() == Apply(old(State()), FlushHeadersCall)
    {
      headersSent := true;
    }

    method Write(data: string) returns (accepted: bool)
      modifies this
      ensures accepted
      ensures State() == Apply(old(State()), WriteCall(data))
    {
      if body.None? || body.value == "" {
        body := Some(data);
      } else {
        body := Some(body.value + data);
      }
      accepted := true;
    }

    method End(final: Option<string>)
      modifies this
      ensures State() == Apply(old(State()), EndCall(final))
    {
      if final.Some? && final.value != "" && (body.None? || body.value == "") {
        body := Some(final.value);
      } else if final.Some? && final.value != "" {
        body := Some(body.value + final.value);
      }
      ended := true;
      finished := true;
    }

    method AssignStatus(code: int)
      modifies this
      ensures State() == Apply(old(State()), AssignStatusCode(code))
    {
      statusCodeField := code;
    }

    /** Make one call on this response. */
    method Perform(c: ResponseCall)
      modifies this
      ensures State() == Apply(old(State()), c)
    {
      match c
      case WriteHeadCall(code, extra) => WriteHead(code, extra);
      case SetHeaderCall(name, value) => SetHeader(name, value);
      case RemoveHeaderCall(name) => RemoveHeader(name);
      case FlushHeadersCall => FlushHeaders();
      case WriteCall(data) => var _ := Write(data);
      case EndCall(final) => End(final);
      case AssignStatusCode(code) => AssignStatus(code);
    }

    /** Make a sequence of calls on this response, in order. */
    method PerformAll(calls: seq<ResponseCall>)
      modifies this
      ensures State() == ReplayFrom(old(State()), calls)
    {
      ghost var start := State();
      for i := 0 to |calls|
        invariant State() == ReplayFrom(start, calls[..i])
      {
        assert calls[..i + 1][..i] == calls[..i];
        Perform(calls[i]);
      }
      assert calls[..|calls|] == calls;
    }

    /** `getResponse()`, `None` while it is still waiting for `end`. */
    function GetResponse(): (r: Option<Result<Response, ResponseFault>>)
      reads this
      ensures r.Some? <==> ended
      ensures r == Respond(State())
    {
      Respond(State())
    }
  }

  // ------------------------------------------------- streaming response

  /** A stream writer: the chunks it accepted, whether `close()` has been
      called, and how many of its promises were rejected. Once `close()` has
      been called, `write` and `close` return a promise rejected with a
      `TypeError` and leave no chunk; nothing awaits those promises, so each
      is an unhandled rejection. */
  datatype StreamState = StreamState(chunks: seq<string>, closed: bool, rejections: nat)

  const Open := StreamState([], false, 0)

  /** `writer.write(data)`. */
  function PushChunk(s: StreamState, data: string): (r: StreamState)
    ensures r.closed == s.closed
    ensures r.chunks == if s.closed then s.chunks else s.chunks + [data]
    ensures r.rejections == if s.closed then s.rejections + 1 else s.rejections
  {
    if s.closed then s.(rejections := s.rejections + 1) else s.(chunks := s.chunks + [data])
  }

  /** `writer.close()`. */
  function CloseWriter(s: StreamState): (r: StreamState)
    ensures r.closed && r.chunks == s.chunks
    ensures r.rejections == if s.closed then s.rejections + 1 else s.rejections
  {
    if s.closed then s.(rejections := s.rejections + 1) else s.(closed := true)
  }

  /** How many writer calls one call on the streaming response makes: one per
      `write`, and for `end` a close preceded by a write of a truthy payload. */
  function WriterCalls(c: ResponseCall): nat {
    match c
    case WriteCall(_) => 1
    case EndCall(final) => if TruthyText(final) then 2 else 1
    case _ => 0
  }

  function WriterCallCount(calls: seq<ResponseCall>): nat
    decreases |calls|
  {
    if |calls| == 0 then 0 else WriterCallCount(calls[..|calls| - 1]) + WriterCalls(calls[|calls| - 1])
  }

  /** The effect of one call on the streaming response: writes are forwarded,
      `end` forwards a truthy final chunk and closes the writer, and every
      header call does nothing. */
  function StreamApply(s: StreamState, c: ResponseCall): (r: StreamState)
    ensures r.closed == (s.closed || c.EndCall?)
    ensures !(c.WriteCall? || c.EndCall?) ==> r == s
    ensures s.closed ==> r.chunks == s.chunks && r.rejections == s.rejections + WriterCalls(c)
    ensures !s.closed ==> r.rejections == s.rejections
  {
    match c
    case WriteCall(data) => PushChunk(s, data)
    case EndCall(final) => CloseWriter(if TruthyText(final) then PushChunk(s, final.value) else s)
    case _ => s
  }

  function StreamReplayFrom(s: StreamState, calls: seq<ResponseCall>): StreamState
    decreases |calls|
  {
    if |calls| == 0 then s
    else StreamApply(StreamReplayFrom(s, calls[..|calls| - 1]), calls[|calls| - 1])
  }

  function StreamReplay(calls: seq<ResponseCall>): StreamState {
    StreamReplayFrom(Open, calls)
  }

  function ConcatChunks(chunks: seq<string>): string
    decreases |chunks|
  {
    if |chunks| == 0 then "" else ConcatChunks(chunks[..|chunks| - 1]) + chunks[|chunks| - 1]
  }

  /** Before `end`, the streaming response forwards exactly the text the
      buffering response would have collected, and the writer stays open. */
  lemma {:induction false} StreamingAgreesBeforeEnd(calls: seq<ResponseCall>)
    requires !EndWasCalled(calls)
    ensures !StreamReplay(calls).closed && StreamReplay(calls).rejections == 0
    ensures ConcatChunks(StreamReplay(calls).chunks) == Written(calls)
    decreases |calls|
  {
    if |calls| > 0 {
      var init := calls[..|calls| - 1];
      assert !EndWasCalled(init) by {
        forall i | 0 <= i < |init| ensures !init[i].EndCall? {
          assert init[i] == calls[i];
        }
      }
      StreamingAgreesBeforeEnd(init);
      var s := StreamReplay(init);
      if calls[|calls| - 1].WriteCall? {
        var t := s.chunks + [calls[|calls| - 1].data];
        assert t[..|t| - 1] == s.chunks;
      }
    }
  }

  /** A single `end` as the last call: the streaming response has forwarded the
      whole body of the buffering response and has closed the writer. */
  lemma {:induction false} StreamingAgreesAtEnd(calls: seq<ResponseCall>, final: Option<string>)
    requires !EndWasCalled(calls)
    ensures StreamReplay(calls + [EndCall(final)]).closed
    ensures StreamReplay(calls + [EndCall(final)]).rejections == 0
    ensures ConcatChunks(StreamReplay(calls + [EndCall(final)]).chunks)
      == BodyText(Replay(calls + [EndCall(final)]).body)
  {
    var all := calls + [EndCall(final)];
    assert all[..|all| - 1] == calls;
    StreamingAgreesBeforeEnd(calls);
    ReplayBody(all);
    var s := StreamReplay(calls);
    if TruthyText(final) {
      var t := s.chunks + [final.value];
      assert t[..|t| - 1] == s.chunks;
    }
  }

  /** Once closed, no chunk reaches the writer any more: every writer call
      after that is a rejected promise, and there is a rejection exactly when
      some `write` or `end` follows. */
  lemma {:induction false} NothingAfterClose(s: StreamState, calls: seq<ResponseCall>)
    requires s.closed
    ensures StreamReplayFrom(s, calls).closed && StreamReplayFrom(s, calls).chunks == s.chunks
    ensures StreamReplayFrom(s, calls).rejections == s.rejections + WriterCallCount(calls)
    ensures StreamReplayFrom(s, calls).rejections == s.rejections <==>
      forall i :: 0 <= i < |calls| ==> !(calls[i].WriteCall? || calls[i].EndCall?)
    decreases |calls|
  {
    if |calls| > 0 {
      var init := calls[..|calls| - 1];
      NothingAfterClose(s, init);
      assert forall i :: 0 <= i < |init| ==> init[i] == calls[i];
    }
  }

  /** Ending the streaming response twice rejects the second close. */
  lemma EndTwiceRejects()
    ensures StreamReplay([EndCall(None), EndCall(None)]).rejections == 1
  {
    var calls := [EndCall(None), EndCall(None)];
    var one := calls[..1];
    assert one[..0] == [];
    assert StreamReplayFrom(Open, one) == StreamApply(Open, EndCall(None));
    assert StreamReplay(calls) == StreamApply(StreamApply(Open, EndCall(None)), EndCall(None));
  }

  /** The writer end of the stream the SSE route returns to the client. */
  class ChunkSink {
    var chunks: seq<string>
    var closed: bool
    var rejections: nat

    function State(): StreamState
      reads this
    {
      StreamState(chunks, closed, rejections)
    }

    constructor()
      ensures State() == Open
    {
      chunks := [];
      closed := false;
      rejections := 0;
    }

    method Write(data: string)
      modifies this
      ensures State() == PushChunk(old(State()), data)
    {
      if closed {
        rejections := rejections + 1;
      } else {
        chunks := chunks + [data];
      }
    }

    method Close()
      modifies this
      ensures State() == CloseWriter(old(State()))
    {
      if closed {
        rejections := rejections + 1;
      } else {
        closed := true;
      }
    }
  }

  /** `createStreamingResponse(writer)`. */
  class StreamingResponse {
    const writer: ChunkSink

    constructor(writer: ChunkSink)
      ensures this.writer == writer
    {
      this.writer := writer;
    }

    method Write(data: string) returns (accepted: bool)
      modifies writer
      ensures accepted
      ensures writer.State() == StreamApply(old(writer.State()), WriteCall(data))
    {
      writer.Write(data);
      accepted := true;
    }

    method End(final: Option<string>)
      modifies writer
      ensures writer.State() == StreamApply(old(writer.State()), EndCall(final))
    {
      if final.Some? && final.value != "" {
        writer.Write(final.value);
      }
      writer.Close();
    }

    /** Header lookups always miss: this response keeps no headers. */
    function GetHeader(name: string): (r: Option<string>)
      ensures r.None?
    {
      None
    }

    predicate HasHeader(name: string)
      ensures !HasHeader(name)
    {
      false
    }
  }
}
