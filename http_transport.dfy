/** The HTTP transport: its configuration defaults, the registry of active
    sessions keyed by session id, and the `POST /mcp` and `GET /sse` routes.
    The MCP server, its transports and the random UUID source are outside the
    model: a server is an identity, a transport's handling of one request is
    the sequence of calls it makes on the response object, and the UUID is a
    parameter. */
module Http {
  import opened Wrappers
  import opened Errors
  import opened JsString
  import JsNumber
  import opened HttpMock
  import Json

  // ---------------------------------------------------------- configuration

  datatype CorsOptions = CorsOptions(origin: Option<string>, allowMethods: Option<seq<string>>,
                                     allowHeaders: Option<seq<string>>)

  /** `HttpTransportConfig`: every member may be left out. */
  datatype HttpTransportConfig = HttpTransportConfig(port: Option<JsNumber.Num>, cors: Option<CorsOptions>)

  datatype Cors = Cors(origin: string, allowMethods: seq<string>, allowHeaders: seq<string>)

  /** `Required<HttpTransportConfig>`, the configuration the transport keeps. */
  datatype Config = Config(port: int, cors: Cors)

  const DefaultPort := 3000
  const DefaultOrigin := "*"
  const DefaultMethods := ["GET", "POST", "DELETE", "OPTIONS"]
  const DefaultHeaders := ["Content-Type", "Authorization", "Accept", "x-mcp-session-id", "mcp-session-id"]
  /** The shorter list the CORS middleware would fall back to. */
  const MiddlewareFallbackHeaders := ["Content-Type", "Authorization", "Accept"]

  /** `config.port || 3000`: an absent, zero or NaN port becomes 3000. */
  function PortOf(port: Option<JsNumber.Num>): (p: int)
    ensures p != 0
    ensures port.Some? && JsNumber.Truthy(port.value) ==> p == port.value.value
    ensures port.None? || !JsNumber.Truthy(port.value) ==> p == DefaultPort
  {
    if port.Some? && JsNumber.Truthy(port.value) then port.value.value else DefaultPort
  }

  /** The constructor's defaults; `None` is the default argument `{}`. An origin
      falls back when it is empty, but a list only when it is left out: an
      empty list is kept. */
  function ConfigOf(config: Option<HttpTransportConfig>): (c: Config)
    ensures c.port == PortOf(if config.Some? then config.value.port else None)
    ensures c.cors.origin != ""
    ensures config.None? || config.value.cors.None? ==>
      c.cors == Cors(DefaultOrigin, DefaultMethods, DefaultHeaders)
    ensures config.Some? && config.value.cors.Some? ==>
      var o := config.value.cors.value;
      && c.cors.origin == (if TruthyText(o.origin) then o.origin.value else DefaultOrigin)
      && c.cors.allowMethods == o.allowMethods.GetOr(DefaultMethods)
      && c.cors.allowHeaders == o.allowHeaders.GetOr(DefaultHeaders)
  {
    var given := config.GetOr(HttpTransportConfig(None, None));
    var o := given.cors.GetOr(CorsOptions(None, None, None));
    Config(PortOf(given.port),
           Cors(if TruthyText(o.origin) then o.origin.value else DefaultOrigin,
                o.allowMethods.GetOr(DefaultMethods),
                o.allowHeaders.GetOr(DefaultHeaders)))
  }

  /** The options `setupMiddleware` hands to the CORS middleware, each with its
      own `||` fallback. */
  function MiddlewareCors(c: Config): (r: Cors)
    ensures r.origin != ""
    ensures c.cors.origin != "" ==> r.origin == c.cors.origin
    ensures r.allowMethods == c.cors.allowMethods && r.allowHeaders == c.cors.allowHeaders
  {
    Cors(if c.cors.origin != "" then c.cors.origin else DefaultOrigin,
         c.cors.allowMethods, c.cors.allowHeaders)
  }

  /** The middleware's fallbacks never apply: it uses the configuration the
      constructor settled, including the longer header list. */
  lemma MiddlewareUsesConfig(config: Option<HttpTransportConfig>)
    ensures MiddlewareCors(ConfigOf(config)) == ConfigOf(config).cors
    ensures config.None? ==> MiddlewareCors(ConfigOf(config)).allowHeaders != MiddlewareFallbackHeaders
  {
    if config.None? {
      assert |DefaultHeaders| != |MiddlewareFallbackHeaders|;
    }
  }

  // --------------------------------------------------------------- sessions

  /** An MCP server instance, by identity. */
  datatype ServerId = ServerId(id: nat)

  /** A streamable HTTP transport as created here: its session id generator
      always answers the session's own id. */
  datatype StreamableTransport = StreamableTransport(sessionId: string, enableJsonResponse: bool)

  datatype Session = Session(transport: StreamableTransport, server: ServerId)

  const ServerRequired := ErrorObject("Server instance is required")

  /** `sessionId || crypto.randomUUID()`. */
  function SessionKey(sessionId: Option<string>, generated: string): (id: string)
    ensures TruthyText(sessionId) ==> id == sessionId.value
    ensures !TruthyText(sessionId) ==> id == generated
  {
    if TruthyText(sessionId) then sessionId.value else generated
  }

  /** What the registry must hold: every session sits under its own
      transport's id, which is never empty, with JSON responses enabled. */
  ghost predicate ValidRegistry(sessions: map<string, Session>) {
    && "" !in sessions
    && forall id :: id in sessions ==> sessions[id].transport == StreamableTransport(id, true)
  }

  /** `getOrCreateSession(id, server)` on a registry: the stored session when
      there is one; otherwise an error without a server, or a new session
      stored under `id`. */
  function SessionStep(sessions: map<string, Session>, id: string, server: Option<ServerId>)
    : (r: (Result<Session, Thrown>, map<string, Session>))
    ensures r.0.Ok? ==> id in r.1 && r.1[id] == r.0.value
    ensures r.0.Err? ==> r.0.error == ServerRequired && r.1 == sessions
    ensures sessions.Keys <= r.1.Keys <= sessions.Keys + {id}
    ensures id in sessions ==> r.1 == sessions
  {
    if id in sessions then (Ok(sessions[id]), sessions)
    else if server.None? then (Err(ServerRequired), sessions)
    else
      var s := Session(StreamableTransport(id, true), server.value);
      (Ok(s), sessions[id := s])
  }

  /** A step keeps the registry valid, answers with a session for `id`, and
      touches no other id. */
  lemma SessionStepLaws(sessions: map<string, Session>, id: string, server: Option<ServerId>)
    requires ValidRegistry(sessions) && id != ""
    ensures ValidRegistry(SessionStep(sessions, id, server).1)
    ensures SessionStep(sessions, id, server).0.Ok? ==>
      SessionStep(sessions, id, server).0.value.transport.sessionId == id
      && SessionStep(sessions, id, server).1[id] == SessionStep(sessions, id, server).0.value
    ensures SessionStep(sessions, id, server).0.Err? <==> id !in sessions && server.None?
    ensures SessionStep(sessions, id, server).0.Err? ==> SessionStep(sessions, id, server).1 == sessions
    ensures forall k :: k != id ==>
      (k in SessionStep(sessions, id, server).1 <==> k in sessions)
    ensures forall k :: k != id && k in sessions ==>
      SessionStep(sessions, id, server).1[k] == sessions[k]
  {
  }

  /** Asking again for the same id answers the same session and changes
      nothing, whatever server is passed the second time. */
  lemma SessionStepIdempotent(sessions: map<string, Session>, id: string,
                              server: Option<ServerId>, again: Option<ServerId>)
    requires SessionStep(sessions, id, server).0.Ok?
    ensures SessionStep(SessionStep(sessions, id, server).1, id, again) == SessionStep(sessions, id, server)
  {
  }

  /** An existing session keeps the server it was created with. */
  lemma ExistingSessionKeepsServer(sessions: map<string, Session>, id: string, server: Option<ServerId>)
    requires id in sessions
    ensures SessionStep(sessions, id, server).0 == Ok(sessions[id])
    ensures SessionStep(sessions, id, server).1 == sessions
  {
  }

  // ------------------------------------------------------- request rewriting

  const EventStream := "text/event-stream"
  const JsonOrEventStream := "application/json, text/event-stream"

  function Get(headers: map<string, string>, name: string): Option<string> {
    if name in headers then Some(headers[name]) else None
  }

  /** `a || b` on strings that may be `undefined`. */
  function Or(a: Option<string>, b: Option<string>): (r: Option<string>)
    ensures TruthyText(a) ==> r == a
    ensures !TruthyText(a) ==> r == b
  {
    if TruthyText(a) then a else b
  }

  /** `req.headers.accept || req.headers.Accept`. */
  function AcceptOf(headers: map<string, string>): (r: Option<string>)
    ensures TruthyText(Get(headers, "accept")) ==> r == Get(headers, "accept")
    ensures !TruthyText(Get(headers, "accept")) ==> r == Get(headers, "Accept")
  {
    Or(Get(headers, "accept"), Get(headers, "Accept"))
  }

  /** A client that accepts only an event stream is told it accepts JSON as
      well, under both spellings of the header name. */
  function NormalizeAccept(headers: map<string, string>): (r: map<string, string>)
    ensures AcceptOf(r) != Some(EventStream)
    ensures r == headers || AcceptOf(headers) == Some(EventStream)
  {
    assert JsonOrEventStream != "" && JsonOrEventStream != EventStream;
    if AcceptOf(headers) == Some(EventStream)
    then headers["accept" := JsonOrEventStream]["Accept" := JsonOrEventStream]
    else headers
  }

  /** After the rewrite the accept value is never the bare event stream; an
      event-stream-only client now accepts JSON and event streams; any other
      accept value, and every other header, is left as it was. */
  lemma NormalizeAcceptLaws(headers: map<string, string>)
    ensures AcceptOf(NormalizeAccept(headers)) != Some(EventStream)
    ensures AcceptOf(headers) == Some(EventStream) ==>
      AcceptOf(NormalizeAccept(headers)) == Some(JsonOrEventStream)
      && Get(NormalizeAccept(headers), "Accept") == Some(JsonOrEventStream)
    ensures AcceptOf(headers) != Some(EventStream) ==> NormalizeAccept(headers) == headers
    ensures forall k :: k != "accept" && k != "Accept" ==> Get(NormalizeAccept(headers), k) == Get(headers, k)
    ensures NormalizeAccept(NormalizeAccept(headers)) == NormalizeAccept(headers)
  {
    assert JsonOrEventStream != "" && JsonOrEventStream != EventStream;
  }

  /** A truthy `sessionId` query parameter overwrites the `mcp-session-id` header. */
  function ApplySessionQuery(headers: map<string, string>, query: Option<string>): (r: map<string, string>)
    ensures TruthyText(query) ==> Get(r, "mcp-session-id") == query
    ensures !TruthyText(query) ==> r == headers
    ensures forall k :: k != "mcp-session-id" ==> Get(r, k) == Get(headers, k)
  {
    if TruthyText(query) then headers["mcp-session-id" := query.value] else headers
  }

  /** The Node request handed to the session's transport. */
  function PrepareRequest(pathname: string, search: string, query: Option<string>,
                          headers: RawHeaders, body: Json.Value): (r: NodeRequest)
    ensures r.httpMethod == "POST" && r.url == pathname + search && r.body == body
    ensures TruthyText(query) ==> Get(r.headers, "mcp-session-id") == query
    ensures forall k :: k != "accept" && k != "Accept" && k != "mcp-session-id" ==>
      Get(r.headers, k) == Get(HeaderEntries(headers), k)
  {
    NormalizeAcceptLaws(HeaderEntries(headers));
    var req := CreateMockNodeRequest("POST", pathname, search, headers, body);
    req.(headers := ApplySessionQuery(NormalizeAccept(req.headers), query))
  }

  /** `sessionId || req.headers["mcp-session-id"] || req.headers["x-mcp-session-id"]`. */
  function EffectiveId(query: Option<string>, prepared: NodeRequest): (r: Option<string>)
    ensures TruthyText(query) ==> r == query
    ensures r == query || r == Get(prepared.headers, "mcp-session-id") || r == Get(prepared.headers, "x-mcp-session-id")
  {
    Or(Or(query, Get(prepared.headers, "mcp-session-id")), Get(prepared.headers, "x-mcp-session-id"))
  }

  /** Precedence of the session id: query parameter, then `mcp-session-id`,
      then `x-mcp-session-id`, each header under its lower-cased name, so in
      whatever spelling the client sent it. */
  lemma SessionIdPrecedence(pathname: string, search: string, query: Option<string>,
                            headers: RawHeaders, body: Json.Value)
    ensures
      var sent := HeaderEntries(headers);
      var id := EffectiveId(query, PrepareRequest(pathname, search, query, headers, body));
      && (TruthyText(query) ==> id == query)
      && (!TruthyText(query) && TruthyText(Get(sent, "mcp-session-id")) ==>
            id == Get(sent, "mcp-session-id"))
      && (!TruthyText(query) && !TruthyText(Get(sent, "mcp-session-id")) ==>
            id == Get(sent, "x-mcp-session-id"))
  {
    NormalizeAcceptLaws(HeaderEntries(headers));
  }

  /** A client's `Accept` header reaches the route as `accept`: the second
      operand of `req.headers.accept || req.headers.Accept` is never a header
      the client sent. */
  lemma ClientAcceptIsLowerCase(headers: RawHeaders)
    ensures Get(HeaderEntries(headers), "Accept") == None
    ensures
      var accept := Get(HeaderEntries(headers), "accept");
      AcceptOf(HeaderEntries(headers)) == if TruthyText(accept) then accept else None
  {
    assert ToLower("Accept")[0] == 'a';
    assert ToLower("Accept") != "Accept";
  }

  /** A session id sent as `Mcp-Session-Id`, the spelling of the protocol, is
      the one the registry uses. */
  lemma MixedCaseSessionHeaderCounts(pathname: string, search: string, body: Json.Value)
    ensures EffectiveId(None, PrepareRequest(pathname, search, None, [("Mcp-Session-Id", "abc")], body))
      == Some("abc")
  {
    var raw := [("Mcp-Session-Id", "abc")];
    assert ToLower(raw[0].0) == "mcp-session-id";
    HeaderSentOnce(raw, 0);
  }

  /** The transport sees, in its `mcp-session-id` header, the id the registry
      used, whenever that header is truthy. */
  lemma HeaderAgreesWithRegistry(pathname: string, search: string, query: Option<string>,
                                 headers: RawHeaders, body: Json.Value)
    ensures
      var prepared := PrepareRequest(pathname, search, query, headers, body);
      TruthyText(Get(prepared.headers, "mcp-session-id")) ==>
        EffectiveId(query, prepared) == Get(prepared.headers, "mcp-session-id")
  {
  }

  // ---------------------------------------------------------------- replies

  /** A reply of one of the routes: a forwarded buffered response, a JSON reply
      built by the framework, or an event stream. */
  datatype Reply =
    | Forwarded(status: int, statusText: string, headers: map<string, string>, text: string)
    | JsonReply(status: int, json: Json.Value)
    | EventStreamReply(status: int, headers: map<string, string>)

  const InternalError := JsonReply(500, Json.Obj([("error", Json.Str("Internal server error"))]))

  /** A `POST /mcp` either replies or, when the transport never ends the
      response, keeps waiting. */
  datatype PostOutcome = Replied(reply: Reply) | Waiting

  /** `POST /mcp` as the route sees it: `body` is `None` when it is not JSON. */
  datatype PostRequest = PostRequest(pathname: string, search: string, query: Option<string>,
                                     headers: RawHeaders, body: Option<Json.Value>)

  /** How the session's transport handled one request: the calls it made on
      the response object and whether its promise rejected. */
  datatype HandlerRun = HandlerRun(calls: seq<ResponseCall>, rejects: bool)

  /** The route's reply to a response `getResponse` resolved to: the text of
      its body (`null` reads as "") in a new `Response` with the same status,
      status text and headers, or a 500 when that constructor throws. The
      constructor is the one of the Fetch standard. */
  function Forward(r: Response): (reply: Reply)
    ensures reply == InternalError
      || reply == Forwarded(UnsignedShort(r.status), r.statusText, r.headers, BodyText(r.body))
    ensures reply.Forwarded? <==>
      StatusInRange(UnsignedShort(r.status)) && !NullBodyStatus(UnsignedShort(r.status))
  {
    var again := NewResponse(Some(BodyText(r.body)), r.status, r.statusText, r.headers);
    if again.Err? then InternalError
    else Forwarded(again.value.status, again.value.statusText, again.value.headers, BodyText(again.value.body))
  }

  /** The reply once a session has handled the request. Whatever the
      transport does, the client never gets a status outside 200 to 599 or a
      null body status. */
  function OutcomeOf(run: HandlerRun): (o: PostOutcome)
    ensures run.rejects ==> o == Replied(InternalError)
    ensures o.Replied? && o.reply.Forwarded? ==>
      StatusInRange(o.reply.status) && !NullBodyStatus(o.reply.status)
  {
    if run.rejects then Replied(InternalError)
    else
      var r := Respond(Replay(run.calls));
      if r.None? then Waiting
      else if r.value.Err? then Replied(InternalError)
      else Replied(Forward(r.value.value))
  }

  /** What reaches the client once the transport has ended the response: the
      last `writeHead` code (200 without one), taken as an `unsigned short`,
      with the status text of the code as written, the stored headers and
      everything written, when that status is one a `Response` with a body
      may carry; a 500 when it is outside 200 to 599 or is 204, 205 or 304
      (the route always passes a body, even an empty one); a 500 as well when
      the transport rejects. */
  lemma OutcomeOfRun(run: HandlerRun)
    ensures run.rejects ==> OutcomeOf(run) == Replied(InternalError)
    ensures !run.rejects && !EndWasCalled(run.calls) ==> OutcomeOf(run) == Waiting
    ensures !run.rejects && EndWasCalled(run.calls) ==>
      var st := LastWriteHead(run.calls, 200);
      var code := UnsignedShort(st);
      && (StatusInRange(code) && !NullBodyStatus(code) ==>
            OutcomeOf(run) == Replied(Forwarded(code, if st == 200 then "OK" else "Error",
                                                Replay(run.calls).headers, Written(run.calls))))
      && (!StatusInRange(code) || NullBodyStatus(code) ==> OutcomeOf(run) == Replied(InternalError))
  {
    ReplayEnded(run.calls);
    ReplayStatus(run.calls);
    ReplayBody(run.calls);
  }

  /** A transport that answers 204 No Content gets a 500 to the client: the
      route wraps the empty text in a new `Response`, which a 204 may not carry. */
  lemma NoContentBecomesInternalError()
    ensures OutcomeOf(HandlerRun([WriteHeadCall(204, None), EndCall(None)], false)) == Replied(InternalError)
  {
    var calls := [WriteHeadCall(204, None), EndCall(None)];
    assert calls[..1] == [WriteHeadCall(204, None)];
    assert Replay(calls).status == 204;
    assert Replay(calls).ended;
  }

  /** A `writeHead` code beyond 65535 is taken modulo 2^16: 65736 reaches the
      client as status 200, with the status text "Error" of a code that is
      not 200. */
  lemma WrappedStatusIsForwarded()
    ensures OutcomeOf(HandlerRun([WriteHeadCall(65736, None), EndCall(Some("x"))], false))
      == Replied(Forwarded(200, "Error", map[], "x"))
  {
    var calls := [WriteHeadCall(65736, None), EndCall(Some("x"))];
    var one := calls[..1];
    assert one[..0] == [];
    assert ReplayFrom(Initial, one[..0]) == Initial;
    assert Replay(one) == Apply(Initial, calls[0]);
    var s := Apply(Apply(Initial, calls[0]), calls[1]);
    assert Replay(calls) == s;
    assert s.status == 65736 && s.ended && s.headers == map[] && BodyText(s.body) == "x";
    assert UnsignedShort(65736) == 200;
  }

  /** The fixed headers of the event stream. */
  const SseHeaders := map[
    "Content-Type" := "text/event-stream",
    "Cache-Control" := "no-cache",
    "Connection" := "keep-alive",
    "Access-Control-Allow-Origin" := "*",
    "Access-Control-Allow-Headers" := "Last-Event-ID, Mcp-Session-Id"]

  /** The endpoint path handed to the SSE transport. */
  function SseEndpoint(id: string): (r: string)
    ensures |r| == 15 + |id| && r[..15] == "/mcp?sessionId=" && r[15..] == id
  {
    "/mcp?sessionId=" + id
  }

  /** `GET /sse` with a fresh UUID `generated`; `connects` says whether
      `server.connect` resolved. The reply carries no endpoint, and the SSE
      session is not put in the registry. */
  function SseReply(generated: string, connects: bool): (r: Reply)
    ensures r.status == (if connects then 200 else 500)
    ensures connects ==> r.EventStreamReply? && r.headers == SseHeaders
  {
    if connects then EventStreamReply(200, SseHeaders) else InternalError
  }

  /** The endpoint path handed to the SSE transport names the `POST /mcp`
      route, and the id can be read back after the parameter name. */
  lemma SseEndpointTargetsPost(id: string)
    ensures Split(SseEndpoint(id), '?')[0] == "/mcp"
    ensures StartsWith(SseEndpoint(id), "/mcp?sessionId=") && SseEndpoint(id)[15..] == id
  {
    var tail := "sessionId=" + id;
    assert SseEndpoint(id) == "/mcp" + ['?'] + tail;
    SplitAppend("/mcp", tail, '?');
    SplitNoSeparator("/mcp", '?');
  }

  /** Since the SSE session is never registered, a `POST` to its endpoint path
      with its id, while no streamable session has that id, does not reach the
      SSE transport: it makes a new streamable session under that id, or fails
      without a server. */
  lemma SseIdStartsNewSession(sessions: map<string, Session>, id: string, server: Option<ServerId>,
                              headers: RawHeaders, body: Json.Value, generated: string)
    requires ValidRegistry(sessions) && id != "" && id !in sessions
    ensures
      var prepared := PrepareRequest("/mcp", "?sessionId=" + id, Some(id), headers, body);
      var step := SessionStep(sessions, SessionKey(EffectiveId(Some(id), prepared), generated), server);
      && (server.None? ==> step == (Err(ServerRequired), sessions))
      && (server.Some? ==>
            step.0 == Ok(Session(StreamableTransport(id, true), server.value))
            && step.1 == sessions[id := step.0.value])
  {
  }

  /** The rest of the route once the session's transport has run: a fresh
      buffering response receives the transport's calls, then `getResponse`
      and a new `Response` of its text answer the client; a rejection or a
      throwing constructor gives the 500. */
  method ServeRun(run: HandlerRun) returns (out: PostOutcome)
    ensures out == OutcomeOf(run)
  {
    var res := new MockResponse();
    res.PerformAll(run.calls);
    assert res.State() == Replay(run.calls);
    if run.rejects {
      return Replied(InternalError);
    }
    var response := res.GetResponse();
    if response.None? {
      return Waiting;
    }
    if response.value.Err? {
      return Replied(InternalError);
    }
    var r := response.value.value;
    var again := NewResponse(Some(BodyText(r.body)), r.status, r.statusText, r.headers);
    if again.Err? {
      return Replied(InternalError);
    }
    out := Replied(Forwarded(again.value.status, again.value.statusText, again.value.headers,
                             BodyText(again.value.body)));
    assert Replied(Forward(r)) == out;
  }

  // -------------------------------------------------------------- transport

  /** `HttpTransport`: the configuration it was built with and its registry. */
  class HttpTransport {
    const config: Config
    var sessions: map<string, Session>

    ghost predicate Valid()
      reads this
    {
      ValidRegistry(sessions)
    }

    constructor(given: Option<HttpTransportConfig>)
      ensures config == ConfigOf(given)
      ensures sessions == map[]
      ensures Valid()
    {
      config := ConfigOf(given);
      sessions := map[];
    }

    /** `getOrCreateSession(sessionId, server)`; `generated` is the UUID it
        would draw. */
    method GetOrCreateSession(sessionId: Option<string>, server: Option<ServerId>, generated: string)
      returns (r: Result<Session, Thrown>)
      requires Valid() && generated != ""
      modifies this
      ensures Valid()
      ensures (r, sessions) == SessionStep(old(sessions), SessionKey(sessionId, generated), server)
    {
      var id := SessionKey(sessionId, generated);
      SessionStepLaws(sessions, id, server);
      if id in sessions {
        return Ok(sessions[id]);
      }
      var transport := StreamableTransport(id, true);
      if server.None? {
        return Err(ServerRequired);
      }
      var session := Session(transport, server.value);
      sessions := sessions[id := session];
      r := Ok(session);
    }

    /** The `catch` of `server.connect(transport)`: the session is dropped. */
    method BindFailed(id: string)
      requires Valid()
      modifies this
      ensures Valid()
      ensures sessions == old(sessions) - {id}
    {
      sessions := sessions - {id};
    }

    /** `disconnect()`: every session is forgotten. */
    method Disconnect()
      modifies this
      ensures Valid()
      ensures sessions == map[]
    {
      sessions := map[];
    }

    /** The port `connect` listens on. */
    function ListenPort(): (p: int)
      ensures p == config.port
    {
      config.port
    }

    /** `POST /mcp`: `handler` is the session transport's `handleRequest`. */
    method HandlePost(req: PostRequest, server: Option<ServerId>, generated: string,
                      handler: (NodeRequest, Session) -> HandlerRun)
      returns (out: PostOutcome)
      requires Valid() && generated != ""
      modifies this
      ensures Valid()
      ensures req.body.None? ==> out == Replied(InternalError) && sessions == old(sessions)
      ensures req.body.Some? ==>
        var prepared := PrepareRequest(req.pathname, req.search, req.query, req.headers, req.body.value);
        var step := SessionStep(old(sessions), SessionKey(EffectiveId(req.query, prepared), generated), server);
        && sessions == step.1
        && (step.0.Err? ==> out == Replied(InternalError))
        && (step.0.Ok? ==> out == OutcomeOf(handler(prepared, step.0.value)))
    {
      if req.body.None? {
        return Replied(InternalError);
      }
      var prepared := CreateMockNodeRequest("POST", req.pathname, req.search, req.headers, req.body.value);
      var headers := prepared.headers;
      if Or(Get(headers, "accept"), Get(headers, "Accept")) == Some(EventStream) {
        headers := headers["accept" := JsonOrEventStream];
        headers := headers["Accept" := JsonOrEventStream];
      }
      if req.query.Some? && req.query.value != "" {
        headers := headers["mcp-session-id" := req.query.value];
      }
      prepared := prepared.(headers := headers);
      assert prepared == PrepareRequest(req.pathname, req.search, req.query, req.headers, req.body.value);
      var sessionId := Or(Or(req.query, Get(headers, "mcp-session-id")), Get(headers, "x-mcp-session-id"));
      var session := GetOrCreateSession(sessionId, server, generated);
      if session.Err? {
        return Replied(InternalError);
      }
      out := ServeRun(handler(prepared, session.value));
    }
  }
}
