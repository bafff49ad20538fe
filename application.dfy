/** `parseArgs`: the command line and environment decide the transport and the
    HTTP port. Reading `process.env` is replaced by the two values it reads. */
module Application {
  import opened Wrappers
  import opened JsString
  import opened JsNumber
  import opened Transports
  import Http

  datatype ApplicationConfig = ApplicationConfig(transport: TransportType,
                                                 httpConfig: Option<Http.HttpTransportConfig>)

  /** `args.includes("--http") || process.env.MCP_TRANSPORT === "http"`. */
  predicate WantsHttp(args: seq<string>, mcpTransport: Option<string>)
    ensures "--http" in args ==> WantsHttp(args, mcpTransport)
    ensures mcpTransport == Some("http") ==> WantsHttp(args, mcpTransport)
    ensures "--http" !in args && mcpTransport != Some("http") ==> !WantsHttp(args, mcpTransport)
  {
    "--http" in args || mcpTransport == Some("http")
  }

  /** `process.env.PORT ? Number.parseInt(process.env.PORT, 10) : 3000`. */
  function EnvPort(portEnv: Option<string>): (n: Num)
    ensures !TruthyText(portEnv) ==> n == Int(3000)
    ensures TruthyText(portEnv) ==> n == ParseInt10(portEnv.value)
  {
    if TruthyText(portEnv) then ParseInt10(portEnv.value) else Int(3000)
  }

  /** `parseArgs(args)`, with `MCP_TRANSPORT` and `PORT` passed in. */
  function ParseArgs(args: seq<string>, mcpTransport: Option<string>, portEnv: Option<string>)
    : (c: ApplicationConfig)
    ensures c.transport == HTTP <==> WantsHttp(args, mcpTransport)
    ensures c.transport != HTTP ==> c.transport == STDIO
    ensures c.httpConfig.Some? <==> c.transport == HTTP
    ensures c.httpConfig.Some? ==> c.httpConfig.value == Http.HttpTransportConfig(Some(EnvPort(portEnv)), None)
  {
    var hasHttp := WantsHttp(args, mcpTransport);
    ApplicationConfig(if hasHttp then HTTP else STDIO,
                      if hasHttp then Some(Http.HttpTransportConfig(Some(EnvPort(portEnv)), None)) else None)
  }

  /** Of the arguments only the presence of "--http" matters; their order and
      every other argument are ignored. */
  lemma OnlyHttpFlagMatters(a: seq<string>, b: seq<string>, mcpTransport: Option<string>,
                            portEnv: Option<string>)
    requires "--http" in a <==> "--http" in b
    ensures ParseArgs(a, mcpTransport, portEnv) == ParseArgs(b, mcpTransport, portEnv)
  {
  }

  /** The parsed transport always has a factory, the HTTP one exactly when HTTP
      was asked for: starting the application never meets the
      "Unsupported transport type" error. */
  lemma ParsedTransportHasFactory(args: seq<string>, mcpTransport: Option<string>, portEnv: Option<string>)
    ensures var f := CreateTransportFactory(Name(ParseArgs(args, mcpTransport, portEnv).transport));
      f.Ok? && (f.value == HttpTransportFactory <==> WantsHttp(args, mcpTransport))
  {
    EveryTypeHasFactory(ParseArgs(args, mcpTransport, portEnv).transport);
  }

  /** The port the HTTP server listens on: PORT when it parses to a non-zero
      integer, and 3000 when it is unset, empty, zero or not a number. */
  lemma ListeningPort(args: seq<string>, mcpTransport: Option<string>, portEnv: Option<string>)
    requires WantsHttp(args, mcpTransport)
    ensures var port := Http.ConfigOf(ParseArgs(args, mcpTransport, portEnv).httpConfig).port;
      && (TruthyText(portEnv) && Truthy(ParseInt10(portEnv.value)) ==> port == ParseInt10(portEnv.value).value)
      && (!TruthyText(portEnv) || !Truthy(ParseInt10(portEnv.value)) ==> port == 3000)
  {
  }

  /** PORT holding the decimal digits of m is read as the number m. */
  lemma EnvPortOfDecimal(m: nat, portEnv: string)
    requires portEnv == ToDecimal(m)
    ensures EnvPort(Some(portEnv)) == Int(m)
  {
    ParseDecimal(m, "");
    assert ToDecimal(m) + "" == portEnv;
  }

  /** PORT holding the decimal digits of m gives port m, or 3000 when m is 0. */
  lemma ListeningPortOfDecimal(args: seq<string>, m: nat, portEnv: string)
    requires "--http" in args
    requires portEnv == ToDecimal(m)
    ensures Http.ConfigOf(ParseArgs(args, None, Some(portEnv)).httpConfig).port == if m == 0 then 3000 else m
  {
    EnvPortOfDecimal(m, portEnv);
    assert ParseArgs(args, None, Some(portEnv)).httpConfig == Some(Http.HttpTransportConfig(Some(Int(m)), None));
  }

  /** PORT=8080 is read as the number 8080. */
  lemma Port8080()
    ensures EnvPort(Some("8080")) == Int(8080)
  {
    assert ToDecimal(8) == "8";
    assert ToDecimal(80) == "80";
    assert ToDecimal(808) == "808";
    assert ToDecimal(8080) == "8080";
    EnvPortOfDecimal(8080, "8080");
  }

  /** PORT=0 is read as the number 0. */
  lemma Port0()
    ensures EnvPort(Some("0")) == Int(0)
  {
    assert ToDecimal(0) == "0";
    EnvPortOfDecimal(0, "0");
  }

  /** PORT=8080 gives port 8080. */
  lemma ListeningPort8080(args: seq<string>)
    requires "--http" in args
    ensures Http.ConfigOf(ParseArgs(args, None, Some("8080")).httpConfig).port == 8080
  {
    assert ToDecimal(8) == "8";
    assert ToDecimal(80) == "80";
    assert ToDecimal(808) == "808";
    assert ToDecimal(8080) == "8080";
    ListeningPortOfDecimal(args, 8080, "8080");
  }

  /** PORT=0 gives the default port 3000. */
  lemma ListeningPortZero(args: seq<string>)
    requires "--http" in args
    ensures Http.ConfigOf(ParseArgs(args, None, Some("0")).httpConfig).port == 3000
  {
    assert ToDecimal(0) == "0";
    ListeningPortOfDecimal(args, 0, "0");
  }
}
