/** `createTransportFactory`: the transport kinds the program knows and the
    factory each one is served by. */
module Transports {
  import opened Wrappers
  import opened Errors

  /** `TransportType`. */
  datatype TransportType = STDIO | HTTP | SSE

  /** The enum's string values. */
  function Name(t: TransportType): string {
    match t
    case STDIO => "stdio"
    case HTTP => "http"
    case SSE => "sse"
  }

  datatype Factory = StdioTransportFactory | HttpTransportFactory

  /** `createTransportFactory(type)` on the runtime value of `type`: "http" and
      "sse" share the HTTP factory, and any other value is refused. */
  function CreateTransportFactory(kind: string): (r: Result<Factory, Thrown>)
    ensures r == Ok(StdioTransportFactory) <==> kind == "stdio"
    ensures r == Ok(HttpTransportFactory) <==> kind == "http" || kind == "sse"
    ensures r.Err? <==> kind != "stdio" && kind != "http" && kind != "sse"
    ensures r.Err? ==> r.error == ErrorObject("Unsupported transport type: " + kind)
  {
    if kind == "stdio" then Ok(StdioTransportFactory)
    else if kind == "http" || kind == "sse" then Ok(HttpTransportFactory)
    else Err(ErrorObject("Unsupported transport type: " + kind))
  }

  /** Every declared transport type has a factory; only STDIO gets the stdio one. */
  lemma EveryTypeHasFactory(t: TransportType)
    ensures CreateTransportFactory(Name(t)).Ok?
    ensures CreateTransportFactory(Name(t)).value == StdioTransportFactory <==> t == STDIO
  {
  }
}
