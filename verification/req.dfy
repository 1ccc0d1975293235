/** The HTTP layer of the SDK (src/req.rs): the classification of a raw
    response into success text or one of the crate's request errors, and the
    build / execute / parse sequence of `HttpClient::post` with its optional
    timing log. The transport steps and the `serde_json` decoder of error
    bodies are given as values. */
module Req {
  import opened Common

  /** The URL that `BaseUrl::Mainnet` names. */
  const MainnetUrl: string := "https://api.hyperliquid.xyz"

  const JsonContentType: string := "application/json"

  /** The exchange's structured error body `{data, code, msg}`. */
  datatype ErrorData = ErrorData(data: string, code: U16, msg: string)

  /** The request variants of the crate's `Error`. */
  datatype Error =
    | ClientRequest(statusCode: U16, errorCode: Option<U16>, errorMessage: string, errorData: Option<string>)
    | ServerRequest(statusCode: U16, errorMessage: string)
    | GenericRequest(message: string)

  /** The crate's `Result<T>`, whose error type is `Error`. */
  datatype Result<+T> = Ok(value: T) | Err(error: Error)

  /** A response as the transport hands it over: the status code, and the
      body text, whose reading can itself fail. */
  datatype Response = Response(status: U16, text: Fallible<string>)

  /** What `serde_json::from_str::<ErrorData>` makes of a body: the record,
      or the rendering of its parse error. */
  type ErrorDataDecoder = string -> Fallible<ErrorData>

  /** The three ways a status code is attributed. */
  datatype StatusClass = Success | ClientFault | ServerFault

  function ClassOf(status: U16): StatusClass
  {
    if status < 400 then Success else if status < 500 then ClientFault else ServerFault
  }

  /** The class a result of `ParseResponse` reports, if it reports one. */
  function ResultClass(r: Result<string>): Option<StatusClass>
  {
    match r
    case Ok(_) => Some(Success)
    case Err(ClientRequest(_, _, _, _)) => Some(ClientFault)
    case Err(ServerRequest(_, _)) => Some(ServerFault)
    case Err(GenericRequest(_)) => None
  }

  /** `parse_response`. */
  function ParseResponse(response: Response, decode: ErrorDataDecoder): (r: Result<string>)
    ensures r.Err? && r.error.GenericRequest? <==> response.text.Failed?
    ensures response.text.Failed? ==> r == Err(GenericRequest(response.text.reason))
    ensures response.text.Done? ==> ResultClass(r) == Some(ClassOf(response.status))
    ensures r.Ok? ==> r.value == response.text.value
    ensures r.Err? && !r.error.GenericRequest? ==> r.error.statusCode == response.status
  {
    match response.text
    case Failed(e) => Err(GenericRequest(e))
    case Done(text) =>
      if response.status < 400 then Ok(text)
      else if response.status < 500 then
        match decode(text)
        case Done(d) => Err(ClientRequest(response.status, Some(d.code), d.msg, Some(d.data)))
        case Failed(e) => Err(ClientRequest(response.status, None, text, Some(e)))
      else Err(ServerRequest(response.status, text))
  }

  /** The three status classes cover every `u16`, and only a 4xx status
      yields a `ClientRequest`, only a status of 500 or more a
      `ServerRequest`. */
  lemma StatusClassesPartition(response: Response, decode: ErrorDataDecoder)
    requires response.text.Done?
    ensures var r := ParseResponse(response, decode);
      && (r.Ok? <==> response.status < 400)
      && (r.Err? && r.error.ClientRequest? <==> 400 <= response.status < 500)
      && (r.Err? && r.error.ServerRequest? <==> 500 <= response.status)
  {
  }

  /** Below 400 the body comes back verbatim, whatever it holds. */
  lemma SuccessKeepsBody(status: U16, text: string, decode: ErrorDataDecoder)
    requires status < 400
    ensures ParseResponse(Response(status, Done(text)), decode) == Ok(text)
  {
  }

  /** A 4xx status with a body that parses as `ErrorData` reports its code,
      message and data. */
  lemma ClientErrorFromParsedBody(status: U16, text: string, decode: ErrorDataDecoder)
    requires 400 <= status < 500
    requires decode(text).Done?
    ensures var d := decode(text).value;
      ParseResponse(Response(status, Done(text)), decode)
        == Err(ClientRequest(status, Some(d.code), d.msg, Some(d.data)))
  {
  }

  /** A 4xx status with a body that does not parse reports no code, the raw
      body as message and the parse error as data. */
  lemma ClientErrorFromUnparsedBody(status: U16, text: string, decode: ErrorDataDecoder)
    requires 400 <= status < 500
    requires decode(text).Failed?
    ensures ParseResponse(Response(status, Done(text)), decode)
      == Err(ClientRequest(status, None, text, Some(decode(text).reason)))
  {
  }

  /** Outside 4xx the decoder is never consulted: a 5xx is a
      `ServerRequest` with the raw body even when that body is a well-formed
      `ErrorData`. */
  lemma DecoderOnlyMattersFor4xx(response: Response, decode1: ErrorDataDecoder, decode2: ErrorDataDecoder)
    requires !(400 <= response.status < 500)
    ensures ParseResponse(response, decode1) == ParseResponse(response, decode2)
    ensures response.text.Done? && 500 <= response.status ==>
      ParseResponse(response, decode1) == Err(ServerRequest(response.status, response.text.value))
  {
  }

  /** `HttpClient`, less the pooled `reqwest::Client`, which is the transport
      parameter of `Post`. */
  datatype HttpClient = HttpClient(baseUrl: string)

  /** The parts of a built request the model keeps. */
  datatype Request = Request(url: string, contentType: string, body: string)

  /** The steps `reqwest` performs and that may fail: `build` reports the
      fault it finds in a request, if any; `execute` sends it. */
  datatype Transport = Transport(
    buildFault: Request -> Option<string>,
    execute: Request -> Fallible<Response>)

  /** One `[PERF]` line of `post`; the measured milliseconds are left out. */
  datatype PerfLine = BuildLine | ExecuteLine | ParseLine | TotalLine

  /** The lines of a run that reaches every step, in the order printed. */
  const AllPerfLines: seq<PerfLine> := [BuildLine, ExecuteLine, ParseLine, TotalLine]

  /** `format!("{}{url_path}", self.base_url)`. */
  function FullUrl(client: HttpClient, urlPath: string): (url: string)
    ensures |url| == |client.baseUrl| + |urlPath|
    ensures url[..|client.baseUrl|] == client.baseUrl
    ensures url[|client.baseUrl|..] == urlPath
  {
    client.baseUrl + urlPath
  }

  /** Two paths under the same base give the same URL only when they are
      the same path. */
  lemma FullUrlInjective(client: HttpClient, path1: string, path2: string)
    requires FullUrl(client, path1) == FullUrl(client, path2)
    ensures path1 == path2
  {
    assert path1 == FullUrl(client, path1)[|client.baseUrl|..];
  }

  /** The request `post` assembles before `build()` checks it. */
  function MakeRequest(client: HttpClient, urlPath: string, data: string): (req: Request)
    ensures |req.url| == |client.baseUrl| + |urlPath|
    ensures req.url[..|client.baseUrl|] == client.baseUrl && req.url[|client.baseUrl|..] == urlPath
    ensures req.contentType == JsonContentType
    ensures req.body == data
  {
    Request(FullUrl(client, urlPath), JsonContentType, data)
  }

  /** `HttpClient::post`: the result, and the timing lines printed when the
      `HL_PERF_PROFILE` flag is set. */
  function Post(client: HttpClient, urlPath: string, data: string, transport: Transport, decode: ErrorDataDecoder, perfProfile: bool)
    : (out: (Result<string>, seq<PerfLine>))
    ensures !perfProfile ==> out.1 == []
    ensures perfProfile ==> |out.1| <= 4 && out.1 == AllPerfLines[..|out.1|]
    ensures var req := MakeRequest(client, urlPath, data);
      transport.buildFault(req).None? && transport.execute(req).Done? ==>
        out.0 == ParseResponse(transport.execute(req).value, decode)
  {
    var req := MakeRequest(client, urlPath, data);
    match transport.buildFault(req)
    case Some(e) => (Err(GenericRequest(e)), [])
    case None =>
      var built := if perfProfile then [BuildLine] else [];
      match transport.execute(req)
      case Failed(e) => (Err(GenericRequest(e)), built)
      case Done(response) =>
        var executed := if perfProfile then built + [ExecuteLine] else built;
        var result := ParseResponse(response, decode);
        (result, if perfProfile then executed + [ParseLine, TotalLine] else executed)
  }

  /** The flag only adds log lines: the result is the same with and without
      it. */
  lemma PerfFlagDoesNotChangeResult(client: HttpClient, urlPath: string, data: string, transport: Transport, decode: ErrorDataDecoder)
    ensures Post(client, urlPath, data, transport, decode, true).0 == Post(client, urlPath, data, transport, decode, false).0
  {
  }

  /** A failure to build the request, to execute it or to read the body is
      a `GenericRequest` carrying that step's message, never a
      status-bearing error. */
  lemma TransportFailureIsGeneric(client: HttpClient, urlPath: string, data: string, transport: Transport, decode: ErrorDataDecoder, perfProfile: bool)
    ensures var req := MakeRequest(client, urlPath, data);
      var r := Post(client, urlPath, data, transport, decode, perfProfile).0;
      && (transport.buildFault(req).Some? ==> r == Err(GenericRequest(transport.buildFault(req).value)))
      && (transport.buildFault(req).None? && transport.execute(req).Failed? ==>
            r == Err(GenericRequest(transport.execute(req).reason)))
      && (transport.buildFault(req).None? && transport.execute(req).Done?
          && transport.execute(req).value.text.Failed? ==>
            r == Err(GenericRequest(transport.execute(req).value.text.reason)))
  {
  }

  /** Conversely, a `ClientRequest` or `ServerRequest` from `post` means the
      request was built and sent to `base_url ++ url_path` with `data` as
      its body, and the server answered with the status it reports. */
  lemma StatusErrorMeansServerAnswered(client: HttpClient, urlPath: string, data: string, transport: Transport, decode: ErrorDataDecoder, perfProfile: bool)
    requires var r := Post(client, urlPath, data, transport, decode, perfProfile).0;
      r.Err? && !r.error.GenericRequest?
    ensures var req := MakeRequest(client, urlPath, data);
      && req.url == client.baseUrl + urlPath && req.body == data
      && transport.buildFault(req).None?
      && transport.execute(req).Done?
      && transport.execute(req).value.text.Done?
      && transport.execute(req).value.status >= 400
      && Post(client, urlPath, data, transport, decode, perfProfile).0.error.statusCode == transport.execute(req).value.status
  {
  }

  /** With the flag set, the log records exactly the steps that completed:
      all four lines once the response reached the parse step (a failure to
      read the body included), the build line alone when execution failed,
      nothing when building failed. */
  lemma PerfLinesTrackProgress(client: HttpClient, urlPath: string, data: string, transport: Transport, decode: ErrorDataDecoder)
    ensures var req := MakeRequest(client, urlPath, data);
      var log := Post(client, urlPath, data, transport, decode, true).1;
      && (log == [] <==> transport.buildFault(req).Some?)
      && (log == [BuildLine] <==> transport.buildFault(req).None? && transport.execute(req).Failed?)
      && (log == AllPerfLines <==> transport.buildFault(req).None? && transport.execute(req).Done?)
  {
  }

  /** `HttpClient::is_mainnet`. */
  predicate IsMainnet(client: HttpClient)
  {
    client.baseUrl == MainnetUrl
  }

  /** A mainnet client posts to the exchange at the host the latency tools
      address directly, and only a mainnet client does. */
  lemma MainnetExchangeUrl(client: HttpClient)
    ensures IsMainnet(client) <==> FullUrl(client, "/exchange") == "https://api.hyperliquid.xyz/exchange"
  {
    var url := FullUrl(client, "/exchange");
    if url == "https://api.hyperliquid.xyz/exchange" {
      assert |client.baseUrl| == |MainnetUrl|;
      assert client.baseUrl == url[..|MainnetUrl|] == MainnetUrl;
    }
  }
}
