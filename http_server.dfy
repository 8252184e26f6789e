/**
 * The HTTP plumbing of server/http_server.go: splitting the listen address,
 * the connection-limit rule, the request-body cap, the status-remembering
 * `ResponseWriterWrapper`, the two response writers, and the recovering
 * wrapper every request passes through, with the mux of `RegisterRPCFuncs`
 * inside it.
 */
module HttpServer {
  import opened Wrappers
  import opened RpcTypes
  import Strings
  import Dispatch
  import Endpoints

  // ---------------------------------------------------------------------------
  // Starting a server

  /** `Config`: the limit on open connections, none when not positive. */
  datatype Config = Config(maxOpenConnections: int)

  /** `maxBodyBytes`: 1 MiB. */
  const MaxBodyBytes: nat := 1024 * 1024

  /** What `net.Listen` is asked for, and the limit put on the listener. */
  datatype ListenPlan = ListenPlan(proto: string, addr: string, limit: Option<nat>)

  /** The panic message of a listen address without "://". */
  function InvalidAddress(listenAddr: string): string {
    "Invalid listening address " + listenAddr + " (use fully formed addresses, including the tcp:// or unix:// prefix)"
  }

  /** The connection limit: installed only when the configured value is positive. */
  function ConnectionLimit(config: Config): (l: Option<nat>)
    ensures l.Some? <==> config.maxOpenConnections > 0
    ensures l.Some? ==> l.value == config.maxOpenConnections
  {
    if config.maxOpenConnections > 0 then Some(config.maxOpenConnections as nat) else None
  }

  /**
   * The address handling of `StartHTTPServer` and `StartHTTPAndTLSServer`:
   * `strings.SplitN(listenAddr, "://", 2)` must give two parts, the protocol
   * before the first "://" and the address after it; otherwise the start
   * panics with `InvalidAddress`.
   */
  function StartPlan(listenAddr: string, config: Config): (r: Result<ListenPlan, string>)
    ensures r.Err? <==> Strings.Index(listenAddr, "://").None?
    ensures r.Err? ==> r.error == InvalidAddress(listenAddr)
    ensures r.Ok? ==> listenAddr == r.value.proto + "://" + r.value.addr
    ensures r.Ok? ==> forall j :: 0 <= j < |r.value.proto| ==> !Strings.OccursAt(listenAddr, "://", j)
    ensures r.Ok? ==> r.value.limit == ConnectionLimit(config)
  {
    var parts := Strings.SplitN2(listenAddr, "://");
    if |parts| != 2 then Err(InvalidAddress(listenAddr))
    else
      assert listenAddr == parts[0] + "://" + parts[1] by {
        var i := Strings.Index(listenAddr, "://").value;
        assert listenAddr == listenAddr[..i] + listenAddr[i..i + 3] + listenAddr[i + 3..];
      }
      Ok(ListenPlan(parts[0], parts[1], ConnectionLimit(config)))
  }

  /** A protocol without ':' is recovered from "proto://addr", whatever the address holds. */
  lemma StartPlanRoundTrip(proto: string, addr: string, config: Config)
    requires ':' !in proto
    ensures StartPlan(proto + "://" + addr, config) == Ok(ListenPlan(proto, addr, ConnectionLimit(config)))
  {
    var s := proto + "://" + addr;
    assert Strings.OccursAt(s, "://", |proto|) by {
      assert s[|proto|..|proto| + 3] == "://";
    }
    forall j | 0 <= j < |proto| ensures !Strings.OccursAt(s, "://", j) {
      assert s[j] == proto[j];
    }
    var r := StartPlan(s, config);
    assert r.Ok?;
    assert Strings.Index(s, "://") == Some(|proto|);
    assert r.value.proto == s[..|proto|] == proto;
    assert r.value.addr == s[|proto| + 3..] == addr;
  }

  /** The error `http.MaxBytesReader` gives once more than the cap is read. */
  const BodyTooLarge := "http: request body too large"

  /**
   * `maxBytesHandler`: the body the handler reads is the body that was read,
   * unless that is longer than `MaxBodyBytes`, which is a read error.
   */
  function CappedBody(read: Result<string, string>): (r: Result<string, string>)
    ensures r.Ok? <==> read.Ok? && |read.value| <= MaxBodyBytes
    ensures r.Ok? ==> r == read
    ensures r.Err? ==> r.error == (if read.Err? then read.error else BodyTooLarge)
  {
    match read
    case Err(e) => Err(e)
    case Ok(b) => if |b| > MaxBodyBytes then Err(BodyTooLarge) else Ok(b)
  }

  // ---------------------------------------------------------------------------
  // Writing responses

  /**
   * `ResponseWriterWrapper` around the response being written: `Status` is
   * the status it remembers for the log; `header`, `sent` (every status
   * passed on to the underlying writer) and `body` are what the writer has
   * been given.
   */
  class ResponseWriterWrapper {
    var Status: int
    var header: map<string, string>
    var sent: seq<int>
    var body: string

    /** `&ResponseWriterWrapper{-1, w}` around a fresh response. */
    constructor ()
      ensures Status == -1 && header == map[] && sent == [] && body == ""
    {
      Status := -1;
      header := map[];
      sent := [];
      body := "";
    }

    /** `Header().Set(key, value)`. */
    method SetHeader(key: string, value: string)
      modifies this
      ensures header == old(header)[key := value]
      ensures Status == old(Status) && sent == old(sent) && body == old(body)
    {
      header := header[key := value];
    }

    /** `WriteHeader`: remember the latest status and pass it on. */
    method WriteHeader(status: int)
      modifies this
      ensures Status == status
      ensures sent == old(sent) + [status]
      ensures header == old(header) && body == old(body)
    {
      Status := status;
      sent := sent + [status];
    }

    /** `Write`. */
    method Write(b: string)
      modifies this
      ensures body == old(body) + b
      ensures Status == old(Status) && header == old(header) && sent == old(sent)
    {
      body := body + b;
    }

    /** A status never written is logged as 200. */
    method DefaultStatus()
      modifies this
      ensures Status == (if old(Status) == -1 then 200 else old(Status))
      ensures header == old(header) && sent == old(sent) && body == old(body)
    {
      if Status == -1 {
        Status := 200;
      }
    }

    /** The status on the wire: `net/http` keeps the first, 200 if none. */
    function WireStatus(): int
      reads this
    {
      if sent == [] then 200 else sent[0]
    }
  }

  /** `WriteRPCResponseHTTPError`: JSON with the caller's status. */
  method WriteRPCResponseHTTPError(env: Env, w: ResponseWriterWrapper, httpCode: int, res: RPCResponse)
    modifies w
    ensures w.header == old(w.header)["Content-Type" := "application/json"]
    ensures w.Status == httpCode && w.sent == old(w.sent) + [httpCode]
    ensures w.body == old(w.body) + env.marshal(res)
  {
    var jsonBytes := env.marshal(res);
    w.SetHeader("Content-Type", "application/json");
    w.WriteHeader(httpCode);
    w.Write(jsonBytes);
  }

  /** `WriteRPCResponseHTTP`: JSON with status 200, for errors as for results. */
  method WriteRPCResponseHTTP(env: Env, w: ResponseWriterWrapper, res: RPCResponse)
    modifies w
    ensures w.header == old(w.header)["Content-Type" := "application/json"]
    ensures w.Status == 200 && w.sent == old(w.sent) + [200]
    ensures w.body == old(w.body) + env.marshal(res)
  {
    var jsonBytes := env.marshal(res);
    w.SetHeader("Content-Type", "application/json");
    w.WriteHeader(200);
    w.Write(jsonBytes);
  }

  const NotFoundText := "404 page not found\n"

  /** `http.NotFound`: a plain-text 404. */
  method WriteNotFound(w: ResponseWriterWrapper)
    modifies w
    ensures w.header == old(w.header)["Content-Type" := "text/plain; charset=utf-8"]["X-Content-Type-Options" := "nosniff"]
    ensures w.Status == 404 && w.sent == old(w.sent) + [404]
    ensures w.body == old(w.body) + NotFoundText
  {
    w.SetHeader("Content-Type", "text/plain; charset=utf-8");
    w.SetHeader("X-Content-Type-Options", "nosniff");
    w.WriteHeader(404);
    w.Write(NotFoundText);
  }

  /** The end of `writeListOfEndpoints`: the page as HTML with status 200. */
  method WriteListOfEndpoints(w: ResponseWriterWrapper, host: string, registry: Dispatch.Registry)
    modifies w
    ensures w.header == old(w.header)["Content-Type" := "text/html"]
    ensures w.Status == 200 && w.sent == old(w.sent) + [200]
    ensures w.body == old(w.body) + Endpoints.Listing(host, registry)
  {
    var page := Endpoints.ListOfEndpoints(host, registry);
    w.SetHeader("Content-Type", "text/html");
    w.WriteHeader(200);
    w.Write(page);
  }

  // ---------------------------------------------------------------------------
  // Recovering from a panic

  /** What the recovery does with a panic value. */
  datatype Recovery =
      /** An `RPCResponse` is written as it is. */
    | Relay(res: RPCResponse)
      /** Anything else: status 500, then an internal error with an empty id. */
    | Fail(res: RPCResponse)

  function Recover(p: PanicValue): (r: Recovery)
    ensures p.PanicResponse? <==> r.Relay?
    ensures p.PanicResponse? ==> r.res == p.res
    ensures p.PanicError? ==> r.res == RPCResponse("", Error(InternalError, PanicCause(p.msg)))
  {
    match p
    case PanicResponse(res) => Relay(res)
    case PanicError(msg) => Fail(RPCResponse("", Error(InternalError, PanicCause(msg))))
  }

  /** The headers set on every response before the handler runs. */
  function CommonHeaders(origin: string, serverTime: string): map<string, string> {
    map[]["Access-Control-Allow-Origin" := origin]["Access-Control-Allow-Credentials" := "true"]
      ["Access-Control-Expose-Headers" := "X-Server-Time"]["X-Server-Time" := serverTime]
  }

  /** The statuses handed to the underlying writer for an outcome. */
  function SentFor(o: Dispatch.Outcome): seq<int> {
    match o
    case NotFound => [404]
    case EndpointList => [200]
    case NoResponse => []
    case Respond(_) => [200]
    case Panicked(p) => if Recover(p).Relay? then [200] else [500, 200]
  }

  /** The status the log line shows for an outcome: the last written, or 200. */
  function LoggedStatus(o: Dispatch.Outcome): int {
    var sent := SentFor(o);
    if sent == [] then 200 else sent[|sent| - 1]
  }

  /** The status that reaches the client for an outcome: the first written, or 200. */
  function WireStatusFor(o: Dispatch.Outcome): int {
    var sent := SentFor(o);
    if sent == [] then 200 else sent[0]
  }

  /** The final headers for an outcome. */
  function HeadersFor(origin: string, serverTime: string, o: Dispatch.Outcome): map<string, string> {
    var common := CommonHeaders(origin, serverTime);
    match o
    case NotFound => common["Content-Type" := "text/plain; charset=utf-8"]["X-Content-Type-Options" := "nosniff"]
    case EndpointList => common["Content-Type" := "text/html"]
    case NoResponse => common
    case Respond(_) => common["Content-Type" := "application/json"]
    case Panicked(_) => common["Content-Type" := "application/json"]
  }

  /** The body written for an outcome. */
  ghost function BodyFor(env: Env, host: string, registry: Dispatch.Registry, o: Dispatch.Outcome): string {
    match o
    case NotFound => NotFoundText
    case EndpointList => Endpoints.Listing(host, registry)
    case NoResponse => ""
    case Respond(res) => env.marshal(res)
    case Panicked(p) => env.marshal(Recover(p).res)
  }

  /** The request the mux sees: its body capped by `maxBytesHandler`. */
  function Capped(req: Dispatch.Request): Dispatch.Request {
    req.(body := CappedBody(req.body))
  }

  /**
   * `RecoverAndLogHandler(maxBytesHandler{mux, maxBodyBytes})` serving one
   * request: the common headers, then the handler's outcome written out (a
   * panic written by the recovery), then the logged status defaulted.
   * `origin` is the request's Origin header and `serverTime` the formatted
   * Unix time of the start.
   */
  method RecoverAndLogHandler(env: Env, registry: Dispatch.Registry, req: Dispatch.Request,
                              origin: string, serverTime: string, freshId: string)
    returns (w: ResponseWriterWrapper)
    requires Dispatch.Servable(env, registry, Capped(req))
    ensures fresh(w)
    ensures var o := Dispatch.Serve(env, registry, Capped(req), freshId);
      && w.header == HeadersFor(origin, serverTime, o)
      && w.sent == SentFor(o)
      && w.body == BodyFor(env, req.host, registry, o)
      && w.Status == LoggedStatus(o)
      && w.WireStatus() == WireStatusFor(o)
  {
    w := new ResponseWriterWrapper();
    w.SetHeader("Access-Control-Allow-Origin", origin);
    w.SetHeader("Access-Control-Allow-Credentials", "true");
    w.SetHeader("Access-Control-Expose-Headers", "X-Server-Time");
    w.SetHeader("X-Server-Time", serverTime);
    var o := Dispatch.Serve(env, registry, Capped(req), freshId);
    match o {
      case NotFound =>
        WriteNotFound(w);
      case EndpointList =>
        WriteListOfEndpoints(w, req.host, registry);
      case NoResponse =>
      case Respond(res) =>
        WriteRPCResponseHTTP(env, w, res);
      case Panicked(p) =>
        match Recover(p) {
          case Relay(res) =>
            WriteRPCResponseHTTP(env, w, res);
          case Fail(res) =>
            w.WriteHeader(500);
            WriteRPCResponseHTTP(env, w, res);
        }
    }
    w.DefaultStatus();
  }

  // ---------------------------------------------------------------------------
  // Properties

  /**
   * Every answer of an RPC handler goes out with status 200, error or not:
   * only a not-found path and a panic that is not an `RPCResponse` do not.
   */
  lemma StatusIs200(o: Dispatch.Outcome)
    ensures WireStatusFor(o) == 200 <==>
      !o.NotFound? && !(o.Panicked? && Recover(o.p).Fail?)
    ensures o.NotFound? ==> WireStatusFor(o) == 404
    ensures o.Panicked? && Recover(o.p).Fail? ==> WireStatusFor(o) == 500
  {
  }

  /**
   * The logged status agrees with the wire except after a failed handler:
   * its 500 goes out, but the response written after it leaves 200 in the log.
   */
  lemma LoggedVersusWire(o: Dispatch.Outcome)
    ensures LoggedStatus(o) != WireStatusFor(o) <==> o.Panicked? && Recover(o.p).Fail?
    ensures o.Panicked? && Recover(o.p).Fail? ==> LoggedStatus(o) == 200 && WireStatusFor(o) == 500
  {
  }

  /** The CORS headers echo the Origin and allow credentials, whatever the outcome. */
  lemma CorsHeaders(origin: string, serverTime: string, o: Dispatch.Outcome)
    ensures var h := HeadersFor(origin, serverTime, o);
      && h["Access-Control-Allow-Origin"] == origin
      && h["Access-Control-Allow-Credentials"] == "true"
      && h["Access-Control-Expose-Headers"] == "X-Server-Time"
      && h["X-Server-Time"] == serverTime
  {
  }

  /** No body over the cap reaches a handler: it is a read error for the JSON-RPC handler. */
  lemma OversizedBodyRejected(env: Env, registry: Dispatch.Registry, req: Dispatch.Request, freshId: string)
    requires req.path == "/" && req.body.Ok? && |req.body.value| > MaxBodyBytes
    requires Dispatch.RouteOf(registry, req.path).RootRoute?
    ensures Dispatch.Serve(env, registry, Capped(req), freshId) ==
      Dispatch.ErrorResponse(freshId, InvalidRequest, ReadFailure(BodyTooLarge))
  {
  }

  /**
   * A bound function that returns fewer than two values makes
   * `unreflectResult` index past the end: the client gets a 500 with an
   * internal error naming the index panic, and the log shows 200.
   */
  lemma ShortReturnIs500(f: RPCFunc, args: seq<Value>, id: string)
    requires f.f(args).Returned? && |f.f(args).values| < 2
    ensures var o := Dispatch.Invoke(f, args, id);
      && WireStatusFor(o) == 500 && LoggedStatus(o) == 200
      && Recover(o.p) == Fail(RPCResponse("", Error(InternalError, PanicCause(Dispatch.IndexOutOfRange.msg))))
  {
  }
}
