/**
 * What the server's request handlers decide (server/handlers.go): the
 * JSON-RPC handler behind the "/" guard, the per-function URI handler,
 * turning a bound function's return values into a result, and the routing
 * of paths to handlers that `RegisterRPCFuncs` sets up.
 *
 * A handler's decision is an `Outcome`; writing it to the wire is the
 * business of the `HttpServer` module.
 */
module Dispatch {
  import opened Wrappers
  import opened RpcTypes
  import ArgDecoding
  import QueryDecoding

  /** The registered functions, by method name. */
  type Registry = map<string, RPCFunc>

  /** What a handler does with a request. */
  datatype Outcome =
    | NotFound
      /** The HTML listing of the endpoints. */
    | EndpointList
      /** Nothing is written: a notification. */
    | NoResponse
    | Respond(res: RPCResponse)
      /** The handler panics; the recovery wrapper deals with the value. */
    | Panicked(p: PanicValue)

  /** What `unreflectResult` makes of a bound function's return values. */
  datatype Unreflected = ResultPtr(v: Value) | ReturnedErr(e: Value) | IndexPanic

  /** The panic of indexing a slice past its end. */
  const IndexOutOfRange := PanicError("runtime error: index out of range")

  /**
   * `unreflectResult`: the second return value, when it is not nil, is the
   * error; otherwise the result is a fresh pointer to the first. With fewer
   * than two values the indexing panics.
   */
  function UnreflectResult(rets: seq<Value>): (u: Unreflected)
    ensures u.IndexPanic? <==> |rets| < 2
    ensures u.ReturnedErr? <==> |rets| >= 2 && rets[1] != Nil
    ensures u.ReturnedErr? ==> u.e == rets[1]
    ensures u.ResultPtr? ==> u.v == PtrTo(rets[0])
  {
    if |rets| < 2 then IndexPanic
    else if rets[1] != Nil then ReturnedErr(rets[1])
    else ResultPtr(PtrTo(rets[0]))
  }

  function ErrorResponse(id: string, kind: ErrorKind, cause: ErrorCause): Outcome {
    Respond(RPCResponse(id, Error(kind, cause)))
  }

  predicate IsError(r: Outcome, kind: ErrorKind) {
    r.Respond? && r.res.body.Error? && r.res.body.kind == kind
  }

  /**
   * Calling the bound function and answering for request `id`: a panic of
   * the function or of `unreflectResult` propagates; a returned error is an
   * internal error; otherwise a success carrying the result.
   */
  function Invoke(f: RPCFunc, args: seq<Value>, id: string): (r: Outcome)
    ensures r.Panicked? <==> f.f(args).Raised? || |f.f(args).values| < 2
    ensures f.f(args).Raised? ==> r == Panicked(f.f(args).p)
    ensures r.Respond? ==> r.res.id == id && f.f(args).Returned? && |f.f(args).values| >= 2
    ensures r.Respond? && r.res.body.Error? ==>
      r.res.body == Error(InternalError, ReturnedError(f.f(args).values[1])) && f.f(args).values[1] != Nil
    ensures r.Respond? && r.res.body.Result? ==>
      r.res.body.result == PtrTo(f.f(args).values[0]) && f.f(args).values[1] == Nil
    ensures f.f(args).Returned? && |f.f(args).values| < 2 ==> r == Panicked(IndexOutOfRange)
    ensures r.Respond? || r.Panicked?
  {
    match f.f(args)
    case Raised(p) => Panicked(p)
    case Returned(rets) =>
      match UnreflectResult(rets)
      case IndexPanic => Panicked(IndexOutOfRange)
      case ReturnedErr(e) => ErrorResponse(id, InternalError, ReturnedError(e))
      case ResultPtr(v) => Respond(RPCResponse(id, Result(v)))
  }

  /** The request a non-empty body parses to, if it does. */
  function ParsedRequest(env: Env, body: Result<string, string>): Option<RPCRequest> {
    if body.Ok? && body.value != "" then env.parseRequest(body.value) else None
  }

  /** A parsed request with a non-empty id: one that is answered. */
  predicate IsCall(env: Env, body: Result<string, string>) {
    ParsedRequest(env, body).Some? && ParsedRequest(env, body).value.id != ""
  }

  /** The call names a function the JSON-RPC handler serves. */
  predicate Callable(registry: Registry, req: RPCRequest) {
    req.methodName in registry && !registry[req.methodName].ws
  }

  /**
   * The arguments of a call: none without params; else the params decoded
   * as an object or an array, one value per argument name.
   */
  function CallArgs(env: Env, f: RPCFunc, params: string): (r: Result<seq<Value>, DecodeError>)
    requires |params| > 0 ==> ArgDecoding.JsonFits(env, f, params, 0)
    ensures |params| == 0 ==> r == Ok([])
    ensures |params| > 0 ==> r == ArgDecoding.JsonParamsToArgs(env, f, params, 0)
    ensures r.Ok? && |params| > 0 ==> |r.value| == |f.argNames|
    ensures r == Err(UnknownParamsShape) <==>
      |params| > 0 && env.parseObject(params).None? && env.parseArray(params).None?
  {
    if |params| > 0 then ArgDecoding.JsonParamsToArgsRPC(env, f, params) else Ok([])
  }

  /**
   * The call the handler would decode params for, if any, has a type for
   * every argument name that decoding indexes.
   */
  predicate CallFits(env: Env, registry: Registry, path: string, body: Result<string, string>) {
    IsCall(env, body) && |path| <= 1 && Callable(registry, ParsedRequest(env, body).value)
    && |ParsedRequest(env, body).value.params| > 0
    ==> var req := ParsedRequest(env, body).value;
        ArgDecoding.JsonFits(env, registry[req.methodName], req.params, 0)
  }

  /**
   * The handler of `makeJSONRPCHandler`, for a request to `path` whose body
   * was read as `body`; `freshId` stands for the generated id of the errors
   * that come before a request id is known. In order: a read failure is an
   * invalid request; an empty body lists the endpoints; an unparsable body
   * is a parse error; an empty id gets no response; a path longer than "/"
   * is an invalid request; an unknown or websocket-only method is not
   * found; params, when there are any, that do not decode are invalid
   * params; otherwise the function is called.
   */
  function JsonRpcInner(env: Env, registry: Registry, path: string, body: Result<string, string>, freshId: string)
    : (r: Outcome)
    requires CallFits(env, registry, path, body)
    ensures body.Err? ==> r == ErrorResponse(freshId, InvalidRequest, ReadFailure(body.error))
    ensures r == EndpointList <==> body == Ok("")
    ensures IsError(r, ParseError) <==> body.Ok? && body.value != "" && ParsedRequest(env, body).None?
    ensures IsError(r, ParseError) ==> r.res.id == freshId && r.res.body.cause == Unmarshalling
    ensures r == NoResponse <==> ParsedRequest(env, body).Some? && ParsedRequest(env, body).value.id == ""
    ensures IsCall(env, body) && r.Respond? ==> r.res.id == ParsedRequest(env, body).value.id
    ensures IsCall(env, body) && |path| > 1 ==>
      r == ErrorResponse(ParsedRequest(env, body).value.id, InvalidRequest, BadPath(path))
    ensures IsError(r, MethodNotFound) <==>
      IsCall(env, body) && |path| <= 1 && !Callable(registry, ParsedRequest(env, body).value)
    ensures IsError(r, InvalidParams) <==>
      IsCall(env, body) && |path| <= 1 && Callable(registry, ParsedRequest(env, body).value)
      && var req := ParsedRequest(env, body).value;
         CallArgs(env, registry[req.methodName], req.params).Err?
    ensures IsError(r, InvalidParams) ==>
      var req := ParsedRequest(env, body).value;
      r.res.body.cause == ParamsCause(CallArgs(env, registry[req.methodName], req.params).error)
    ensures r.Respond? && r.res.body.Result? ==>
      IsCall(env, body) && |path| <= 1 && Callable(registry, ParsedRequest(env, body).value)
      && var req := ParsedRequest(env, body).value;
         var args := CallArgs(env, registry[req.methodName], req.params);
         args.Ok? && r == Invoke(registry[req.methodName], args.value, req.id)
    ensures (IsCall(env, body) && |path| <= 1 && Callable(registry, ParsedRequest(env, body).value)
             && var req := ParsedRequest(env, body).value; CallArgs(env, registry[req.methodName], req.params).Ok?)
      ==> var req := ParsedRequest(env, body).value;
          r == Invoke(registry[req.methodName], CallArgs(env, registry[req.methodName], req.params).value, req.id)
    ensures r != NotFound
  {
    match body
    case Err(m) => ErrorResponse(freshId, InvalidRequest, ReadFailure(m))
    case Ok(b) =>
      if |b| == 0 then EndpointList
      else
        match env.parseRequest(b)
        case None => ErrorResponse(freshId, ParseError, Unmarshalling)
        case Some(req) =>
          if req.id == "" then NoResponse
          else if |path| > 1 then ErrorResponse(req.id, InvalidRequest, BadPath(path))
          else if req.methodName !in registry || registry[req.methodName].ws then
            ErrorResponse(req.id, MethodNotFound, NoCause)
          else
            var f := registry[req.methodName];
            match CallArgs(env, f, req.params)
            case Err(e) => ErrorResponse(req.id, InvalidParams, ParamsCause(e))
            case Ok(args) => Invoke(f, args, req.id)
  }

  /** `handleInvalidJSONRPCPaths`: only the path "/" reaches the JSON-RPC handler. */
  function JsonRpcHandler(env: Env, registry: Registry, path: string, body: Result<string, string>, freshId: string)
    : (r: Outcome)
    requires path == "/" ==> CallFits(env, registry, path, body)
    ensures r == NotFound <==> path != "/"
    ensures path == "/" ==> r == JsonRpcInner(env, registry, path, body, freshId)
  {
    if path != "/" then NotFound else JsonRpcInner(env, registry, path, body, freshId)
  }

  /** The error causes an outcome carries. */
  predicate HasBadPath(r: Outcome) {
    r.Respond? && r.res.body.Error? && r.res.body.cause.BadPath?
  }

  /** Behind the guard, the handler's own path check never fires. */
  lemma BadPathUnreachable(env: Env, registry: Registry, path: string, body: Result<string, string>, freshId: string)
    requires path == "/" ==> CallFits(env, registry, path, body)
    ensures !HasBadPath(JsonRpcHandler(env, registry, path, body, freshId))
  {
  }

  /**
   * A call whose params are an array of the wrong length is answered with
   * invalid params naming both counts and the argument names, whatever the
   * function's parameter types.
   */
  lemma CallArityMismatch(env: Env, registry: Registry, body: Result<string, string>, freshId: string)
    requires IsCall(env, body) && Callable(registry, ParsedRequest(env, body).value)
    requires var req := ParsedRequest(env, body).value;
      && |req.params| > 0 && env.parseObject(req.params).None? && env.parseArray(req.params).Some?
      && |env.parseArray(req.params).value| != |registry[req.methodName].argNames|
    ensures var req := ParsedRequest(env, body).value;
      var f := registry[req.methodName];
      var a := env.parseArray(req.params).value;
      JsonRpcHandler(env, registry, "/", body, freshId) ==
        ErrorResponse(req.id, InvalidParams, ParamsCause(ArityMismatch(|f.argNames|, f.argNames, |a|, a)))
  {
  }

  /** A notification is never answered, whatever method it names. */
  lemma NotificationIgnored(env: Env, registry: Registry, registry2: Registry, body: Result<string, string>, freshId: string)
    requires ParsedRequest(env, body).Some? && ParsedRequest(env, body).value.id == ""
    ensures JsonRpcHandler(env, registry, "/", body, freshId) == NoResponse
    ensures JsonRpcHandler(env, registry, "/", body, freshId) == JsonRpcHandler(env, registry2, "/", body, freshId)
  {
  }

  /**
   * `makeHTTPHandler`: a websocket-only function is not found, without
   * looking at the query; otherwise a query that does not decode is invalid
   * params, and else the function is called. Every answer has an empty id.
   */
  function HttpHandler(env: Env, f: RPCFunc, query: map<string, string>): (r: Outcome)
    requires f.ws || ArgDecoding.Fits(f, 0)
    ensures f.ws ==> r == ErrorResponse("", MethodNotFound, NoCause)
    ensures r.Respond? ==> r.res.id == ""
    ensures IsError(r, InvalidParams) <==> !f.ws && QueryDecoding.QueryArgs(env, f, query).Err?
    ensures IsError(r, InvalidParams) ==> r.res.body.cause == ParamsCause(QueryDecoding.QueryArgs(env, f, query).error)
    ensures !f.ws && QueryDecoding.QueryArgs(env, f, query).Ok? ==>
      r == Invoke(f, QueryDecoding.QueryArgs(env, f, query).value, "")
    ensures r != NotFound && r != EndpointList && r != NoResponse
  {
    if f.ws then ErrorResponse("", MethodNotFound, NoCause)
    else
      match QueryDecoding.QueryArgs(env, f, query)
      case Err(e) => ErrorResponse("", InvalidParams, ParamsCause(e))
      case Ok(args) => Invoke(f, args, "")
  }

  /** Where the mux of `RegisterRPCFuncs` sends a path. */
  datatype Route = FuncRoute(name: string) | RootRoute

  /** "/name" for a registered name goes to that function's handler; anything else to "/". */
  function RouteOf(registry: Registry, path: string): (r: Route)
    ensures r.FuncRoute? <==> |path| >= 1 && path[0] == '/' && path[1..] in registry
    ensures r.FuncRoute? ==> path == "/" + r.name && r.name in registry
  {
    if |path| >= 1 && path[0] == '/' && path[1..] in registry then FuncRoute(path[1..]) else RootRoute
  }

  /**
   * An HTTP request as the handlers see it: the host it was sent to, the
   * URL path and query, and the outcome of reading its body.
   */
  datatype Request = Request(host: string, path: string, query: map<string, string>, body: Result<string, string>)

  /**
   * The request reaches no indexing of a missing parameter type: a URI call
   * names a function with a type for every argument name, and a JSON-RPC
   * call decodes params only against such a function.
   */
  predicate Servable(env: Env, registry: Registry, req: Request) {
    && (RouteOf(registry, req.path).FuncRoute? ==>
          var f := registry[req.path[1..]]; f.ws || ArgDecoding.Fits(f, 0))
    && (RouteOf(registry, req.path).RootRoute? && req.path == "/" ==> CallFits(env, registry, req.path, req.body))
  }

  /**
   * The handler `RegisterRPCFuncs` installs, applied to one request: "/name"
   * to that function's URI handler, every other path to the JSON-RPC
   * handler, which lists the endpoints for an empty body sent to "/".
   */
  function Serve(env: Env, registry: Registry, req: Request, freshId: string): (r: Outcome)
    requires Servable(env, registry, req)
    ensures RouteOf(registry, req.path).FuncRoute? ==> r == HttpHandler(env, registry[req.path[1..]], req.query)
    ensures RouteOf(registry, req.path).RootRoute? ==> r == JsonRpcHandler(env, registry, req.path, req.body, freshId)
    ensures r == EndpointList <==> req.path == "/" && RouteOf(registry, req.path).RootRoute? && req.body == Ok("")
  {
    match RouteOf(registry, req.path)
    case FuncRoute(name) => HttpHandler(env, registry[name], req.query)
    case RootRoute => JsonRpcHandler(env, registry, req.path, req.body, freshId)
  }

  /**
   * Routing: a path is not found exactly when it is neither "/" nor
   * "/name" for a registered name, and an invalid-path error is never sent.
   */
  lemma ServeRouting(env: Env, registry: Registry, req: Request, freshId: string)
    requires Servable(env, registry, req)
    ensures Serve(env, registry, req, freshId) == NotFound <==>
      req.path != "/" && RouteOf(registry, req.path).RootRoute?
    ensures !HasBadPath(Serve(env, registry, req, freshId))
  {
    match RouteOf(registry, req.path)
    case FuncRoute(name) =>
    case RootRoute =>
      BadPathUnreachable(env, registry, req.path, req.body, freshId);
  }
}
