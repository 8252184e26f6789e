# krpc server core in Dafny

A model of the dispatch core of the krpc RPC server (Go). Application code
registers named functions once, and the server exposes each of them in two
ways: as a per-method HTTP endpoint taking query-string arguments, and through
a single JSON-RPC endpoint at "/".

The model covers:

- **Registration**: introspecting a function into an `RPCFunc` with its
  parameter types, result types, argument names and websocket-only flag.
- **Argument decoding** under three conventions:
  - a JSON object decoded by argument name;
  - a JSON array decoded by position;
  - the query-string heuristics (integer literal, `0x` hex, quoted bytes, then
    the codec), which recurse through pointer types.
- **The handlers' decisions**:
  - the "/" guard;
  - the JSON-RPC request classification;
  - the per-method URI handler;
  - `unreflectResult`;
  - the routing that `RegisterRPCFuncs` sets up.
- **The endpoint listing page**: functions without parameters, then those with
  parameters, each group sorted.
- **The HTTP plumbing**:
  - splitting the listen address;
  - the connection-limit rule;
  - the 1 MiB body cap;
  - the status-remembering `ResponseWriterWrapper`;
  - the JSON response writers;
  - the panic-recovering wrapper around every request.

Go strings, `[]byte` and `json.RawMessage` are Dafny `string`s with one char
per byte. The amino codec and `encoding/json` are not part of this model. They
appear as the fields of an `Env` value:

- the typed decoder;
- the JSON string decoder;
- the object, array and request parsers;
- the response marshaller;
- the `RE_INT` integer pattern.

`Env` is passed to every operation that uses them. Bound functions are values
of type `seq<Value> -> CallResult`: they either return values or panic.

Modules, in dependency order:

- `Wrappers`: `Option` and `Result`.
- `Strings`: the parts of `strings` and `sort` the server uses.
- `Hex`: `hex.DecodeString`, with `hex.EncodeToString` as its partner.
- `RpcTypes`: types, values, requests, responses and the `Env` collaborators.
- `Registry`: `newRPCFunc` and the two introspection loops.
- `ArgDecoding`: `mapParamsToArgs`, `arrayParamsToArgs` and `jsonParamsToArgs` with its RPC and WS variants.
- `QueryDecoding`: `httpParamsToArgs`, `nonJSONStringToArg`, `_nonJSONStringToArg` and `jsonStringToArg`.
- `Dispatch`: `makeJSONRPCHandler`, `handleInvalidJSONRPCPaths`, `makeHTTPHandler`, `unreflectResult` and `RegisterRPCFuncs` routing.
- `Endpoints`: `writeListOfEndpoints`.
- `HttpServer`: server/http_server.go.

The loops of the source are methods, each proved equal to a specification
function:

- the slice-filling decoders (`MapParamsToArgs`, `ArrayParamsToArgs`, `HttpParamsToArgs`);
- the type-introspection loops;
- the endpoint-page construction, including the `+=` link builder;
- the status-tracking writer, which is a class.

Lemmas state what those specification functions mean.

Four behaviours of the code that the model keeps as they are written:

- **Return shape.** `unreflectResult` assumes that a bound function returns a
  result and an error (server/handlers.go:396), and registration never checks
  this: `newRPCFunc` only splits the names. A function with fewer than two
  results makes `returns[1]` panic at call time, and the recovery wrapper then
  turns that panic into a 500 (`HttpServer.ShortReturnIs500`).
- **Absent fields.** Named decoding substitutes the zero value when a field is
  absent or its raw JSON is empty. A JSON `null` is not empty and goes to the
  codec.
- **A bare `0xabc` for a string parameter.** This query value takes the hex
  branch and is an odd-length hex error (`HexOddLength`). The test at
  rpc_test.go:265-272 expects `0xabc` to be echoed back through the URI
  client, from which the model infers that the client sends string arguments
  quoted; the quoted `"0xabc"` reaches the codec and comes back as its text
  (`QuotedStringGoesToCodec`).
- **Decode errors do not name the field.** Only the arity error of positional
  decoding lists the argument names.

## Model

| member | source | states |
|---|---|---|
| Registry.FuncArgTypes | server/handlers.go:66-74 | returns the function's parameter types, one per parameter, in order |
| Registry.FuncReturnTypes | server/handlers.go:77-85 | returns the function's result types, one per result, in order |
| Registry.NewRPCFunc | server/handlers.go:51-63 | keeps the bound function itself and records the parameter types, result types and ws flag unchanged, with no check of the result shape; the names come from splitting `args` on ","; there are none exactly when `args` is empty; joining the names with "," gives `args` back; no name contains "," |
| Registry.ArgNamesOfJoin | server/handlers.go:51-55 | splitting the join of comma-free names gives those names back |
| Strings.Split | server/handlers.go:54 | returns at least one piece, and no piece contains the separator |
| Strings.JoinSplit | server/handlers.go:54 | joining the pieces of a split with the separator restores the input |
| Strings.SplitJoin | server/handlers.go:54 | splitting a join of separator-free pieces restores the pieces |
| Strings.ToLower | server/handlers.go:338 | returns the same length, with each char lower-cased (ASCII) |
| Strings.IndexFrom | server/http_server.go:33 | returns the first occurrence of the separator at or after `k`, or None when there is none |
| Strings.SortStrings | server/handlers.go:421-422 | returns a permutation of its input that is sorted in Go's byte-wise string order |
| Strings.StrictlySortedUnique | server/handlers.go:421-422 | two strictly ascending sequences with the same elements are equal, so the sorted listing does not depend on map iteration order |
| Strings.SortedElements | server/handlers.go:421-422 | returns exactly the elements of the set, strictly ascending |
| Hex.DecodeString | server/handlers.go:369 | succeeds exactly when the length is even and every char is a hex digit, giving one byte per digit pair; reports the first non-hex char even in an odd-length input; an odd length with only hex digits is `ErrLength` |
| Hex.DecodeEncode | server/handlers.go:369 | decoding the hex encoding of any bytes gives those bytes back |
| Hex.EncodeDecode | server/handlers.go:369 | re-encoding a successful decoding gives back the digits, lower-cased |
| ArgDecoding.CodecDecode | server/handlers.go:165-170 | succeeds exactly when the codec does, with its value; a codec failure is reported as that codec error |
| ArgDecoding.Collect | server/handlers.go:162-170 | succeeds exactly when every slot does, with the slot values in order; otherwise returns the error of the first failing slot |
| ArgDecoding.CollectFirstError | server/handlers.go:165-170 | the first failing slot's error is the one returned |
| ArgDecoding.NamedArgsMeaning | server/handlers.go:160-178 | named decoding returns exactly one value per argument name: the codec's decoding of the field against `args[i+offset]` when the field is present and non-empty, and the zero value otherwise; or else the codec error of the first failing field, with no values |
| ArgDecoding.MapParamsToArgs | server/handlers.go:160-178 | the slice-filling loop returns exactly what named decoding specifies |
| ArgDecoding.PositionalArgs | server/handlers.go:180-184 | returns an arity error with the expected count, the names, the received count and the params exactly when the counts differ |
| ArgDecoding.PositionalArgsMeaning | server/handlers.go:186-196 | with matching counts, returns one value per element, element i decoded against `args[i+offset]`; or else the codec error of the first failing element, with no values |
| ArgDecoding.ArrayParamsToArgs | server/handlers.go:180-197 | the count check and the slice-filling loop return exactly what positional decoding specifies |
| ArgDecoding.JsonParamsToArgs | server/handlers.go:205-224 | an object is decoded by name; only a non-object array is decoded by position; the "Expected map or array" error occurs exactly when the params are neither |
| ArgDecoding.JsonParamsToArgsRPC | server/handlers.go:227-229 | the offset is 0, and a success has one value per argument name |
| ArgDecoding.JsonParamsToArgsWS | server/handlers.go:232-238 | the offset is 1; a success is the session context followed by the offset-1 decoding, so it has one value more than there are names; the errors are the offset-1 decoding's errors |
| ArgDecoding.NamedAgreesWithPositional | server/handlers.go:160-197 | an object holding each array element under its argument name decodes to the same result as the array |
| QueryDecoding.JsonStringToArg | server/handlers.go:307-315 | succeeds exactly when the codec decodes the text as the type, with the codec's value; otherwise the codec's error |
| QueryDecoding.ClassifyBase | server/handlers.go:335-390 | the cascade runs in a fixed order (integer literal decoded in quoted form, then the `0x` prefix, then quoted bytes, then no match). It gives the kind-mismatch error for any other target kind, hex-decodes to a string or bytes, and JSON-unquotes quoted bytes; no match happens exactly when no branch applies; ok implies no error |
| QueryDecoding.NonJSONStringToArg | server/handlers.go:317-332 | ok implies no error, through any depth of pointers |
| QueryDecoding.PointerLift | server/handlers.go:317-332 | classifying a pointer type returns the base type's error and verdict, with a match wrapped in one fresh pointer per level |
| QueryDecoding.QuerySlotMeaning | server/handlers.go:280-301 | an empty query value gives the zero value; a heuristic error aborts with no codec fallback; a heuristic match is taken as it is, behind the type's pointers; only a non-match is decoded by the codec |
| QueryDecoding.HttpParamsToArgs | server/handlers.go:274-305 | the slice-filling loop returns exactly what query decoding specifies |
| QueryDecoding.QueryArgsMeaning | server/handlers.go:274-305 | returns one slot per parameter type: each named slot's value (the zero value for an empty query value) and invalid values past the names; or else the first failing slot's error |
| QueryDecoding.HexPrefixCases | server/handlers.go:338 | the hex test holds exactly for "0x" or "0X" at the start |
| QueryDecoding.QuotedIsNotHex | server/handlers.go:337-338 | a value that starts with a double quote is never taken for hex |
| QueryDecoding.QuotedStringGoesToCodec | server/handlers.go:335-389 | a quoted value for a string parameter, or a pointer to one, reaches the codec untouched |
| QueryDecoding.HexRoundTrip | server/handlers.go:361-376 | "0x" followed by the hex encoding of some bytes matches as those bytes (or that string) for a string or byte-slice target |
| QueryDecoding.HexForOtherKinds | server/handlers.go:361-366 | a hex value for any other kind is the mismatch error naming the base kind, with no codec fallback |
| QueryDecoding.HexOddLength | server/handlers.go:369-372 | an odd number of hex digits after the prefix is an odd-length error for a string or byte-slice target |
| Dispatch.UnreflectResult | server/handlers.go:397-408 | panics exactly when fewer than two values are returned; returns an error exactly when value 1 is not nil; otherwise returns a fresh pointer to value 0 |
| Dispatch.Invoke | server/handlers.go:136-143 | a panic of the function propagates; fewer than two returned values is the index-out-of-range panic of `unreflectResult`; a returned error becomes an internal error carrying that value; a success carries the pointer to value 0; every answer echoes the given id |
| Dispatch.JsonRpcInner | server/handlers.go:92-145 | the classification order: a read failure is an invalid request with a generated id; the listing is shown exactly for an empty body; a parse error is sent exactly for an unparsable body, with a generated id and the unmarshalling cause; there is no response exactly for an empty id, whatever the method; a path longer than "/" is an invalid request; not-found is sent exactly for an unknown or websocket-only method; invalid params are sent exactly when non-empty params fail to decode, carrying the decode error (for a count mismatch, both counts and the names); a success is the call of the function on the decoded arguments; every answer after parsing echoes the request id |
| Dispatch.CallArgs | server/handlers.go:127-134 | no params give no arguments; non-empty params are decoded as an object or array with offset 0, a success holding one value per argument name; the "Expected map or array" error occurs exactly for non-empty params that are neither |
| Dispatch.JsonRpcHandler | server/handlers.go:147-158 | the answer is 404 exactly when the path is not "/"; otherwise the inner handler runs |
| Dispatch.HttpHandler | server/handlers.go:245-270 | a websocket-only function is not found without the query being looked at; invalid params are sent exactly when query decoding fails, carrying its error; otherwise the function is called; every answer has an empty id |
| Dispatch.BadPathUnreachable | server/handlers.go:119-122 | behind the "/" guard the handler's own invalid-path error is never sent |
| Dispatch.CallArityMismatch | server/handlers.go:127-133 | a call whose params are an array of the wrong length is answered with invalid params naming the expected count, the names, the received count and the params |
| Dispatch.NotificationIgnored | server/handlers.go:112-118 | a request with an empty id gets no response, and the answer does not depend on the registry |
| Dispatch.RouteOf | server/handlers.go:22-31 | "/name" goes to that function's handler exactly when the name is registered; everything else goes to "/" |
| Dispatch.Serve | server/handlers.go:22-31 | a registered "/name" is served by that function's URI handler and every other path by the guarded JSON-RPC handler; the listing is sent exactly for an empty body to "/" when "/" is not a registered name |
| Dispatch.ServeRouting | server/handlers.go:22-31 | a request is 404 exactly when its path is neither "/" nor a registered "/name", and an invalid-path error is never sent |
| Endpoints.GroupsPartition | server/handlers.go:412-420 | every registered name is in exactly one group: no parameter types, or at least one |
| Endpoints.QueryLink | server/handlers.go:434-441 | the `+=` loop builds "//host/name?" followed by the "argName=_" items joined by "&" |
| Endpoints.QueryTemplateItems | server/handlers.go:436-441 | splitting the template on "&" gives the items back when no name contains "&" |
| Endpoints.QueryTemplateEnd | server/handlers.go:436-441 | the template ends with the last item's "_", never with "&" |
| Endpoints.Partition | server/handlers.go:412-420 | visiting the keys in any order yields each group's names exactly once |
| Endpoints.SortedIsSortedElements | server/handlers.go:421-422 | sorting a list that holds each element of a set once gives that set in ascending order |
| Endpoints.WriteNoArgAnchors | server/handlers.go:427-430 | appends one "//host/name" anchor per name, in order |
| Endpoints.WriteArgAnchors | server/handlers.go:433-443 | appends one query-template anchor per name, in order |
| Endpoints.ListOfEndpoints | server/handlers.go:411-444 | the page is the fixed headings around the no-parameter group and then the parameter group, each strictly ascending, whatever order the map gave |
| HttpServer.ConnectionLimit | server/http_server.go:46-48 | a limit is installed exactly when the configured number is positive, and it equals that number |
| HttpServer.StartPlan | server/http_server.go:33-38 | the start panics with the invalid-address message exactly when "://" does not occur; otherwise the address is the protocol, "://" and the rest, split at the first occurrence |
| HttpServer.StartPlanRoundTrip | server/http_server.go:63-67 | a protocol without ':' and any address are recovered from "proto://addr" |
| HttpServer.CappedBody | server/http_server.go:170-178 | the handler reads the body exactly when it is at most `maxBodyBytes` (1024*1024) bytes; a longer body is a read error |
| HttpServer.ResponseWriterWrapper.constructor | server/http_server.go:115 | the wrapper starts with Status -1 and nothing written |
| HttpServer.ResponseWriterWrapper.SetHeader | server/http_server.go:119-123 | sets one header and leaves everything else unchanged |
| HttpServer.ResponseWriterWrapper.WriteHeader | server/http_server.go:160-163 | Status becomes the latest code, and the code is passed on to the underlying writer |
| HttpServer.ResponseWriterWrapper.Write | server/http_server.go:94 | appends to the body and leaves everything else unchanged |
| HttpServer.ResponseWriterWrapper.DefaultStatus | server/http_server.go:144-146 | a Status still at -1 becomes 200, and any other Status stays |
| HttpServer.WriteRPCResponseHTTPError | server/http_server.go:86-95 | sends the marshalled response as application/json with the caller's code |
| HttpServer.WriteRPCResponseHTTP | server/http_server.go:97-105 | sends the marshalled response as application/json with 200, whatever the response holds |
| HttpServer.WriteNotFound | server/handlers.go:151-153 | sends the plain-text 404 |
| HttpServer.WriteListOfEndpoints | server/handlers.go:445-447 | sends the listing page as text/html with 200 |
| HttpServer.Recover | server/http_server.go:129-140 | a panic whose value is an `RPCResponse` is relayed unchanged; any other value becomes an internal error with an empty id |
| HttpServer.RecoverAndLogHandler | server/http_server.go:112-152 | the CORS and time headers are set first, then the routed handler's outcome on the capped body is written (a panic is written by the recovery); the final headers, statuses, body, logged status and wire status are stated per outcome |
| HttpServer.StatusIs200 | server/http_server.go:129-140 | the wire status is 200 for every outcome except a 404 path and a recovered panic that is not an `RPCResponse`, which sends 500 |
| HttpServer.LoggedVersusWire | server/http_server.go:137-146 | the logged status differs from the wire status exactly after a non-`RPCResponse` panic: 500 goes out and 200 is logged |
| HttpServer.CorsHeaders | server/http_server.go:119-123 | every response echoes the request's Origin, allows credentials, and exposes and sets X-Server-Time |
| HttpServer.ShortReturnIs500 | server/handlers.go:396-398 | a bound function returning fewer than two values makes the client get 500 with an internal error citing the index panic, while the log shows 200 |
| HttpServer.OversizedBodyRejected | server/http_server.go:170-178 | a JSON-RPC body over the cap is an invalid request citing the read error |

## Left out

- Reflection panics: `reflect.Value.Call` panicking on an arity or type mismatch is not modelled. This includes a call with no arguments for a function that has parameters, which happens when JSON-RPC params are empty. The bound function receives the argument list as it is.
- Missing parameter types: with more argument names than parameter types, Go indexes `rpcFunc.args` past its end and panics, unless an earlier field fails to decode first; the recovery then answers 500. The model does not follow that path. It requires a type for every name (`Fits`) exactly where decoding indexes them: ArgDecoding.NamedArgs and QueryDecoding.QueryArgs always; ArgDecoding.PositionalArgs only when the counts match, since a mismatched count is the arity error before any indexing; ArgDecoding.JsonParamsToArgs only for an object or a matching array (`JsonFits`); Dispatch.JsonRpcInner only for the function a call with params names (`CallFits`); Dispatch.Serve only for the function the path reaches (`Servable`). Requests that reach no such indexing, such as the listing, notifications and calls to other functions, are served for any registry.
- Codecs: amino and `encoding/json` are an uninterpreted `Env` value. How they decode a quoted integer, base64 bytes, `null`, or a duplicated key is not modelled. Neither is the `MarshalIndent` failure that would panic.
- `RE_INT` and `GetParam`: they are defined outside the modelled files. `RE_INT` is the abstract predicate `Env.reInt`. `GetParam` is a map lookup that gives "" for an absent parameter.
- Runtime panic texts: `Dispatch.IndexOutOfRange` carries "runtime error: index out of range" without the index and length that the Go runtime appends ("[1] with length N"), since the model has no integer formatting.
- Error texts: the `errors.Wrap` prefixes and `Errorf` formats are structured causes (`DecodeError`, `ErrorCause`) rather than strings. So are the `types` constructors and their numeric error codes.
- QueryDecoding.ClassifyBase: the value part of an error triple is always `Invalid`. In the integer branch Go returns the allocated pointer, but no caller reads the value of an error.
- Strings.ToLower lower-cases ASCII only. For the "0x" prefix test only the first two chars matter, and no other char lower-cases to '0' or 'x'.
- Registration edge cases: `RegisterRPCFuncs` itself panics for a registered empty name (a second "/" pattern). Names ending in "/" become subtree patterns that also catch longer paths. Both are not modelled, and neither is the mux's path cleaning and redirects.
- The websocket session manager, ping/pong liveness, the client correlation layer and the HTTP clients: their code is not part of this model, and their point is concurrency and I/O.
- Transport: `net.Listen`, TLS, `http.Serve`, `netutil.LimitListener`, `Hijack` and the internals of `MaxBytesReader` (a listener plan stands for them). The `e.(error)` assertion that panics on a non-error panic value is also left out. Every non-response panic is modelled as an error with a message.
- The response model records what the wrapper is given (`header`, `sent`, `body`). It does not model `net/http` dropping headers set after the first `WriteHeader`.
- Logging, `time.Now` and uuid generation: the X-Server-Time value and the generated ids are parameters (`serverTime`, `freshId`). The log line is represented by the final `Status`.
- Tests, demos and initialisation (rpc_test.go, example/, test/, client/init.go, server/init.go) are not modelled.
