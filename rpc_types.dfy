/**
 * The values the server's handlers work with: parameter type descriptors
 * (what `reflect.Type` tells the decoder), argument values (what
 * `reflect.Value` holds), registered functions, requests, responses, and the
 * collaborators whose code is not part of this model (the amino codec,
 * `encoding/json`, the `RE_INT` pattern).
 */
module RpcTypes {
  import opened Wrappers
  import Hex

  /** The integer kinds of `reflect`. */
  datatype IntKind = Int | Int8 | Int16 | Int32 | Int64 | Uint | Uint8 | Uint16 | Uint32 | Uint64

  /** A parameter type, as far as the decoder inspects it. */
  datatype ArgType =
    | IntType(kind: IntKind)
    | StringType
    | SliceType(elem: ArgType)
    | PtrType(elem: ArgType)
      /** Any other kind (bool, float64, struct, map, interface, ...), by its kind name. */
    | OtherType(kindName: string)

  function IntKindName(k: IntKind): string {
    match k
    case Int => "int"
    case Int8 => "int8"
    case Int16 => "int16"
    case Int32 => "int32"
    case Int64 => "int64"
    case Uint => "uint"
    case Uint8 => "uint8"
    case Uint16 => "uint16"
    case Uint32 => "uint32"
    case Uint64 => "uint64"
  }

  /** `rt.Kind().String()`. */
  function KindName(t: ArgType): string {
    match t
    case IntType(k) => IntKindName(k)
    case StringType => "string"
    case SliceType(_) => "slice"
    case PtrType(_) => "ptr"
    case OtherType(k) => k
  }

  /** A `reflect.Value`. */
  datatype Value =
      /** The invalid value: `reflect.Value{}` or `reflect.ValueOf(nil)`. */
    | Invalid
      /**
       * A nil interface value: in the error position, the only value read as
       * "no error" (a typed nil pointer held in the interface is not nil).
       */
    | Nil
      /** `reflect.Zero(t)`. */
    | ZeroOf(t: ArgType)
    | StrVal(s: string)
      /** A `[]byte`; one char per byte. */
    | BytesVal(b: string)
      /** A fresh pointer whose element is set to `target`. */
    | PtrTo(target: Value)
      /** A non-nil Go `error`. */
    | ErrorVal(msg: string)
      /** The websocket session context passed to websocket-only functions. */
    | SessionContext(session: int)
      /** Any other value the codec or a bound function produces. */
    | Opaque(t: ArgType, tag: int)

  /** Why an argument could not be decoded (wrapped into `InvalidParams`). */
  datatype DecodeError =
    | CodecError(msg: string)
    | HexKindMismatch(kind: string)
    | HexDecodeError(hexError: Hex.HexError)
    | ArityMismatch(expected: nat, names: seq<string>, got: nat, params: seq<string>)
    | UnknownParamsShape

  /** The fixed JSON-RPC error kinds. */
  datatype ErrorKind = ParseError | InvalidRequest | MethodNotFound | InvalidParams | InternalError

  /** What an error response carries besides its kind. */
  datatype ErrorCause =
    | ReadFailure(msg: string)
    | Unmarshalling
    | BadPath(path: string)
    | NoCause
    | ParamsCause(e: DecodeError)
    | ReturnedError(v: Value)
    | PanicCause(msg: string)

  /** `types.RPCResponse`: exactly one of a result and an error. */
  datatype ResponseBody = Result(result: Value) | Error(kind: ErrorKind, cause: ErrorCause)

  datatype RPCResponse = RPCResponse(id: string, body: ResponseBody)

  /** `types.RPCRequest`; `params` is the raw JSON fragment, empty when absent. */
  datatype RPCRequest = RPCRequest(id: string, methodName: string, params: string)

  /** A value passed to `panic`. */
  datatype PanicValue = PanicResponse(res: RPCResponse) | PanicError(msg: string)

  /** What calling a bound function does: return its values, or panic. */
  datatype CallResult = Returned(values: seq<Value>) | Raised(p: PanicValue)

  /** `RPCFunc`: the introspected shape of a registered function. */
  datatype RPCFunc = RPCFunc(
    f: seq<Value> -> CallResult,
    args: seq<ArgType>,
    results: seq<ArgType>,
    argNames: seq<string>,
    ws: bool)

  /** The parameter and result types of a Go function type. */
  datatype FuncSignature = FuncSignature(ins: seq<ArgType>, outs: seq<ArgType>)

  /**
   * The collaborators the handlers call: the amino codec (`UnmarshalJSON`
   * into a value of a given type, and into a `string`), `encoding/json`
   * (into a map of raw fields, a list of raw elements, a request; and the
   * response marshaller) and the `RE_INT` integer pattern.
   */
  datatype Env = Env(
    decode: (string, ArgType) -> Result<Value, string>,
    decodeString: string -> Result<string, string>,
    parseObject: string -> Option<map<string, string>>,
    parseArray: string -> Option<seq<string>>,
    parseRequest: string -> Option<RPCRequest>,
    marshal: RPCResponse -> string,
    reInt: string -> bool)
}
