/**
 * Decoding URI query parameters into call arguments (server/handlers.go):
 * the heuristic cascade `_nonJSONStringToArg`, its lifting through pointer
 * types `nonJSONStringToArg`, the codec fallback `jsonStringToArg`, and the
 * loop `httpParamsToArgs` that fills one slot per parameter type.
 */
module QueryDecoding {
  import opened Wrappers
  import opened RpcTypes
  import Strings
  import Hex
  import ArgDecoding

  /**
   * The (value, err, ok) triple of the heuristic decoders: `ok` says the
   * heuristic matched and `value` is the argument; `err` aborts decoding.
   */
  datatype Classified = Classified(value: Value, err: Option<DecodeError>, ok: bool)

  /** The outcome of a value that no heuristic recognises. */
  const NoMatch := Classified(Invalid, None, false)

  /** `jsonStringToArg`: the codec's decoding of `arg` as a value of type `t`. */
  function JsonStringToArg(env: Env, t: ArgType, arg: string): (r: Result<Value, DecodeError>)
    ensures r.Ok? <==> env.decode(arg, t).Ok?
    ensures r.Ok? ==> r.value == env.decode(arg, t).value
    ensures r.Err? ==> r.error == CodecError(env.decode(arg, t).error)
  {
    ArgDecoding.CodecDecode(env, arg, t)
  }

  predicate IsQuotedString(arg: string) {
    Strings.HasPrefix(arg, "\"") && Strings.HasSuffix(arg, "\"")
  }

  /** The lower-cased value starts with "0x". */
  predicate IsHexString(arg: string) {
    Strings.HasPrefix(Strings.ToLower(arg), "0x")
  }

  predicate ExpectingInt(t: ArgType) {
    t.IntType?
  }

  predicate ExpectingString(t: ArgType) {
    t == StringType
  }

  /** A slice whose element kind is `uint8`, i.e. `[]byte`. */
  predicate ExpectingByteSlice(t: ArgType) {
    t.SliceType? && t.elem == IntType(Uint8)
  }

  /** The integer-literal branch applies. */
  predicate TakesIntBranch(env: Env, t: ArgType, arg: string) {
    env.reInt(arg) && ExpectingInt(t)
  }

  /** The hex branch applies: the integer branch did not, and the prefix is there. */
  predicate TakesHexBranch(env: Env, t: ArgType, arg: string) {
    !TakesIntBranch(env, t, arg) && IsHexString(arg)
  }

  /** The quoted-bytes branch applies: neither earlier branch did. */
  predicate TakesQuotedBranch(env: Env, t: ArgType, arg: string) {
    !TakesIntBranch(env, t, arg) && !IsHexString(arg) && IsQuotedString(arg) && ExpectingByteSlice(t)
  }

  /** The value the hex branch produces from decoded bytes. */
  function HexValue(t: ArgType, b: string): Value {
    if t == StringType then StrVal(b) else BytesVal(b)
  }

  /**
   * `_nonJSONStringToArg`, for a type that is not a pointer. The branches
   * are tried in a fixed order and none falls back to a later one:
   *  1. an integer literal for an integer type is decoded by the codec in
   *     quoted form;
   *  2. a "0x" or "0X" prefix is an error unless the type is a string or a
   *     byte slice, and otherwise the rest is hex-decoded;
   *  3. a quoted value for a byte slice is JSON-unquoted and taken as bytes;
   *  4. anything else is no match.
   */
  function ClassifyBase(env: Env, t: ArgType, arg: string): (c: Classified)
    ensures c.ok ==> c.err.None?
    ensures TakesIntBranch(env, t, arg) ==>
      var d := env.decode("\"" + arg + "\"", t);
      && (c.ok <==> d.Ok?)
      && (d.Ok? ==> c.value == d.value)
      && (d.Err? ==> c.err == Some(CodecError(d.error)))
    ensures TakesHexBranch(env, t, arg) && !ExpectingString(t) && !ExpectingByteSlice(t) ==>
      c == Classified(Invalid, Some(HexKindMismatch(KindName(t))), false)
    ensures TakesHexBranch(env, t, arg) && (ExpectingString(t) || ExpectingByteSlice(t)) ==>
      var h := Hex.DecodeString(arg[2..]);
      && (c.ok <==> h.Ok?)
      && (h.Ok? ==> c.value == HexValue(t, h.value))
      && (h.Err? ==> c.err == Some(HexDecodeError(h.error)))
    ensures TakesQuotedBranch(env, t, arg) ==>
      var u := env.decodeString(arg);
      && (c.ok <==> u.Ok?)
      && (u.Ok? ==> c.value == BytesVal(u.value))
      && (u.Err? ==> c.err == Some(CodecError(u.error)))
    ensures c == NoMatch <==>
      !TakesIntBranch(env, t, arg) && !IsHexString(arg) && !TakesQuotedBranch(env, t, arg)
  {
    if TakesIntBranch(env, t, arg) then
      match JsonStringToArg(env, t, "\"" + arg + "\"")
      case Ok(v) => Classified(v, None, true)
      case Err(e) => Classified(Invalid, Some(e), false)
    else if IsHexString(arg) then
      if !ExpectingString(t) && !ExpectingByteSlice(t) then
        Classified(Invalid, Some(HexKindMismatch(KindName(t))), false)
      else
        match Hex.DecodeString(arg[2..])
        case Err(e) => Classified(Invalid, Some(HexDecodeError(e)), false)
        case Ok(b) => Classified(HexValue(t, b), None, true)
    else if IsQuotedString(arg) && ExpectingByteSlice(t) then
      match env.decodeString(arg)
      case Err(m) => Classified(Invalid, Some(CodecError(m)), false)
      case Ok(s) => Classified(BytesVal(s), None, true)
    else NoMatch
  }

  /**
   * `nonJSONStringToArg`: a pointer type is classified by its element type;
   * a match is wrapped in a fresh pointer, and an error or a non-match is
   * passed on with no value.
   */
  function NonJSONStringToArg(env: Env, t: ArgType, arg: string): (c: Classified)
    ensures c.ok ==> c.err.None?
    decreases t
  {
    match t
    case PtrType(elem) =>
      var inner := NonJSONStringToArg(env, elem, arg);
      if inner.err.Some? then Classified(Invalid, inner.err, false)
      else if inner.ok then Classified(PtrTo(inner.value), None, true)
      else NoMatch
    case _ => ClassifyBase(env, t, arg)
  }

  /** The type under all the pointers of `t`. */
  function Base(t: ArgType): (b: ArgType)
    ensures !b.PtrType?
  {
    if t.PtrType? then Base(t.elem) else t
  }

  /** How many pointers `t` is wrapped in. */
  function Depth(t: ArgType): nat {
    if t.PtrType? then 1 + Depth(t.elem) else 0
  }

  /** `v` behind `n` fresh pointers. */
  function Wrap(v: Value, n: nat): Value {
    if n == 0 then v else PtrTo(Wrap(v, n - 1))
  }

  /**
   * Classifying through pointers is classifying the base type: the same
   * error and the same verdict, and a match comes back behind as many
   * pointers as the type has.
   */
  lemma {:induction false} PointerLift(env: Env, t: ArgType, arg: string)
    ensures var c, b := NonJSONStringToArg(env, t, arg), ClassifyBase(env, Base(t), arg);
      && c.err == b.err
      && c.ok == b.ok
      && (c.ok ==> c.value == Wrap(b.value, Depth(t)))
      && (!c.ok ==> c.value == Invalid || Depth(t) == 0)
    decreases t
  {
    if t.PtrType? {
      PointerLift(env, t.elem, arg);
    }
  }

  /**
   * One query parameter: the zero value when it is empty; otherwise a
   * heuristic error aborts, a heuristic match is taken as it is, and only a
   * non-match is decoded by the codec.
   */
  function QuerySlot(env: Env, t: ArgType, arg: string): Result<Value, DecodeError> {
    if arg == "" then Ok(ZeroOf(t))
    else
      var c := NonJSONStringToArg(env, t, arg);
      if c.err.Some? then Err(c.err.value)
      else if c.ok then Ok(c.value)
      else JsonStringToArg(env, t, arg)
  }

  /** `GetParam`: the value of a query parameter, "" when it is absent. */
  function GetParam(query: map<string, string>, name: string): string {
    if name in query then query[name] else ""
  }

  function QuerySlots(env: Env, f: RPCFunc, query: map<string, string>)
    : (rs: seq<Result<Value, DecodeError>>)
    requires ArgDecoding.Fits(f, 0)
    ensures |rs| == |f.argNames|
    ensures forall i :: 0 <= i < |rs| ==> rs[i] == QuerySlot(env, f.args[i], GetParam(query, f.argNames[i]))
  {
    seq(|f.argNames|, i requires 0 <= i < |f.argNames| => QuerySlot(env, f.args[i], GetParam(query, f.argNames[i])))
  }

  /** `n` invalid values: the slots past the named parameters. */
  function Unset(n: nat): (r: seq<Value>)
    ensures |r| == n && forall i :: 0 <= i < n ==> r[i] == Invalid
  {
    seq(n, _ => Invalid)
  }

  /**
   * What `httpParamsToArgs` returns: the named slots in order, stopping at
   * the first failure, followed by invalid values for the parameter types
   * that have no name.
   */
  function QueryArgs(env: Env, f: RPCFunc, query: map<string, string>): Result<seq<Value>, DecodeError>
    requires ArgDecoding.Fits(f, 0)
  {
    match ArgDecoding.Collect(QuerySlots(env, f, query))
    case Err(e) => Err(e)
    case Ok(vs) => Ok(vs + Unset(|f.args| - |f.argNames|))
  }

  /** `httpParamsToArgs`, filling a slice of one slot per parameter type. */
  method HttpParamsToArgs(env: Env, f: RPCFunc, query: map<string, string>)
    returns (r: Result<seq<Value>, DecodeError>)
    requires ArgDecoding.Fits(f, 0)
    ensures r == QueryArgs(env, f, query)
  {
    ghost var rs := QuerySlots(env, f, query);
    var values := new Value[|f.args|](_ => Invalid);
    for i := 0 to |f.argNames|
      invariant forall j :: 0 <= j < i ==> rs[j].Ok? && values[j] == rs[j].value
      invariant forall j :: |f.argNames| <= j < |f.args| ==> values[j] == Invalid
    {
      var argType := f.args[i];
      values[i] := ZeroOf(argType);
      var arg := GetParam(query, f.argNames[i]);
      if arg == "" {
        continue;
      }
      var c := NonJSONStringToArg(env, argType, arg);
      if c.err.Some? {
        ArgDecoding.CollectFirstError(rs, i);
        return Err(c.err.value);
      }
      if c.ok {
        values[i] := c.value;
        continue;
      }
      var decoded := JsonStringToArg(env, argType, arg);
      if decoded.Err? {
        ArgDecoding.CollectFirstError(rs, i);
        return Err(decoded.error);
      }
      values[i] := decoded.value;
    }
    var vs := ArgDecoding.Collect(rs).value;
    assert values[..] == vs + Unset(|f.args| - |f.argNames|);
    r := Ok(values[..]);
  }

  /**
   * The meaning of one query parameter, with pointers resolved: an empty
   * value is the zero value; a base-type error aborts with no codec
   * fallback; a base-type match is taken behind the type's pointers; and a
   * non-match is the codec's decoding of the raw text.
   */
  lemma QuerySlotMeaning(env: Env, t: ArgType, arg: string)
    ensures var r, b := QuerySlot(env, t, arg), ClassifyBase(env, Base(t), arg);
      && (arg == "" ==> r == Ok(ZeroOf(t)))
      && (arg != "" && b.err.Some? ==> r == Err(b.err.value))
      && (arg != "" && b.ok ==> r == Ok(Wrap(b.value, Depth(t))))
      && (arg != "" && b == NoMatch ==> r == JsonStringToArg(env, t, arg))
  {
    PointerLift(env, t, arg);
  }

  /**
   * Query decoding returns one value per parameter type: each named
   * parameter's slot value, and invalid values past the names; or else the
   * error of the first named parameter that fails, and no values.
   */
  lemma QueryArgsMeaning(env: Env, f: RPCFunc, query: map<string, string>)
    requires ArgDecoding.Fits(f, 0)
    ensures var r := QueryArgs(env, f, query);
      && (r.Ok? ==> |r.value| == |f.args|)
      && (r.Ok? ==> forall i :: 0 <= i < |f.argNames| ==>
            QuerySlot(env, f.args[i], GetParam(query, f.argNames[i])) == Ok(r.value[i]))
      && (r.Ok? ==> forall i :: |f.argNames| <= i < |f.args| ==> r.value[i] == Invalid)
      && (r.Ok? ==> forall i :: 0 <= i < |f.argNames| && GetParam(query, f.argNames[i]) == "" ==>
            r.value[i] == ZeroOf(f.args[i]))
      && (r.Err? ==> exists i :: (0 <= i < |f.argNames|
            && QuerySlot(env, f.args[i], GetParam(query, f.argNames[i])) == Err(r.error)
            && forall j :: 0 <= j < i ==> QuerySlot(env, f.args[j], GetParam(query, f.argNames[j])).Ok?))
  {
    var rs := QuerySlots(env, f, query);
    var c := ArgDecoding.Collect(rs);
    if c.Ok? {
      var r := QueryArgs(env, f, query);
      assert r.value == c.value + Unset(|f.args| - |f.argNames|);
      forall i | 0 <= i < |f.argNames|
        ensures QuerySlot(env, f.args[i], GetParam(query, f.argNames[i])) == Ok(r.value[i])
      {
        assert rs[i] == Ok(c.value[i]);
      }
    } else {
      var k :| 0 <= k < |rs| && rs[k] == Err(c.error) && forall j :: 0 <= j < k ==> rs[j].Ok?;
      forall j | 0 <= j < k ensures QuerySlot(env, f.args[j], GetParam(query, f.argNames[j])).Ok? {
        assert rs[j].Ok?;
      }
    }
  }

  // ---------------------------------------------------------------------------
  // Properties of the cascade

  /** The hex prefix test is "0" followed by "x" or "X". */
  lemma HexPrefixCases(arg: string)
    ensures IsHexString(arg) <==> |arg| >= 2 && arg[0] == '0' && (arg[1] == 'x' || arg[1] == 'X')
  {
    var lo := Strings.ToLower(arg);
    if |arg| >= 2 {
      assert lo[..2] == [lo[0], lo[1]];
    }
  }

  /** A value that starts with a double quote never takes the hex branch. */
  lemma QuotedIsNotHex(arg: string)
    requires Strings.HasPrefix(arg, "\"")
    ensures !IsHexString(arg)
  {
    HexPrefixCases(arg);
    assert arg[0] == '"';
  }

  /**
   * A quoted value for a string parameter, or a pointer to one, reaches
   * the codec untouched: "\"0xabc\"" is not hex-decoded and "\"abc\"" is not
   * unquoted by the heuristics.
   */
  lemma QuotedStringGoesToCodec(env: Env, t: ArgType, arg: string)
    requires Base(t) == StringType
    requires Strings.HasPrefix(arg, "\"")
    ensures QuerySlot(env, t, arg) == JsonStringToArg(env, t, arg)
  {
    QuotedIsNotHex(arg);
    QuerySlotMeaning(env, t, arg);
  }

  /** Hex-encoded bytes behind "0x" decode back to themselves. */
  lemma HexRoundTrip(env: Env, t: ArgType, b: string)
    requires ExpectingString(t) || ExpectingByteSlice(t)
    requires Hex.IsBytes(b)
    ensures ClassifyBase(env, t, "0x" + Hex.EncodeToString(b)) == Classified(HexValue(t, b), None, true)
  {
    var arg := "0x" + Hex.EncodeToString(b);
    HexPrefixCases(arg);
    assert arg[2..] == Hex.EncodeToString(b);
    Hex.DecodeEncode(b);
  }

  /**
   * A hex string arg for any other kind is an error naming the kind under
   * the pointers, with no codec fallback.
   */
  lemma HexForOtherKinds(env: Env, t: ArgType, arg: string)
    requires !ExpectingString(Base(t)) && !ExpectingByteSlice(Base(t))
    requires IsHexString(arg) && !TakesIntBranch(env, Base(t), arg)
    ensures QuerySlot(env, t, arg) == Err(HexKindMismatch(KindName(Base(t))))
  {
    assert arg != "" by { HexPrefixCases(arg); }
    QuerySlotMeaning(env, t, arg);
  }

  /** "0x" followed by an odd number of hex digits is an odd-length error. */
  lemma HexOddLength(env: Env, t: ArgType, arg: string)
    requires ExpectingString(Base(t)) || ExpectingByteSlice(Base(t))
    requires IsHexString(arg) && |arg| % 2 == 1 && Hex.AllHex(arg[2..])
    ensures QuerySlot(env, t, arg) == Err(HexDecodeError(Hex.OddLength))
  {
    HexPrefixCases(arg);
    QuerySlotMeaning(env, t, arg);
  }
}
