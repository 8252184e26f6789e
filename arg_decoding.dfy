/**
 * Decoding JSON-RPC params into call arguments (server/handlers.go):
 * named-object decoding (`mapParamsToArgs`), positional-array decoding
 * (`arrayParamsToArgs`) and the choice between them (`jsonParamsToArgs` and
 * its RPC and websocket variants).
 *
 * Each is given as a function stating what it returns, and the two loops of
 * the source are methods proved to return exactly that.
 */
module ArgDecoding {
  import opened Wrappers
  import opened RpcTypes

  /**
   * Run slot results in order and stop at the first failure: all the values
   * when every slot succeeded, otherwise the error of the first that failed.
   */
  function Collect<V(==), E(==)>(rs: seq<Result<V, E>>): (r: Result<seq<V>, E>)
    ensures r.Ok? <==> forall i :: 0 <= i < |rs| ==> rs[i].Ok?
    ensures r.Ok? ==> |r.value| == |rs| && forall i :: 0 <= i < |rs| ==> r.value[i] == rs[i].value
    ensures r.Err? ==> exists k :: 0 <= k < |rs| && rs[k] == Err(r.error) && forall j :: 0 <= j < k ==> rs[j].Ok?
  {
    if |rs| == 0 then Ok([])
    else
      match rs[0]
      case Err(e) => Err(e)
      case Ok(v) =>
        match Collect(rs[1..])
        case Ok(vs) => Ok([v] + vs)
        case Err(e) =>
          assert exists k :: 0 <= k < |rs[1..]| && rs[1..][k] == Err(e) && forall j :: 0 <= j < k ==> rs[1..][j].Ok?;
          var k :| 0 <= k < |rs[1..]| && rs[1..][k] == Err(e) && forall j :: 0 <= j < k ==> rs[1..][j].Ok?;
          assert rs[k + 1] == Err(e) && forall j :: 0 <= j < k + 1 ==> rs[j].Ok?;
          Err(e)
  }

  /** The first failing slot decides what `Collect` reports. */
  lemma CollectFirstError<V, E>(rs: seq<Result<V, E>>, i: nat)
    requires i < |rs| && rs[i].Err?
    requires forall j :: 0 <= j < i ==> rs[j].Ok?
    ensures Collect(rs) == Err(rs[i].error)
  {
    var r := Collect(rs);
    var k :| 0 <= k < |rs| && rs[k] == Err(r.error) && forall j :: 0 <= j < k ==> rs[j].Ok?;
    assert k == i;
  }

  /** The named parameters, shifted by `offset`, have a declared type each. */
  predicate Fits(f: RPCFunc, offset: nat) {
    |f.argNames| + offset <= |f.args|
  }

  /** The codec's decoding, its failure wrapped as a codec error. */
  function CodecDecode(env: Env, raw: string, t: ArgType): (r: Result<Value, DecodeError>)
    ensures r.Ok? <==> env.decode(raw, t).Ok?
    ensures r.Ok? ==> r.value == env.decode(raw, t).value
    ensures r.Err? ==> r.error == CodecError(env.decode(raw, t).error)
  {
    match env.decode(raw, t)
    case Ok(v) => Ok(v)
    case Err(m) => Err(CodecError(m))
  }

  /** Slot `i` of named decoding: the field's decoding, or the zero value. */
  function NamedSlot(env: Env, f: RPCFunc, params: map<string, string>, offset: nat, i: nat)
    : Result<Value, DecodeError>
    requires i < |f.argNames| && Fits(f, offset)
  {
    var t := f.args[i + offset];
    var name := f.argNames[i];
    if name in params && |params[name]| > 0 then CodecDecode(env, params[name], t)
    else Ok(ZeroOf(t))
  }

  function NamedSlots(env: Env, f: RPCFunc, params: map<string, string>, offset: nat)
    : (rs: seq<Result<Value, DecodeError>>)
    requires Fits(f, offset)
    ensures |rs| == |f.argNames|
    ensures forall i :: 0 <= i < |rs| ==> rs[i] == NamedSlot(env, f, params, offset, i)
  {
    seq(|f.argNames|, i requires 0 <= i < |f.argNames| => NamedSlot(env, f, params, offset, i))
  }

  /**
   * What `mapParamsToArgs` returns: the slots run in order, stopping at the
   * first failure (the meaning is stated by `NamedArgsMeaning`).
   */
  function NamedArgs(env: Env, f: RPCFunc, params: map<string, string>, offset: nat)
    : Result<seq<Value>, DecodeError>
    requires Fits(f, offset)
  {
    Collect(NamedSlots(env, f, params, offset))
  }

  /** The raw field under `name` is there and not empty. */
  predicate Present(params: map<string, string>, name: string) {
    name in params && |params[name]| > 0
  }

  /** `v` is what argument `i` becomes: the decoded field, or the zero value. */
  predicate NamedValue(env: Env, f: RPCFunc, params: map<string, string>, offset: nat, i: nat, v: Value)
    requires i < |f.argNames| && Fits(f, offset)
  {
    var name, t := f.argNames[i], f.args[i + offset];
    if Present(params, name) then env.decode(params[name], t) == Ok(v) else v == ZeroOf(t)
  }

  /** Argument `i` is present and the codec rejects it with the message of `e`. */
  predicate NamedFailure(env: Env, f: RPCFunc, params: map<string, string>, offset: nat, i: nat, e: DecodeError)
    requires i < |f.argNames| && Fits(f, offset)
  {
    var name, t := f.argNames[i], f.args[i + offset];
    Present(params, name) && env.decode(params[name], t).Err? && e == CodecError(env.decode(params[name], t).error)
  }

  /**
   * Named decoding returns exactly one value per argument name, each the
   * codec's decoding of the field of that name when it is present and
   * non-empty and the zero value of its type otherwise; or else the codec
   * error of the first argument that fails, and no values.
   */
  lemma NamedArgsMeaning(env: Env, f: RPCFunc, params: map<string, string>, offset: nat)
    requires Fits(f, offset)
    ensures var r := NamedArgs(env, f, params, offset);
      && (r.Ok? ==> |r.value| == |f.argNames|)
      && (r.Ok? ==> forall i :: 0 <= i < |f.argNames| ==> NamedValue(env, f, params, offset, i, r.value[i]))
      && (r.Err? ==> exists i :: (0 <= i < |f.argNames| && NamedFailure(env, f, params, offset, i, r.error)
                     && forall j :: 0 <= j < i ==> NamedSlot(env, f, params, offset, j).Ok?))
      && (r.Ok? <==> forall i :: 0 <= i < |f.argNames| ==> NamedSlot(env, f, params, offset, i).Ok?)
  {
    var rs := NamedSlots(env, f, params, offset);
    var r := Collect(rs);
    if r.Ok? {
      forall i | 0 <= i < |f.argNames| ensures NamedValue(env, f, params, offset, i, r.value[i]) {
        assert rs[i] == Ok(r.value[i]);
      }
    } else {
      var k :| 0 <= k < |rs| && rs[k] == Err(r.error) && forall j :: 0 <= j < k ==> rs[j].Ok?;
      assert NamedFailure(env, f, params, offset, k, r.error);
      forall j | 0 <= j < k ensures NamedSlot(env, f, params, offset, j).Ok? {
        assert rs[j].Ok?;
      }
    }
  }

  /** `mapParamsToArgs`, filling a preallocated slice index by index. */
  method MapParamsToArgs(env: Env, f: RPCFunc, params: map<string, string>, offset: nat)
    returns (r: Result<seq<Value>, DecodeError>)
    requires Fits(f, offset)
    ensures r == NamedArgs(env, f, params, offset)
  {
    ghost var rs := NamedSlots(env, f, params, offset);
    var n := |f.argNames|;
    var values := new Value[n](_ => Invalid);
    for i := 0 to n
      invariant forall j :: 0 <= j < i ==> rs[j].Ok? && values[j] == rs[j].value
    {
      var argType := f.args[i + offset];
      var argName := f.argNames[i];
      if argName in params && |params[argName]| > 0 {
        var decoded := env.decode(params[argName], argType);
        if decoded.Err? {
          CollectFirstError(rs, i);
          return Err(CodecError(decoded.error));
        }
        values[i] := decoded.value;
      } else {
        values[i] := ZeroOf(argType);
      }
    }
    assert values[..] == Collect(rs).value;
    r := Ok(values[..]);
  }

  /** Slot `i` of positional decoding. */
  function PositionalSlot(env: Env, f: RPCFunc, params: seq<string>, offset: nat, i: nat)
    : Result<Value, DecodeError>
    requires i < |params| && |params| + offset <= |f.args|
  {
    CodecDecode(env, params[i], f.args[i + offset])
  }

  function PositionalSlots(env: Env, f: RPCFunc, params: seq<string>, offset: nat)
    : (rs: seq<Result<Value, DecodeError>>)
    requires |params| + offset <= |f.args|
    ensures |rs| == |params|
    ensures forall i :: 0 <= i < |rs| ==> rs[i] == PositionalSlot(env, f, params, offset, i)
  {
    seq(|params|, i requires 0 <= i < |params| => PositionalSlot(env, f, params, offset, i))
  }

  /**
   * What `arrayParamsToArgs` returns: an arity error naming both counts
   * unless there are exactly as many elements as argument names, otherwise
   * the slots run in order (the meaning is stated by `PositionalArgsMeaning`).
   */
  function PositionalArgs(env: Env, f: RPCFunc, params: seq<string>, offset: nat)
    : (r: Result<seq<Value>, DecodeError>)
    requires |params| == |f.argNames| ==> Fits(f, offset)
    ensures |params| != |f.argNames| <==>
      r == Err(ArityMismatch(|f.argNames|, f.argNames, |params|, params))
  {
    if |f.argNames| != |params| then Err(ArityMismatch(|f.argNames|, f.argNames, |params|, params))
    else
      var rs := PositionalSlots(env, f, params, offset);
      var r := Collect(rs);
      assert r.Err? ==> !r.error.ArityMismatch? by {
        if r.Err? {
          var k :| 0 <= k < |rs| && rs[k] == Err(r.error) && forall j :: 0 <= j < k ==> rs[j].Ok?;
          assert PositionalSlot(env, f, params, offset, k) == Err(r.error);
        }
      }
      r
  }

  /**
   * With matching counts, positional decoding returns one value per element,
   * element `i` decoded against parameter type `i + offset`; or else the codec
   * error of the first element that fails, and no values.
   */
  lemma PositionalArgsMeaning(env: Env, f: RPCFunc, params: seq<string>, offset: nat)
    requires Fits(f, offset) && |params| == |f.argNames|
    ensures var r := PositionalArgs(env, f, params, offset);
      && (r.Ok? ==> |r.value| == |params|)
      && (r.Ok? ==> forall i :: 0 <= i < |params| ==> env.decode(params[i], f.args[i + offset]) == Ok(r.value[i]))
      && (r.Err? ==> exists i :: (0 <= i < |params| && env.decode(params[i], f.args[i + offset]).Err?
                     && r.error == CodecError(env.decode(params[i], f.args[i + offset]).error)
                     && forall j :: 0 <= j < i ==> env.decode(params[j], f.args[j + offset]).Ok?))
  {
    var rs := PositionalSlots(env, f, params, offset);
    var r := Collect(rs);
    if r.Ok? {
      forall i | 0 <= i < |params| ensures env.decode(params[i], f.args[i + offset]) == Ok(r.value[i]) {
        assert rs[i] == Ok(r.value[i]);
      }
    } else {
      var k :| 0 <= k < |rs| && rs[k] == Err(r.error) && forall j :: 0 <= j < k ==> rs[j].Ok?;
      assert PositionalSlot(env, f, params, offset, k) == Err(r.error);
      forall j | 0 <= j < k ensures env.decode(params[j], f.args[j + offset]).Ok? {
        assert rs[j].Ok?;
      }
    }
  }

  /** `arrayParamsToArgs`, checking the count and then filling a slice. */
  method ArrayParamsToArgs(env: Env, f: RPCFunc, params: seq<string>, offset: nat)
    returns (r: Result<seq<Value>, DecodeError>)
    requires |params| == |f.argNames| ==> Fits(f, offset)
    ensures r == PositionalArgs(env, f, params, offset)
  {
    if |f.argNames| != |params| {
      return Err(ArityMismatch(|f.argNames|, f.argNames, |params|, params));
    }
    ghost var rs := PositionalSlots(env, f, params, offset);
    var n := |params|;
    var values := new Value[n](_ => Invalid);
    for i := 0 to n
      invariant forall j :: 0 <= j < i ==> rs[j].Ok? && values[j] == rs[j].value
    {
      var argType := f.args[i + offset];
      var decoded := env.decode(params[i], argType);
      if decoded.Err? {
        CollectFirstError(rs, i);
        return Err(CodecError(decoded.error));
      }
      values[i] := decoded.value;
    }
    assert values[..] == Collect(rs).value;
    r := Ok(values[..]);
  }

  /**
   * The raw params reach an indexing of the parameter types only as an
   * object, or as an array of as many elements as there are argument names;
   * then every argument name needs its type.
   */
  predicate JsonFits(env: Env, f: RPCFunc, raw: string, offset: nat) {
    && (env.parseObject(raw).Some? ==> Fits(f, offset))
    && (env.parseObject(raw).None? && env.parseArray(raw).Some? && |env.parseArray(raw).value| == |f.argNames|
        ==> Fits(f, offset))
  }

  /**
   * `jsonParamsToArgs`: an object is decoded by name; only what is not an
   * object is tried as an array; anything else is an "Expected map or
   * array" error.
   */
  function JsonParamsToArgs(env: Env, f: RPCFunc, raw: string, offset: nat)
    : (r: Result<seq<Value>, DecodeError>)
    requires JsonFits(env, f, raw, offset)
    ensures env.parseObject(raw).Some? ==> r == NamedArgs(env, f, env.parseObject(raw).value, offset)
    ensures env.parseObject(raw).None? && env.parseArray(raw).Some? ==>
      r == PositionalArgs(env, f, env.parseArray(raw).value, offset)
    ensures r == Err(UnknownParamsShape) <==> env.parseObject(raw).None? && env.parseArray(raw).None?
  {
    match env.parseObject(raw)
    case Some(m) => NamedArgs(env, f, m, offset)
    case None =>
      match env.parseArray(raw)
      case Some(a) => PositionalArgs(env, f, a, offset)
      case None => Err(UnknownParamsShape)
  }

  /** `jsonParamsToArgsRPC`: no hidden leading parameter. */
  function JsonParamsToArgsRPC(env: Env, f: RPCFunc, raw: string): (r: Result<seq<Value>, DecodeError>)
    requires JsonFits(env, f, raw, 0)
    ensures r.Ok? ==> |r.value| == |f.argNames|
  {
    JsonParamsToArgs(env, f, raw, 0)
  }

  /**
   * `jsonParamsToArgsWS`: the caller's params fill the parameters after the
   * first, and the session context is put in front of them.
   */
  function JsonParamsToArgsWS(env: Env, f: RPCFunc, raw: string, ctx: Value)
    : (r: Result<seq<Value>, DecodeError>)
    requires JsonFits(env, f, raw, 1)
    ensures r.Ok? ==> |r.value| == |f.argNames| + 1 && r.value[0] == ctx
    ensures r.Ok? <==> JsonParamsToArgs(env, f, raw, 1).Ok?
    ensures r.Ok? ==> r.value[1..] == JsonParamsToArgs(env, f, raw, 1).value
    ensures r.Err? ==> r.error == JsonParamsToArgs(env, f, raw, 1).error
  {
    match JsonParamsToArgs(env, f, raw, 1)
    case Err(e) => Err(e)
    case Ok(values) => Ok([ctx] + values)
  }

  /**
   * The two JSON conventions agree: an object holding, under each argument
   * name, the non-empty raw value that an array holds at that position
   * decodes to the same arguments as the array.
   */
  lemma NamedAgreesWithPositional(env: Env, f: RPCFunc, m: map<string, string>, a: seq<string>, offset: nat)
    requires Fits(f, offset)
    requires |a| == |f.argNames|
    requires forall i :: 0 <= i < |a| ==> f.argNames[i] in m && m[f.argNames[i]] == a[i] && |a[i]| > 0
    ensures NamedArgs(env, f, m, offset) == PositionalArgs(env, f, a, offset)
  {
    var named := NamedSlots(env, f, m, offset);
    var positional := PositionalSlots(env, f, a, offset);
    assert named == positional by {
      forall i | 0 <= i < |a| ensures named[i] == positional[i] {
        assert NamedSlot(env, f, m, offset, i) == PositionalSlot(env, f, a, offset, i);
      }
    }
  }
}
