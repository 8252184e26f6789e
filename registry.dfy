/**
 * Function introspection (server/handlers.go): building an `RPCFunc` from a
 * function and its comma-separated argument names.
 */
module Registry {
  import opened RpcTypes
  import Strings

  /** `funcArgTypes`: the parameter types of `sig`, in order. */
  method FuncArgTypes(sig: FuncSignature) returns (typez: seq<ArgType>)
    ensures |typez| == |sig.ins|
    ensures forall i :: 0 <= i < |sig.ins| ==> typez[i] == sig.ins[i]
  {
    var n := |sig.ins|;
    var a := new ArgType[n](i => OtherType(""));
    for i := 0 to n
      invariant forall j :: 0 <= j < i ==> a[j] == sig.ins[j]
    {
      a[i] := sig.ins[i];
    }
    typez := a[..];
  }

  /** `funcReturnTypes`: the result types of `sig`, in order. */
  method FuncReturnTypes(sig: FuncSignature) returns (typez: seq<ArgType>)
    ensures |typez| == |sig.outs|
    ensures forall i :: 0 <= i < |sig.outs| ==> typez[i] == sig.outs[i]
  {
    var n := |sig.outs|;
    var a := new ArgType[n](i => OtherType(""));
    for i := 0 to n
      invariant forall j :: 0 <= j < i ==> a[j] == sig.outs[j]
    {
      a[i] := sig.outs[i];
    }
    typez := a[..];
  }

  /** The names `newRPCFunc` makes of its `args` string. */
  function ArgNamesOf(args: string): seq<string> {
    if args == "" then [] else Strings.Split(args, ',')
  }

  /**
   * `newRPCFunc`: the argument names are `args` split on ",", and none at all
   * for an empty `args`. Nothing about the result types is checked.
   */
  method NewRPCFunc(f: seq<Value> -> CallResult, sig: FuncSignature, args: string, ws: bool)
    returns (r: RPCFunc)
    ensures r.f == f
    ensures r.args == sig.ins && r.results == sig.outs && r.ws == ws
    ensures r.argNames == ArgNamesOf(args)
    ensures |r.argNames| == 0 <==> args == ""
    ensures Strings.Join(r.argNames, ",") == args
    ensures forall i :: 0 <= i < |r.argNames| ==> ',' !in r.argNames[i]
  {
    var argNames: seq<string> := [];
    if args != "" {
      argNames := Strings.Split(args, ',');
      Strings.JoinSplit(args, ',');
    }
    var ins := FuncArgTypes(sig);
    var outs := FuncReturnTypes(sig);
    r := RPCFunc(f, ins, outs, argNames, ws);
  }

  /** The names are recovered from their join: `ArgNamesOf` loses nothing. */
  lemma ArgNamesOfJoin(names: seq<string>)
    requires |names| > 0 && (|names| > 1 || names[0] != "")
    requires forall i :: 0 <= i < |names| ==> ',' !in names[i]
    ensures ArgNamesOf(Strings.Join(names, ",")) == names
  {
    Strings.SplitJoin(names, ',');
    assert |names| > 1 ==> |Strings.Join(names, ",")| > 0;
  }
}
