/**
 * The HTML page `writeListOfEndpoints` (server/handlers.go) serves for an
 * empty JSON-RPC body: the registered functions without parameters, then
 * those with parameters, each group in ascending order, as links.
 */
module Endpoints {
  import opened RpcTypes
  import Strings
  import Dispatch

  /** The names of the functions without parameter types. */
  function NoArgNames(registry: Dispatch.Registry): set<string> {
    set name | name in registry.Keys && |registry[name].args| == 0
  }

  /** The names of the functions with at least one parameter type. */
  function ArgNames(registry: Dispatch.Registry): set<string> {
    set name | name in registry.Keys && |registry[name].args| > 0
  }

  /** Every registered name is in exactly one of the two groups. */
  lemma GroupsPartition(registry: Dispatch.Registry)
    ensures NoArgNames(registry) * ArgNames(registry) == {}
    ensures NoArgNames(registry) + ArgNames(registry) == registry.Keys
  {
  }

  /** One entry of the page: the link, shown as its own text. */
  function Anchor(link: string): string {
    "<a href=\"" + link + "\">" + link + "</a></br>"
  }

  /** The link of a function without parameters: "//host/name". */
  function NoArgLink(host: string, name: string): string {
    "//" + host + "/" + name
  }

  /** "argName=_" per argument name. */
  function QueryItems(argNames: seq<string>): (items: seq<string>)
    ensures |items| == |argNames|
    ensures forall i :: 0 <= i < |argNames| ==> items[i] == argNames[i] + "=_"
  {
    seq(|argNames|, i requires 0 <= i < |argNames| => argNames[i] + "=_")
  }

  /** The link of a function with parameters: "//host/name?" and its query template. */
  function ArgLink(host: string, name: string, argNames: seq<string>): string {
    "//" + host + "/" + name + "?" + Strings.Join(QueryItems(argNames), "&")
  }

  /**
   * Building the link with `+=` as the source does: after each item but the
   * last an "&".
   */
  method QueryLink(host: string, name: string, argNames: seq<string>) returns (link: string)
    ensures link == ArgLink(host, name, argNames)
  {
    ghost var items := QueryItems(argNames);
    ghost var prefix := "//" + host + "/" + name + "?";
    link := "//" + host + "/" + name + "?";
    for i := 0 to |argNames|
      invariant link == prefix + Strings.Join(items[..i], "&") + (if 0 < i < |argNames| then "&" else "")
    {
      if i > 0 {
        assert items[..i + 1] == items[..i] + [items[i]];
        Strings.JoinSnoc(items[..i], items[i], "&");
      } else {
        assert items[..1] == [items[0]];
      }
      link := link + argNames[i] + "=_";
      if i < |argNames| - 1 {
        link := link + "&";
      }
    }
    assert items[..|argNames|] == items;
  }

  /** The entries of the functions without parameters, in the order given. */
  function NoArgAnchors(host: string, names: seq<string>): string {
    if |names| == 0 then ""
    else NoArgAnchors(host, names[..|names| - 1]) + Anchor(NoArgLink(host, names[|names| - 1]))
  }

  /** The entries of the functions with parameters, in the order given. */
  function ArgAnchors(host: string, registry: Dispatch.Registry, names: seq<string>): string
    requires forall i :: 0 <= i < |names| ==> names[i] in registry
  {
    if |names| == 0 then ""
    else
      var last := names[|names| - 1];
      ArgAnchors(host, registry, names[..|names| - 1]) + Anchor(ArgLink(host, last, registry[last].argNames))
  }

  const Head := "<html><body>" + "<br>Available endpoints:<br>"
  const Middle := "<br>Endpoints that require arguments:<br>"
  const Tail := "</body></html>"

  /** The page for the two groups, listed in the order given. */
  function Page(host: string, registry: Dispatch.Registry, noArg: seq<string>, withArg: seq<string>): string
    requires forall i :: 0 <= i < |withArg| ==> withArg[i] in registry
  {
    Head + NoArgAnchors(host, noArg) + Middle + ArgAnchors(host, registry, withArg) + Tail
  }

  /** The page the server sends: both groups in ascending order. */
  ghost function Listing(host: string, registry: Dispatch.Registry): string {
    var withArg := Strings.SortedElements(ArgNames(registry));
    assert forall i :: 0 <= i < |withArg| ==> withArg[i] in registry by {
      forall i | 0 <= i < |withArg| ensures withArg[i] in registry {
        assert withArg[i] in ArgNames(registry);
      }
    }
    Page(host, registry, Strings.SortedElements(NoArgNames(registry)), withArg)
  }

  /**
   * Sorting a list that holds each element of `s` once gives the elements
   * of `s` in ascending order.
   */
  lemma SortedIsSortedElements(xs: seq<string>, s: set<string>)
    requires Strings.Distinct(xs)
    requires forall x :: x in xs <==> x in s
    ensures Strings.SortStrings(xs) == Strings.SortedElements(s)
  {
    var sorted := Strings.SortStrings(xs);
    Strings.DistinctPermutation(xs, sorted);
    Strings.SortedDistinctIsStrict(sorted);
    forall x ensures x in sorted <==> x in s {
      assert x in sorted <==> x in multiset(sorted);
      assert x in xs <==> x in multiset(xs);
    }
    Strings.StrictlySortedUnique(sorted, Strings.SortedElements(s));
  }

  /**
   * The loop over the map of `writeListOfEndpoints`: the keys are visited
   * in no particular order and each is appended to its group.
   */
  method Partition(registry: Dispatch.Registry) returns (noArg: seq<string>, withArg: seq<string>)
    ensures Strings.Distinct(noArg) && forall x :: x in noArg <==> x in NoArgNames(registry)
    ensures Strings.Distinct(withArg) && forall x :: x in withArg <==> x in ArgNames(registry)
  {
    noArg, withArg := [], [];
    var keys := registry.Keys;
    while keys != {}
      invariant keys <= registry.Keys
      invariant forall x :: x in noArg <==> x in NoArgNames(registry) && x !in keys
      invariant forall x :: x in withArg <==> x in ArgNames(registry) && x !in keys
      invariant Strings.Distinct(noArg) && Strings.Distinct(withArg)
      decreases |keys|
    {
      var name :| name in keys;
      if |registry[name].args| == 0 {
        noArg := noArg + [name];
      } else {
        withArg := withArg + [name];
      }
      keys := keys - {name};
    }
  }

  /** Appending the entries of the functions without parameters. */
  method WriteNoArgAnchors(host: string, names: seq<string>, page0: string) returns (page: string)
    ensures page == page0 + NoArgAnchors(host, names)
  {
    page := page0;
    for i := 0 to |names|
      invariant page == page0 + NoArgAnchors(host, names[..i])
    {
      assert names[..i + 1][..i] == names[..i];
      page := page + Anchor(NoArgLink(host, names[i]));
    }
    assert names[..|names|] == names;
  }

  /** Appending the entries of the functions with parameters. */
  method WriteArgAnchors(host: string, registry: Dispatch.Registry, names: seq<string>, page0: string)
    returns (page: string)
    requires forall i :: 0 <= i < |names| ==> names[i] in registry
    ensures page == page0 + ArgAnchors(host, registry, names)
  {
    page := page0;
    for i := 0 to |names|
      invariant page == page0 + ArgAnchors(host, registry, names[..i])
    {
      var link := QueryLink(host, names[i], registry[names[i]].argNames);
      assert names[..i + 1][..i] == names[..i];
      page := page + Anchor(link);
    }
    assert names[..|names|] == names;
  }

  /**
   * `writeListOfEndpoints`, building the page: the two groups, each sorted,
   * with their entries between the fixed headings.
   */
  method ListOfEndpoints(host: string, registry: Dispatch.Registry) returns (page: string)
    ensures page == Listing(host, registry)
  {
    var noArg, withArg := Partition(registry);
    var a := Strings.SortStrings(noArg);
    var b := Strings.SortStrings(withArg);
    SortedIsSortedElements(noArg, NoArgNames(registry));
    SortedIsSortedElements(withArg, ArgNames(registry));
    assert forall i :: 0 <= i < |b| ==> b[i] in registry by {
      forall i | 0 <= i < |b| ensures b[i] in registry {
        assert b[i] in ArgNames(registry);
      }
    }
    page := WriteNoArgAnchors(host, a, Head);
    page := WriteArgAnchors(host, registry, b, page + Middle);
    page := page + Tail;
  }

  /**
   * The query template names each argument once, in order: splitting it on
   * "&" gives back the items when no argument name holds an "&".
   */
  lemma QueryTemplateItems(argNames: seq<string>)
    requires |argNames| > 0
    requires forall i :: 0 <= i < |argNames| ==> '&' !in argNames[i]
    ensures Strings.Split(Strings.Join(QueryItems(argNames), "&"), '&') == QueryItems(argNames)
  {
    var items := QueryItems(argNames);
    forall i | 0 <= i < |items| ensures '&' !in items[i] {
      assert items[i] == argNames[i] + "=_";
    }
    Strings.SplitJoin(items, '&');
  }

  /** The template has no trailing "&": it ends with the last item's "_". */
  lemma {:induction false} QueryTemplateEnd(argNames: seq<string>)
    requires |argNames| > 0
    ensures var t := Strings.Join(QueryItems(argNames), "&"); |t| > 0 && t[|t| - 1] == '_'
  {
    var items := QueryItems(argNames);
    if |argNames| > 1 {
      QueryTemplateEnd(argNames[1..]);
      assert items[1..] == QueryItems(argNames[1..]);
    }
  }
}
