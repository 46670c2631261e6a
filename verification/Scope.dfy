/** Which variables a request can send: `variablesSent` of `agent/scope.go`. */
module Scope {
  import opened Text
  import opened Placeholders
  import opened Expansion

  /** A variable's JSON value: a string, null, or something else with its compact text. */
  datatype Value = Plain(text: string) | Null | Other(compact: string)

  type Values = map<string, Value>

  /** `plainValue`: JSON null reads as the empty string, a missing value does not read at all. */
  function PlainValue(values: Values, name: string): Option<string> {
    if name !in values then None
    else match values[name]
      case Plain(text) => Some(text)
      case Null => Some("")
      case Other(_) => None
  }

  /** What `variablesIn` lists for a placeholder's name: the name asked for, unless it is a generated one. */
  function ListedFor(name: string): seq<string> {
    var asked := match PromptName(name) case Some(asked) => asked case None => name;
    if HasPrefix(asked, DYNAMIC_PREFIX) then [] else [asked]
  }

  /** What is listed for each placeholder of a text. */
  function ListedIn(text: string): (lists: seq<seq<string>>)
    ensures |lists| == |Spans(text)|
    ensures forall n :: 0 <= n < |lists| ==> lists[n] == ListedFor(NameOf(Placeholder(text, n)))
  {
    seq(|Spans(text)|, n requires 0 <= n < |Spans(text)| => ListedFor(NameOf(Placeholder(text, n))))
  }

  function Flatten(lists: seq<seq<string>>): seq<string> {
    if lists == [] then [] else lists[0] + Flatten(lists[1..])
  }

  /** `variablesIn`. */
  function VariablesIn(text: string): seq<string> {
    Flatten(ListedIn(text))
  }

  lemma {:induction false} FlattenHas(lists: seq<seq<string>>, n: nat, name: string)
    requires n < |lists| && name in lists[n]
    ensures name in Flatten(lists)
  {
    if n > 0 {
      FlattenHas(lists[1..], n - 1, name);
    }
  }

  lemma {:induction false} FlattenSome(lists: seq<seq<string>>, name: string) returns (n: nat)
    requires name in Flatten(lists)
    ensures n < |lists| && name in lists[n]
  {
    n := 0;
    if name !in lists[0] {
      var more := FlattenSome(lists[1..], name);
      n := more + 1;
    }
  }

  function References(values: Values, name: string): seq<string> {
    match PlainValue(values, name)
    case Some(text) => VariablesIn(text)
    case None => []
  }

  ghost predicate IsRoot(texts: seq<string>, name: string) {
    exists i :: 0 <= i < |texts| && name in VariablesIn(texts[i])
  }

  /** Each name is referred to by the one before it. */
  ghost predicate IsPath(values: Values, chain: seq<string>) {
    chain != [] && forall i :: 0 < i < |chain| ==> chain[i] in References(values, chain[i - 1])
  }

  /** A chain of references from one of the texts to the last name. */
  ghost predicate IsChain(values: Values, texts: seq<string>, chain: seq<string>) {
    IsPath(values, chain) && IsRoot(texts, chain[0])
  }

  ghost predicate Reachable(values: Values, texts: seq<string>, name: string) {
    exists chain :: IsChain(values, texts, chain) && chain[|chain| - 1] == name
  }

  lemma RootIsReachable(values: Values, texts: seq<string>, name: string)
    requires IsRoot(texts, name)
    ensures Reachable(values, texts, name)
  {
    var chain := [name];
    assert IsChain(values, texts, chain) && chain[|chain| - 1] == name;
  }

  lemma ReferenceIsReachable(values: Values, texts: seq<string>, name: string, next: string)
    requires Reachable(values, texts, name) && next in References(values, name)
    ensures Reachable(values, texts, next)
  {
    var chain :| IsChain(values, texts, chain) && chain[|chain| - 1] == name;
    ChainGrows(values, texts, chain, next);
  }

  lemma ChainGrows(values: Values, texts: seq<string>, chain: seq<string>, next: string)
    requires IsChain(values, texts, chain) && next in References(values, chain[|chain| - 1])
    ensures IsChain(values, texts, chain + [next])
    ensures (chain + [next])[|chain + [next]| - 1] == next
  {
    var longer := chain + [next];
    assert forall i :: 0 <= i < |chain| ==> longer[i] == chain[i];
  }

  ghost predicate IsClosed(values: Values, texts: seq<string>, names: set<string>) {
    && (forall name :: IsRoot(texts, name) ==> name in names)
    && (forall name, next :: name in names && next in References(values, name) ==> next in names)
  }

  /** Any set with the roots and closed under references has every reachable name. */
  lemma {:induction false} ReachableIsLeast(values: Values, texts: seq<string>, names: set<string>, chain: seq<string>)
    requires IsChain(values, texts, chain) && IsClosed(values, texts, names)
    ensures chain[|chain| - 1] in names
    decreases |chain|
  {
    if |chain| > 1 {
      ReachableIsLeast(values, texts, names, chain[..|chain| - 1]);
      assert chain[|chain| - 1] in References(values, chain[|chain| - 2]);
    }
  }

  function AsSet(names: seq<string>): set<string> {
    set name | name in names
  }

  /** Every name that can ever be pending. */
  function Universe(values: Values, texts: seq<string>): set<string> {
    (set i, name | 0 <= i < |texts| && name in VariablesIn(texts[i]) :: name)
    + (set key, name | key in values && name in References(values, key) :: name)
  }

  lemma ReferencesInUniverse(values: Values, texts: seq<string>, name: string)
    ensures AsSet(References(values, name)) <= Universe(values, texts)
  {
    if name in values {
      forall next | next in References(values, name) ensures next in Universe(values, texts) {
      }
    }
  }

  /** Halfway: all names are reachable, no root is lost, and what is found has its references found or pending. */
  ghost predicate Searches(values: Values, texts: seq<string>, pending: seq<string>, found: seq<string>) {
    && (forall name :: name in pending || name in found ==> Reachable(values, texts, name))
    && (forall name :: IsRoot(texts, name) ==> name in pending || name in found)
    && (forall name, next :: name in found && next in References(values, name) ==> next in pending || next in found)
  }

  lemma ListMoves(pending: seq<string>, found: seq<string>, name: string, more: seq<string>, next: string)
    ensures next in pending + [name] || next in found ==> next in pending + more || next in found + [name]
    ensures next in pending + more || next in found + [name] ==> next in pending + [name] || next in found || next in more
    ensures next in more ==> next in pending + more
  {
  }

  lemma VisitSearches(values: Values, texts: seq<string>, pending: seq<string>, found: seq<string>, name: string)
    requires Searches(values, texts, pending + [name], found)
    ensures Searches(values, texts, pending + References(values, name), found + [name])
  {
    var more := References(values, name);
    assert name in pending + [name];
    forall next | next in pending + more || next in found + [name] ensures Reachable(values, texts, next) {
      ListMoves(pending, found, name, more, next);
      if next in more {
        ReferenceIsReachable(values, texts, name, next);
      }
    }
    forall next | IsRoot(texts, next) ensures next in pending + more || next in found + [name] {
      ListMoves(pending, found, name, more, next);
    }
    forall from, next | from in found + [name] && next in References(values, from)
      ensures next in pending + more || next in found + [name] {
      ListMoves(pending, found, name, more, next);
    }
  }

  lemma RootsSearch(values: Values, texts: seq<string>, pending: seq<string>)
    requires ListsRoots(pending, texts)
    ensures Searches(values, texts, pending, [])
  {
    forall name | name in pending ensures Reachable(values, texts, name) {
      RootIsReachable(values, texts, name);
    }
  }

  lemma SearchIsExact(values: Values, texts: seq<string>, found: seq<string>)
    requires Searches(values, texts, [], found)
    ensures forall name :: name in found <==> Reachable(values, texts, name)
  {
    assert IsClosed(values, texts, AsSet(found));
    forall name | Reachable(values, texts, name) ensures name in AsSet(found) {
      ReachableIsIn(values, texts, AsSet(found), name);
    }
  }

  lemma ReachableIsIn(values: Values, texts: seq<string>, names: set<string>, name: string)
    requires Reachable(values, texts, name) && IsClosed(values, texts, names)
    ensures name in names
  {
    var chain :| IsChain(values, texts, chain) && chain[|chain| - 1] == name;
    ReachableIsLeast(values, texts, names, chain);
  }

  lemma AppendNew(names: seq<string>, name: string, universe: set<string>)
    requires Distinct(names) && name !in names && name in universe
    ensures Distinct(names + [name]) && AsSet(names + [name]) == AsSet(names) + {name}
    ensures |universe - AsSet(names + [name])| < |universe - AsSet(names)|
  {
    assert AsSet(names + [name]) == AsSet(names) + {name};
    assert universe - AsSet(names + [name]) == universe - AsSet(names) - {name};
  }

  lemma SplitLast(names: seq<string>)
    requires names != []
    ensures names == names[..|names| - 1] + [names[|names| - 1]]
  {
  }

  method RootNames(texts: seq<string>) returns (pending: seq<string>)
    ensures ListsRoots(pending, texts)
  {
    pending := [];
    for i := 0 to |texts|
      invariant ListsRoots(pending, texts[..i])
    {
      RootsGrow(texts, i, pending);
      pending := pending + VariablesIn(texts[i]);
    }
    assert texts[..|texts|] == texts;
  }

  ghost predicate ListsRoots(names: seq<string>, texts: seq<string>) {
    forall name :: name in names <==> IsRoot(texts, name)
  }

  lemma RootsGrow(texts: seq<string>, i: nat, pending: seq<string>)
    requires i < |texts| && ListsRoots(pending, texts[..i])
    ensures ListsRoots(pending + VariablesIn(texts[i]), texts[..i + 1])
  {
    forall name | IsRoot(texts[..i], name) ensures IsRoot(texts[..i + 1], name) {
      var k :| 0 <= k < i && name in VariablesIn(texts[..i][k]);
      assert texts[..i + 1][k] == texts[..i][k];
    }
    forall name | name in VariablesIn(texts[i]) ensures IsRoot(texts[..i + 1], name) {
      assert texts[..i + 1][i] == texts[i];
    }
    forall name | IsRoot(texts[..i + 1], name) ensures IsRoot(texts[..i], name) || name in VariablesIn(texts[i]) {
      var k :| 0 <= k < i + 1 && name in VariablesIn(texts[..i + 1][k]);
      assert k < i ==> texts[..i][k] == texts[..i + 1][k];
    }
  }

  /** Lists exactly the reachable names, each once. */
  method VariablesSent(values: Values, texts: seq<string>) returns (found: seq<string>)
    ensures Distinct(found)
    ensures forall name :: name in found <==> Reachable(values, texts, name)
  {
    var pending := RootNames(texts);
    var visited: set<string> := {};
    found := [];
    ghost var universe := Universe(values, texts);
    RootsSearch(values, texts, pending);
    while pending != []
      invariant visited == AsSet(found) && Distinct(found)
      invariant AsSet(pending) <= universe
      invariant Searches(values, texts, pending, found)
      decreases |universe - visited|, |pending|
    {
      var name := pending[|pending| - 1];
      SplitLast(pending);
      assert name in AsSet(pending);
      pending := pending[..|pending| - 1];
      if name !in visited {
        ReferencesInUniverse(values, texts, name);
        VisitSearches(values, texts, pending, found, name);
        AppendNew(found, name, universe);
        visited := visited + {name};
        found := found + [name];
        pending := pending + References(values, name);
      }
    }
    SearchIsExact(values, texts, found);
  }
}
