/** Which variables the substitution engine looks at: the ones asked for in a text, and, for each that is opened,
the ones its value makes the engine look at. */
module Lookups {
  import opened Text
  import opened Placeholders
  import opened Expansion

  /** Some placeholder of the text resolves to this variable. */
  ghost predicate AsksFor(variables: map<string, string>, text: string, key: string) {
    exists n :: 0 <= n < |Spans(text)| && ResolvesTo(variables, NameOf(Placeholder(text, n)), key)
  }

  predicate ResolvesTo(variables: map<string, string>, name: string, key: string) {
    key in variables && Variable(variables, name) == Some(Found(key, variables[key]))
  }

  lemma VariableResolves(variables: map<string, string>, name: string)
    ensures var found := Variable(variables, name);
            found.Some? ==> ResolvesTo(variables, name, found.value.key)
  {
  }

  /** What opening a variable makes the engine look at, if it opens it. */
  ghost function SeenInside(ctx: Context, key: string, path: seq<string>): set<string>
    requires key in ctx.variables && |path| <= MAX_NESTING
  {
    if Spans(ctx.variables[key]) != [] && key !in path && |path| < MAX_NESTING
    then AllSeen(Expand(ctx, ctx.variables[key], key, path + [key], false)) else {}
  }

  lemma OneSees(ctx: Context, placeholder: string, slot: Slot, path: seq<string>, readsFiles: bool)
    requires |path| <= MAX_NESTING && |placeholder| >= 4
    ensures var found, seen := Variable(ctx.variables, NameOf(placeholder)), AllSeenOne(ExpandOne(ctx, placeholder, slot, path, readsFiles));
            if found.None? then seen == {}
            else found.value.key in ctx.variables && seen == {found.value.key} + SeenInside(ctx, found.value.key, path)
  {
  }

  // A text unfolds to literal text and placeholders that take turns.

  function Weave(leaves: seq<Node>, ones: seq<Node>): seq<Node>
    requires |leaves| == |ones|
  {
    if ones == [] then []
    else Weave(leaves[..|leaves| - 1], ones[..|ones| - 1]) + ([leaves[|leaves| - 1]] + [ones[|ones| - 1]])
  }

  lemma LastIn(nodes: seq<Node>, node: Node)
    requires nodes != []
    ensures node in nodes <==> node in nodes[..|nodes| - 1] || node == nodes[|nodes| - 1]
  {
    assert nodes == nodes[..|nodes| - 1] + [nodes[|nodes| - 1]];
  }

  lemma {:induction false} WeaveHas(leaves: seq<Node>, ones: seq<Node>, node: Node)
    requires |leaves| == |ones|
    ensures node in Weave(leaves, ones) <==> node in leaves || node in ones
    decreases |ones|
  {
    if ones != [] {
      WeaveHas(leaves[..|leaves| - 1], ones[..|ones| - 1], node);
      LastIn(leaves, node);
      LastIn(ones, node);
    }
  }

  lemma {:induction false} WeaveStarts(leaves: seq<Node>, ones: seq<Node>)
    requires |leaves| == |ones| && ones != []
    ensures var nodes := Weave(leaves, ones);
            |nodes| >= 2 && nodes[0] == leaves[0] && nodes[1] == ones[0]
    decreases |ones|
  {
    if |ones| > 1 {
      WeaveStarts(leaves[..|leaves| - 1], ones[..|ones| - 1]);
    }
  }

  function Leaves(text: string): (leaves: seq<Node>)
    ensures |leaves| == |Spans(text)|
  {
    seq(|Spans(text)|, n requires 0 <= n < |Spans(text)| => Leaf(Lit(Gap(text, n)), None))
  }

  /** What each placeholder of a text unfolds to. */
  function Ones(ctx: Context, text: string, owner: string, path: seq<string>, readsFiles: bool): (ones: seq<Node>)
    requires |path| <= MAX_NESTING
    ensures |ones| == |Spans(text)|
  {
    seq(|Spans(text)|, n requires 0 <= n < |Spans(text)| => ExpandOne(ctx, Placeholder(text, n), Slot(owner, n), path, readsFiles))
  }

  lemma OneAt(ctx: Context, text: string, owner: string, path: seq<string>, readsFiles: bool, n: nat)
    requires |path| <= MAX_NESTING && n < |Spans(text)|
    ensures Ones(ctx, text, owner, path, readsFiles)[n] == ExpandOne(ctx, Placeholder(text, n), Slot(owner, n), path, readsFiles)
  {
  }

  lemma WeaveNext(leaves: seq<Node>, ones: seq<Node>, n: nat)
    requires |leaves| == |ones| && n < |ones|
    ensures Weave(leaves[..n + 1], ones[..n + 1]) == Weave(leaves[..n], ones[..n]) + ([leaves[n]] + [ones[n]])
  {
    assert leaves[..n + 1][..n] == leaves[..n] && ones[..n + 1][..n] == ones[..n];
  }

  lemma FirstNext(ctx: Context, text: string, owner: string, path: seq<string>, readsFiles: bool, n: nat)
    requires |path| <= MAX_NESTING && n < |Spans(text)|
    ensures ExpandFirst(ctx, text, owner, path, readsFiles, n + 1) == ExpandFirst(ctx, text, owner, path, readsFiles, n)
            + ([Leaves(text)[n]] + [Ones(ctx, text, owner, path, readsFiles)[n]])
  {
    OneAt(ctx, text, owner, path, readsFiles, n);
  }

  lemma {:induction false} FirstIsWoven(ctx: Context, text: string, owner: string, path: seq<string>, readsFiles: bool, n: nat)
    requires |path| <= MAX_NESTING && n <= |Spans(text)|
    ensures ExpandFirst(ctx, text, owner, path, readsFiles, n) == Weave(Leaves(text)[..n], Ones(ctx, text, owner, path, readsFiles)[..n])
  {
    if n > 0 {
      FirstIsWoven(ctx, text, owner, path, readsFiles, n - 1);
      FirstNext(ctx, text, owner, path, readsFiles, n - 1);
      WeaveNext(Leaves(text), Ones(ctx, text, owner, path, readsFiles), n - 1);
    }
  }

  lemma ExpandIsWoven(ctx: Context, text: string, owner: string, path: seq<string>, readsFiles: bool)
    requires |path| <= MAX_NESTING
    ensures Expand(ctx, text, owner, path, readsFiles)
         == Weave(Leaves(text), Ones(ctx, text, owner, path, readsFiles)) + Literal(Tail(text))
  {
    var n := |Spans(text)|;
    FirstIsWoven(ctx, text, owner, path, readsFiles, n);
    assert Leaves(text)[..n] == Leaves(text) && Ones(ctx, text, owner, path, readsFiles)[..n] == Ones(ctx, text, owner, path, readsFiles);
  }

  predicate IsLiteral(node: Node) {
    node.Leaf? && node.piece.Lit? && node.looked.None?
  }

  lemma WovenHas(leaves: seq<Node>, ones: seq<Node>, last: seq<Node>, node: Node)
    requires |leaves| == |ones|
    ensures node in Weave(leaves, ones) + last <==> node in leaves || node in ones || node in last
  {
    WeaveHas(leaves, ones, node);
  }

  /** A node of an unfolding is literal text or stands for a placeholder. */
  lemma NodeOf(ctx: Context, text: string, owner: string, path: seq<string>, readsFiles: bool, node: Node)
    requires |path| <= MAX_NESTING
    ensures node in Expand(ctx, text, owner, path, readsFiles) ==> IsLiteral(node) || node in Ones(ctx, text, owner, path, readsFiles)
    ensures node in Ones(ctx, text, owner, path, readsFiles) ==> node in Expand(ctx, text, owner, path, readsFiles)
  {
    ExpandIsWoven(ctx, text, owner, path, readsFiles);
    WovenHas(Leaves(text), Ones(ctx, text, owner, path, readsFiles), Literal(Tail(text)), node);
  }

  lemma WeaveOne(leaf: Node, one: Node)
    ensures Weave([leaf], [one]) == [leaf, one]
  {
    assert [leaf][..0] == [] && [one][..0] == [];
  }

  lemma WeaveTwo(leaves: seq<Node>, ones: seq<Node>)
    requires |leaves| == |ones| == 2
    ensures Weave(leaves, ones) == [leaves[0], ones[0], leaves[1], ones[1]]
  {
    assert leaves[..1] == [leaves[0]] && ones[..1] == [ones[0]];
    WeaveOne(leaves[0], ones[0]);
  }

  /** A text with one placeholder. */
  lemma OneSpan(ctx: Context, text: string, owner: string, path: seq<string>, readsFiles: bool, one: Node)
    requires |path| <= MAX_NESTING && |Spans(text)| == 1
    requires one == ExpandOne(ctx, Placeholder(text, 0), Slot(owner, 0), path, readsFiles)
    ensures Expand(ctx, text, owner, path, readsFiles) == [Leaf(Lit(Gap(text, 0)), None), one, Leaf(Lit(Tail(text)), None)]
  {
    ExpandIsWoven(ctx, text, owner, path, readsFiles);
    OneAt(ctx, text, owner, path, readsFiles, 0);
    assert Leaves(text) == [Leaf(Lit(Gap(text, 0)), None)] && Ones(ctx, text, owner, path, readsFiles) == [one];
    WeaveOne(Leaf(Lit(Gap(text, 0)), None), one);
  }

  /** A text with two. */
  lemma TwoSpans(ctx: Context, text: string, owner: string, path: seq<string>, readsFiles: bool, a: Node, b: Node)
    requires |path| <= MAX_NESTING && |Spans(text)| == 2
    requires a == ExpandOne(ctx, Placeholder(text, 0), Slot(owner, 0), path, readsFiles)
    requires b == ExpandOne(ctx, Placeholder(text, 1), Slot(owner, 1), path, readsFiles)
    ensures Expand(ctx, text, owner, path, readsFiles)
         == [Leaf(Lit(Gap(text, 0)), None), a, Leaf(Lit(Gap(text, 1)), None), b, Leaf(Lit(Tail(text)), None)]
  {
    ExpandIsWoven(ctx, text, owner, path, readsFiles);
    OneAt(ctx, text, owner, path, readsFiles, 0);
    OneAt(ctx, text, owner, path, readsFiles, 1);
    WeaveTwo(Leaves(text), Ones(ctx, text, owner, path, readsFiles));
  }

  lemma {:induction false} AllSeenHas(nodes: seq<Node>, key: string)
    ensures key in AllSeen(nodes) <==> exists node :: node in nodes && key in AllSeenOne(node)
    decreases |nodes|
  {
    if nodes != [] {
      var init := nodes[..|nodes| - 1];
      AllSeenHas(init, key);
      LastIn(nodes, nodes[|nodes| - 1]);
      if key in AllSeen(init) {
        var node :| node in init && key in AllSeenOne(node);
        LastIn(nodes, node);
      }
      if node :| node in nodes && key in AllSeenOne(node) {
        LastIn(nodes, node);
      }
    }
  }

  ghost predicate SeenAt(ctx: Context, text: string, owner: string, path: seq<string>, readsFiles: bool, n: nat, key: string)
    requires |path| <= MAX_NESTING && n < |Spans(text)|
  {
    key in AllSeenOne(ExpandOne(ctx, Placeholder(text, n), Slot(owner, n), path, readsFiles))
  }

  /** The engine looks at a variable exactly for one of the placeholders. */
  lemma SeenByOne(ctx: Context, text: string, owner: string, path: seq<string>, readsFiles: bool, key: string)
    requires |path| <= MAX_NESTING
    ensures key in AllSeen(Expand(ctx, text, owner, path, readsFiles)) <==>
            exists n :: 0 <= n < |Spans(text)| && SeenAt(ctx, text, owner, path, readsFiles, n, key)
  {
    var nodes, ones := Expand(ctx, text, owner, path, readsFiles), Ones(ctx, text, owner, path, readsFiles);
    AllSeenHas(nodes, key);
    if key in AllSeen(nodes) {
      var node :| node in nodes && key in AllSeenOne(node);
      NodeOf(ctx, text, owner, path, readsFiles, node);
      var n :| 0 <= n < |ones| && ones[n] == node;
      OneAt(ctx, text, owner, path, readsFiles, n);
      assert SeenAt(ctx, text, owner, path, readsFiles, n, key);
    }
    if n :| 0 <= n < |Spans(text)| && SeenAt(ctx, text, owner, path, readsFiles, n, key) {
      OneAt(ctx, text, owner, path, readsFiles, n);
      NodeOf(ctx, text, owner, path, readsFiles, ones[n]);
    }
  }

  /** A variable that is looked at is asked for, or is looked at inside one that is. */
  lemma SeenIsAsked(ctx: Context, text: string, owner: string, path: seq<string>, readsFiles: bool, key: string) returns (asked: string)
    requires |path| <= MAX_NESTING && key in AllSeen(Expand(ctx, text, owner, path, readsFiles))
    ensures AsksFor(ctx.variables, text, asked) && asked in ctx.variables
    ensures key == asked || key in SeenInside(ctx, asked, path)
  {
    SeenByOne(ctx, text, owner, path, readsFiles, key);
    var n :| 0 <= n < |Spans(text)| && SeenAt(ctx, text, owner, path, readsFiles, n, key);
    asked := SeenForOne(ctx, Placeholder(text, n), Slot(owner, n), path, readsFiles, key);
    assert ResolvesTo(ctx.variables, NameOf(Placeholder(text, n)), asked);
  }

  lemma SeenForOne(ctx: Context, placeholder: string, slot: Slot, path: seq<string>, readsFiles: bool, key: string) returns (asked: string)
    requires |path| <= MAX_NESTING && |placeholder| >= 4 && key in AllSeenOne(ExpandOne(ctx, placeholder, slot, path, readsFiles))
    ensures ResolvesTo(ctx.variables, NameOf(placeholder), asked)
    ensures key == asked || key in SeenInside(ctx, asked, path)
  {
    OneSees(ctx, placeholder, slot, path, readsFiles);
    VariableResolves(ctx.variables, NameOf(placeholder));
    asked := Variable(ctx.variables, NameOf(placeholder)).value.key;
  }

  /** And the other way round. */
  lemma AskedIsSeen(ctx: Context, text: string, owner: string, path: seq<string>, readsFiles: bool, asked: string)
    requires |path| <= MAX_NESTING && AsksFor(ctx.variables, text, asked)
    ensures asked in AllSeen(Expand(ctx, text, owner, path, readsFiles))
    ensures SeenInside(ctx, asked, path) <= AllSeen(Expand(ctx, text, owner, path, readsFiles))
  {
    var n :| 0 <= n < |Spans(text)| && ResolvesTo(ctx.variables, NameOf(Placeholder(text, n)), asked);
    OneSees(ctx, Placeholder(text, n), Slot(owner, n), path, readsFiles);
    forall key | key == asked || key in SeenInside(ctx, asked, path) ensures key in AllSeen(Expand(ctx, text, owner, path, readsFiles)) {
      SeenByOne(ctx, text, owner, path, readsFiles, key);
      assert SeenAt(ctx, text, owner, path, readsFiles, n, key);
    }
  }

  // With little work left, too.

  function LookedAt(node: Node): set<string> {
    match node
    case Leaf(_, looked) => Looked(looked)
    case Opened(key, _, _) => {key}
  }

  lemma {:induction false} LookedAtIsSeen(nodes: seq<Node>, node: Node, left: nat)
    requires node in nodes
    ensures LookedAt(node) <= Flat(nodes, left).seen
    decreases |nodes|
  {
    LastIn(nodes, node);
    if node in nodes[..|nodes| - 1] {
      LookedAtIsSeen(nodes[..|nodes| - 1], node, left);
    }
  }

  lemma AskedIsNode(ctx: Context, text: string, owner: string, path: seq<string>, readsFiles: bool, n: nat, asked: string)
    requires |path| <= MAX_NESTING && n < |Spans(text)| && ResolvesTo(ctx.variables, NameOf(Placeholder(text, n)), asked)
    ensures asked in LookedAt(Ones(ctx, text, owner, path, readsFiles)[n])
  {
    OneAt(ctx, text, owner, path, readsFiles, n);
  }

  lemma AskedNode(ctx: Context, text: string, owner: string, path: seq<string>, readsFiles: bool, asked: string) returns (node: Node)
    requires |path| <= MAX_NESTING && AsksFor(ctx.variables, text, asked)
    ensures node in Expand(ctx, text, owner, path, readsFiles) && asked in LookedAt(node)
  {
    var n :| 0 <= n < |Spans(text)| && ResolvesTo(ctx.variables, NameOf(Placeholder(text, n)), asked);
    node := Ones(ctx, text, owner, path, readsFiles)[n];
    AskedIsNode(ctx, text, owner, path, readsFiles, n, asked);
    NodeOf(ctx, text, owner, path, readsFiles, node);
  }

  /** What is asked for is looked at however little work is left. */
  lemma AskedIsLookedAt(ctx: Context, text: string, owner: string, path: seq<string>, readsFiles: bool, asked: string, left: nat)
    requires |path| <= MAX_NESTING && AsksFor(ctx.variables, text, asked)
    ensures asked in Flat(Expand(ctx, text, owner, path, readsFiles), left).seen
  {
    var node := AskedNode(ctx, text, owner, path, readsFiles, asked);
    LookedAtIsSeen(Expand(ctx, text, owner, path, readsFiles), node, left);
  }

  lemma SecondIsOpened(nodes: seq<Node>, left: nat)
    requires |nodes| >= 2 && nodes[0].Leaf? && nodes[1].Opened? && left > 0
    ensures Flat(nodes[1].inner, left - 1).seen <= Flat(nodes, left).seen
  {
    var first, rest := [nodes[0]], nodes[2..];
    assert nodes == first + [nodes[1]] + rest;
    FlatSingle(nodes[0], left);
    FlatJoins(first, [nodes[1]], left, left);
    FlatJoins(first + [nodes[1]], rest, left, left - Flat(first + [nodes[1]], left).work);
    FlatSingle(nodes[1], left);
  }

  lemma FirstNodes(ctx: Context, text: string, owner: string, path: seq<string>, readsFiles: bool)
    requires |path| <= MAX_NESTING && Spans(text) != []
    ensures var nodes := Expand(ctx, text, owner, path, readsFiles);
            |nodes| >= 2 && nodes[0].Leaf? && nodes[1] == Ones(ctx, text, owner, path, readsFiles)[0]
  {
    ExpandIsWoven(ctx, text, owner, path, readsFiles);
    WeaveStarts(Leaves(text), Ones(ctx, text, owner, path, readsFiles));
  }

  lemma AskedIsOpened(ctx: Context, text: string, owner: string, path: seq<string>, readsFiles: bool, asked: string)
    requires |path| < MAX_NESTING && Spans(text) != [] && ResolvesTo(ctx.variables, NameOf(Placeholder(text, 0)), asked)
    requires Spans(ctx.variables[asked]) != [] && asked !in path
    ensures var one := Ones(ctx, text, owner, path, readsFiles)[0];
            one.Opened? && one.inner == Expand(ctx, ctx.variables[asked], asked, path + [asked], false)
  {
    OneAt(ctx, text, owner, path, readsFiles, 0);
  }

  /** What the first placeholder asks for, if its value asks for `inside` and can be opened below `path`. */
  ghost function Leading(ctx: Context, text: string, path: seq<string>, inside: string): iset<string> {
    iset asked: string |
      && Spans(text) != [] && ResolvesTo(ctx.variables, NameOf(Placeholder(text, 0)), asked)
      && AsksFor(ctx.variables, ctx.variables[asked], inside) && asked !in path
  }

  lemma LeadingOpens(ctx: Context, text: string, owner: string, path: seq<string>, readsFiles: bool, asked: string, inside: string)
    returns (opening: seq<Node>, node: Node)
    requires |path| < MAX_NESTING && asked in Leading(ctx, text, path, inside)
    ensures opening == Expand(ctx, text, owner, path, readsFiles)
    ensures |opening| >= 2 && opening[0].Leaf? && opening[1].Opened? && node in opening[1].inner && inside in LookedAt(node)
  {
    opening := Expand(ctx, text, owner, path, readsFiles);
    FirstNodes(ctx, text, owner, path, readsFiles);
    AskedIsOpened(ctx, text, owner, path, readsFiles, asked);
    node := AskedNode(ctx, ctx.variables[asked], asked, path + [asked], false, inside);
  }

  /** What the first placeholder asks for is opened as long as there is any work left, and what its value asks for
      is looked at. */
  lemma InsideIsLookedAt(ctx: Context, text: string, owner: string, path: seq<string>, readsFiles: bool, asked: string, inside: string, left: nat)
    requires |path| < MAX_NESTING && asked in Leading(ctx, text, path, inside) && left > 0
    ensures inside in Flat(Expand(ctx, text, owner, path, readsFiles), left).seen
  {
    var nodes, node := LeadingOpens(ctx, text, owner, path, readsFiles, asked, inside);
    SecondIsOpened(nodes, left);
    LookedAtIsSeen(nodes[1].inner, node, left - 1);
  }

  /** Whatever has the variables asked for in its own variables' values has everything that is looked at. */
  ghost predicate IsClosed(variables: map<string, string>, names: iset<string>) {
    forall key, asked :: key in names && key in variables && AsksFor(variables, variables[key], asked) ==> asked in names
  }

  lemma SeenStaysInside(ctx: Context, text: string, owner: string, path: seq<string>, readsFiles: bool, names: iset<string>, key: string)
    requires |path| <= MAX_NESTING && IsClosed(ctx.variables, names)
    requires forall asked :: AsksFor(ctx.variables, text, asked) ==> asked in names
    requires key in AllSeen(Expand(ctx, text, owner, path, readsFiles))
    ensures key in names
    decreases MAX_NESTING - |path|
  {
    var asked := SeenIsAsked(ctx, text, owner, path, readsFiles, key);
    if key != asked {
      SeenStaysInside(ctx, ctx.variables[asked], asked, path + [asked], false, names, key);
    }
  }
}
