/** The simple meaning of variable substitution (`engine/pairs.go`), without any work or size limit.

It has two stages. `Expand` unfolds a text into pieces: it follows variables, and
depends on nothing random. `Render` then prints the pieces from left to right,
drawing generated values and reading files, and remembering both. */
module Expansion {
  import opened Text
  import opened Placeholders

  const MAX_NESTING: nat := 8
  const MAX_REQUEST_BODY: nat := 10 * 1024 * 1024

  /** The place of a placeholder: its index inside the value of the variable `owner`
      (the empty owner stands for the request's own text). */
  datatype Slot = Slot(owner: string, index: nat)

  datatype FileData = FileData(text: string, size: nat)

  datatype FileReference = FileReference(path: string, base64: bool)

  /** What a substitution is given. `answers` and `draw` are the generators: whether one
      exists for a name, and what it returns at each draw. `files` reads and encodes a file. */
  datatype Context = Context(
    variables: map<string, string>,
    generates: bool,
    answers: string -> bool,
    draw: (string, nat) -> string,
    files: Option<FileReference -> Option<FileData>>)

  datatype Piece =
    | Lit(text: string)
    | Kept(placeholder: string)
    | Drawn(slot: Slot, name: string)
    | FromFile(name: string, reference: FileReference, placeholder: string)

  /** What a text unfolds to, before any limit on the work: pieces that need no opening, and the variable that is
      looked at for them, if any; and opened variables, with what their values unfold to and the piece that is
      left instead when there is no work left to open one. */
  datatype Node =
    | Leaf(piece: Piece, looked: Option<string>)
    | Opened(key: string, instead: Piece, inner: seq<Node>)

  /** What is printed in the end: the pieces, how many variables were opened on the way, whether one could not be
      opened any more, and which variables were looked at; and, if all were opened, how many and which that is. */
  datatype Trace = Trace(pieces: seq<Piece>, work: nat, refused: bool, seen: set<string>, size: nat, all: set<string>) {
    function Then(next: Trace): Trace {
      Trace(pieces + next.pieces, work + next.work, refused || next.refused, seen + next.seen, size + next.size, all + next.all)
    }
  }

  function Looked(looked: Option<string>): set<string> {
    match looked
    case None => {}
    case Some(key) => {key}
  }

  const NOTHING := Trace([], 0, false, {}, 0, {})

  /** A piece that needs no opening. */
  function Alone(piece: Piece, looked: set<string>): Trace {
    Trace([piece], 0, false, looked, 0, looked)
  }

  /** Opening a variable, before its value. */
  function Begun(key: string): Trace {
    Trace([], 1, false, {key}, 1, {key})
  }

  /** A variable that cannot be opened any more. */
  function Refusal(key: string, instead: Piece, size: nat, all: set<string>): Trace {
    Trace([instead], 0, true, {key}, 1 + size, {key} + all)
  }

  /** Opening one variable after the other from left to right, `left` in all: a variable that comes later is
      left as it is written. */
  function Flat(nodes: seq<Node>, left: nat): (trace: Trace)
    ensures trace.work <= left && (trace.refused ==> trace.work == left)
    decreases nodes, 1
  {
    if nodes == [] then NOTHING
    else
      var before := Flat(nodes[..|nodes| - 1], left);
      before.Then(FlatOne(nodes[|nodes| - 1], left - before.work))
  }

  function FlatOne(node: Node, left: nat): (trace: Trace)
    ensures trace.work <= left && (trace.refused ==> trace.work == left)
    decreases node, 0
  {
    match node
    case Leaf(piece, looked) => Alone(piece, Looked(looked))
    case Opened(key, instead, inner) =>
      if left == 0 then Refusal(key, instead, Size(inner), AllSeen(inner)) else Begun(key).Then(Flat(inner, left - 1))
  }

  /** How many variables there are to open in all. */
  function Size(nodes: seq<Node>): nat
    decreases nodes, 1
  {
    if nodes == [] then 0 else Size(nodes[..|nodes| - 1]) + SizeOne(nodes[|nodes| - 1])
  }

  function SizeOne(node: Node): nat
    decreases node, 0
  {
    match node
    case Leaf(_, _) => 0
    case Opened(_, _, inner) => 1 + Size(inner)
  }

  /** Every variable that is looked at if all are opened. */
  function AllSeen(nodes: seq<Node>): set<string>
    decreases nodes, 1
  {
    if nodes == [] then {} else AllSeen(nodes[..|nodes| - 1]) + AllSeenOne(nodes[|nodes| - 1])
  }

  function AllSeenOne(node: Node): set<string>
    decreases node, 0
  {
    match node
    case Leaf(_, looked) => Looked(looked)
    case Opened(key, _, inner) => {key} + AllSeen(inner)
  }

  lemma ThenAssociates(a: Trace, b: Trace, c: Trace)
    ensures a.Then(b).Then(c) == a.Then(b.Then(c))
  {
    assert a.pieces + b.pieces + c.pieces == a.pieces + (b.pieces + c.pieces);
  }

  lemma ThenNothing(a: Trace)
    ensures a.Then(NOTHING) == a && NOTHING.Then(a) == a
  {
    assert a.pieces + [] == a.pieces && [] + a.pieces == a.pieces;
  }

  lemma FlatUnfolds(nodes: seq<Node>, init: seq<Node>, last: Node, left: nat)
    requires nodes != [] && nodes[..|nodes| - 1] == init && nodes[|nodes| - 1] == last
    ensures Flat(nodes, left) == Flat(init, left).Then(FlatOne(last, left - Flat(init, left).work))
  {
  }

  lemma LastOfLonger(nodes: seq<Node>, node: Node)
    ensures var longer := nodes + [node];
            longer != [] && longer[..|longer| - 1] == nodes && longer[|longer| - 1] == node
  {
  }

  lemma FlatLast(nodes: seq<Node>, node: Node, left: nat, rest: nat)
    requires rest == left - Flat(nodes, left).work
    ensures Flat(nodes + [node], left) == Flat(nodes, left).Then(FlatOne(node, rest))
  {
    LastOfLonger(nodes, node);
    FlatUnfolds(nodes + [node], nodes, node, left);
  }

  lemma Regroup(a: seq<Node>, b: seq<Node>)
    requires b != []
    ensures var init := b[..|b| - 1];
            b == init + [b[|b| - 1]] && a + b == a + init + [b[|b| - 1]]
  {
  }

  lemma ThenRegroups(first: Trace, second: Trace, one: Trace, both: Trace, longer: Trace, more: Trace)
    requires both == first.Then(second) && longer == both.Then(one) && more == second.Then(one)
    ensures longer == first.Then(more)
  {
    ThenAssociates(first, second, one);
  }

  lemma FlatEnds(a: seq<Node>, left: nat, after: nat)
    ensures Flat(a + [], left) == Flat(a, left).Then(Flat([], after))
  {
    assert a + [] == a;
    ThenNothing(Flat(a, left));
  }

  lemma FlatGoesOn(a: seq<Node>, b: seq<Node>, node: Node, left: nat, after: nat, rest: nat)
    requires Flat(a + b, left) == Flat(a, left).Then(Flat(b, after))
    requires rest == left - Flat(a + b, left).work == after - Flat(b, after).work
    ensures Flat(a + b + [node], left) == Flat(a, left).Then(Flat(b + [node], after))
  {
    FlatLast(a + b, node, left, rest);
    FlatLast(b, node, after, rest);
    ThenRegroups(Flat(a, left), Flat(b, after), FlatOne(node, rest), Flat(a + b, left), Flat(a + b + [node], left), Flat(b + [node], after));
  }

  /** Texts one after the other share the work. */
  lemma {:induction false} FlatJoins(a: seq<Node>, b: seq<Node>, left: nat, after: nat)
    requires after == left - Flat(a, left).work
    ensures Flat(a + b, left) == Flat(a, left).Then(Flat(b, after))
    decreases |b|
  {
    if b == [] {
      FlatEnds(a, left, after);
    } else {
      var init := b[..|b| - 1];
      Regroup(a, b);
      FlatJoins(a, init, left, after);
      FlatGoesOn(a, init, b[|b| - 1], left, after, left - Flat(a + init, left).work);
    }
  }

  lemma FlatSingle(node: Node, left: nat)
    ensures Flat([node], left) == FlatOne(node, left)
  {
    assert [] + [node] == [node];
    FlatLast([], node, left, left);
    ThenNothing(FlatOne(node, left));
  }

  /** The counts of everything do not depend on the work left. */
  lemma {:induction false} FlatCounts(nodes: seq<Node>, left: nat)
    ensures Flat(nodes, left).size == Size(nodes) && Flat(nodes, left).all == AllSeen(nodes)
    decreases nodes, 1
  {
    if nodes != [] {
      var init := nodes[..|nodes| - 1];
      FlatCounts(init, left);
      FlatOneCounts(nodes[|nodes| - 1], left - Flat(init, left).work);
    }
  }

  lemma {:induction false} FlatOneCounts(node: Node, left: nat)
    ensures FlatOne(node, left).size == SizeOne(node) && FlatOne(node, left).all == AllSeenOne(node)
    decreases node, 0
  {
    if node.Opened? && left > 0 {
      FlatCounts(node.inner, left - 1);
    }
  }

  /** With enough work left, everything is opened; and something is refused exactly when there is not enough. */
  ghost predicate IsFlat(trace: Trace, size: nat, seen: set<string>, left: nat) {
    && (trace.refused <==> size > left) && trace.work <= size && trace.seen <= seen
    && (size <= left ==> trace.work == size && trace.seen == seen)
  }

  lemma {:induction false} FlatFits(nodes: seq<Node>, left: nat)
    ensures IsFlat(Flat(nodes, left), Size(nodes), AllSeen(nodes), left)
    decreases nodes, 1
  {
    if nodes != [] {
      FlatFits(nodes[..|nodes| - 1], left);
      FlatOneFits(nodes[|nodes| - 1], left - Flat(nodes[..|nodes| - 1], left).work);
    }
  }

  lemma {:induction false} FlatOneFits(node: Node, left: nat)
    ensures IsFlat(FlatOne(node, left), SizeOne(node), AllSeenOne(node), left)
    decreases node, 0
  {
    if node.Opened? && left > 0 {
      FlatFits(node.inner, left - 1);
    }
  }

  /** And how much more is left makes no difference. */
  lemma {:induction false} FlatIsFree(nodes: seq<Node>, left: nat, more: nat)
    requires Size(nodes) <= left && Size(nodes) <= more
    ensures Flat(nodes, left) == Flat(nodes, more)
    decreases nodes, 1
  {
    if nodes != [] {
      var init := nodes[..|nodes| - 1];
      FlatFits(init, left);
      FlatIsFree(init, left, more);
      FlatOneIsFree(nodes[|nodes| - 1], left - Size(init), more - Size(init));
    }
  }

  lemma {:induction false} FlatOneIsFree(node: Node, left: nat, more: nat)
    requires SizeOne(node) <= left && SizeOne(node) <= more
    ensures FlatOne(node, left) == FlatOne(node, more)
    decreases node, 0
  {
    if node.Opened? {
      FlatIsFree(node.inner, left - 1, more - 1);
    }
  }

  function Literal(text: string): seq<Node> {
    [Leaf(Lit(text), None)]
  }

  datatype Found = Found(key: string, value: string)

  /** `substitution.variable`. */
  function Variable(variables: map<string, string>, name: string): Option<Found> {
    if name in variables then Some(Found(name, variables[name]))
    else match PromptName(name)
      case Some(asked) => if asked in variables then Some(Found(asked, variables[asked])) else None
      case None => None
  }

  /** `parseFileReference`: the pattern `^\$file(Base64)?\((.*)\)$`, whose dot excludes newlines. */
  function ParseFileReference(name: string): Option<FileReference> {
    if HasPrefix(name, "$file(") && HasSuffix(name[6..], ")") && '\n' !in name then
      Some(FileReference(TrimSpace(name[6..|name| - 1]), false))
    else if HasPrefix(name, "$fileBase64(") && HasSuffix(name[12..], ")") && '\n' !in name then
      Some(FileReference(TrimSpace(name[12..|name| - 1]), true))
    else None
  }

  /** `substitution.isUndefined`. */
  predicate IsUndefined(ctx: Context, name: string) {
    name != "" && !HasPrefix(name, DYNAMIC_PREFIX) && PromptName(name).None? && Variable(ctx.variables, name).None?
  }

  /** Where copying resumes once `n` placeholders are done. */
  function Resume(spans: seq<Span>, n: nat): nat
    requires n <= |spans|
  {
    if n == 0 then 0 else spans[n - 1].end
  }

  lemma SpanBounds(text: string, n: nat)
    requires n <= |Spans(text)|
    ensures Resume(Spans(text), n) <= |text|
    ensures n < |Spans(text)| ==>
              Resume(Spans(text), n) <= Spans(text)[n].start && Spans(text)[n].start + 5 <= Spans(text)[n].end <= |text|
  {
    SpansAreLeftmost(text, 0);
    var spans := Spans(text);
    if n > 0 {
      assert IsMatch(text, spans[n - 1].start, spans[n - 1].end);
    }
    if n < |spans| {
      assert IsMatch(text, spans[n].start, spans[n].end);
    }
  }

  /** The text between placeholder `n - 1` and placeholder `n`. */
  function Gap(text: string, n: nat): string
    requires n < |Spans(text)|
  {
    SpanBounds(text, n);
    text[Resume(Spans(text), n)..Spans(text)[n].start]
  }

  function Placeholder(text: string, n: nat): (p: string)
    requires n < |Spans(text)|
    ensures |p| >= 5
  {
    SpanBounds(text, n);
    text[Spans(text)[n].start..Spans(text)[n].end]
  }

  function Tail(text: string): string {
    SpanBounds(text, |Spans(text)|);
    text[Resume(Spans(text), |Spans(text)|)..]
  }

  /** Text outside the placeholders is kept; each placeholder is unfolded on its own. */
  function Expand(ctx: Context, text: string, owner: string, path: seq<string>, readsFiles: bool): seq<Node>
    requires |path| <= MAX_NESTING
    decreases MAX_NESTING - |path|, 3, 0
  {
    ExpandFirst(ctx, text, owner, path, readsFiles, |Spans(text)|) + Literal(Tail(text))
  }

  /** The part of `Expand` up to the end of the first `n` placeholders. */
  function ExpandFirst(ctx: Context, text: string, owner: string, path: seq<string>, readsFiles: bool, n: nat): seq<Node>
    requires |path| <= MAX_NESTING && n <= |Spans(text)|
    decreases MAX_NESTING - |path|, 2, n
  {
    if n == 0 then []
    else ExpandFirst(ctx, text, owner, path, readsFiles, n - 1) + Round(ctx, text, owner, path, readsFiles, n - 1)
  }

  /** The text before a placeholder, then what takes its place. */
  function Round(ctx: Context, text: string, owner: string, path: seq<string>, readsFiles: bool, n: nat): seq<Node>
    requires |path| <= MAX_NESTING && n < |Spans(text)|
    decreases MAX_NESTING - |path|, 1, 0
  {
    Literal(Gap(text, n)) + [ExpandOne(ctx, Placeholder(text, n), Slot(owner, n), path, readsFiles)]
  }

  /** A placeholder becomes its variable's full expansion, unless the variable is undefined,
      already being expanded, or too deep. */
  function ExpandOne(ctx: Context, placeholder: string, slot: Slot, path: seq<string>, readsFiles: bool): Node
    requires |path| <= MAX_NESTING && |placeholder| >= 4
    decreases MAX_NESTING - |path|, 0, 0
  {
    var unresolved := Unresolved(ctx, placeholder, slot, readsFiles);
    match Variable(ctx.variables, NameOf(placeholder))
    case None => Leaf(unresolved, None)
    case Some(found) =>
      if Spans(found.value) == [] then Leaf(Lit(found.value), Some(found.key))
      else if found.key in path || |path| >= MAX_NESTING then Leaf(unresolved, Some(found.key))
      else Opened(found.key, unresolved, Expand(ctx, found.value, found.key, path + [found.key], false))
  }

  /** A placeholder that no variable fills: a file, a generated value, or itself. */
  function Unresolved(ctx: Context, placeholder: string, slot: Slot, readsFiles: bool): Piece
    requires |placeholder| >= 4
  {
    var name := NameOf(placeholder);
    match ParseFileReference(name)
    case Some(reference) => if readsFiles then FromFile(name, reference, placeholder) else Kept(placeholder)
    case None => if ctx.generates && ctx.answers(name) then Drawn(slot, name) else Kept(placeholder)
  }

  /** What printing remembers from one text to the next. */
  datatype Memo = Memo(
    generated: map<Slot, string>,
    draws: nat,
    read: map<string, string>,
    fileBytes: nat,
    missing: seq<string>)

  /** What was printed, or that a file could not be read. */
  datatype Printed = Printed(text: string, memo: Memo) | Unreadable {
    function Then(next: Printed): Printed {
      if Printed? && next.Printed? then Printed(text + next.text, next.memo) else Unreadable
    }
  }

  function NoteMissing(ctx: Context, memo: Memo, name: string): Memo {
    if IsUndefined(ctx, name) && name !in memo.missing then memo.(missing := memo.missing + [name]) else memo
  }

  function PrintGenerated(ctx: Context, memo: Memo, slot: Slot, name: string): Printed {
    if slot in memo.generated then Printed(memo.generated[slot], memo)
    else
      var value := ctx.draw(name, memo.draws);
      var drawn := memo.(draws := memo.draws + 1);
      Printed(value, if slot.owner != "" then drawn.(generated := memo.generated[slot := value]) else drawn)
  }

  /** Reading a file fails when the file cannot be read or the files read add up to too many bytes. */
  function PrintFile(ctx: Context, memo: Memo, name: string, reference: FileReference, placeholder: string): Printed {
    if ctx.files.None? then Printed(placeholder, memo)
    else if name in memo.read then Printed(memo.read[name], memo)
    else match ctx.files.value(reference)
      case None => Unreadable
      case Some(data) =>
        var read := memo.(fileBytes := memo.fileBytes + data.size);
        if read.fileBytes > MAX_REQUEST_BODY then Unreadable
        else Printed(data.text, read.(read := memo.read[name := data.text]))
  }

  function PrintPiece(ctx: Context, memo: Memo, piece: Piece): Printed {
    match piece
    case Lit(text) => Printed(text, memo)
    case Kept(placeholder) =>
      Printed(placeholder, if |placeholder| >= 4 then NoteMissing(ctx, memo, NameOf(placeholder)) else memo)
    case Drawn(slot, name) => PrintGenerated(ctx, memo, slot, name)
    case FromFile(name, reference, placeholder) => PrintFile(ctx, memo, name, reference, placeholder)
  }

  /** Print the pieces one after the other. */
  function Render(ctx: Context, memo: Memo, pieces: seq<Piece>): Printed {
    if pieces == [] then Printed("", memo)
    else
      var before := Render(ctx, memo, pieces[..|pieces| - 1]);
      if before.Unreadable? then Unreadable else before.Then(PrintPiece(ctx, before.memo, pieces[|pieces| - 1]))
  }

  function RenderAfter(ctx: Context, before: Printed, pieces: seq<Piece>): Printed {
    if before.Unreadable? then Unreadable else before.Then(Render(ctx, before.memo, pieces))
  }

  lemma {:induction false} RenderAppend(ctx: Context, memo: Memo, a: seq<Piece>, b: seq<Piece>)
    ensures Render(ctx, memo, a + b) == RenderAfter(ctx, Render(ctx, memo, a), b)
    decreases |b|
  {
    var first := Render(ctx, memo, a);
    if b == [] {
      assert a + b == a;
      assert first.Printed? ==> first.text + "" == first.text;
    } else {
      var init := b[..|b| - 1];
      assert (a + b)[..|a + b| - 1] == a + init;
      RenderAppend(ctx, memo, a, init);
      if first.Printed? && Render(ctx, first.memo, init).Printed? {
        var middle := Render(ctx, first.memo, init);
        var last := PrintPiece(ctx, middle.memo, b[|b| - 1]);
        assert last.Printed? ==> first.text + (middle.text + last.text) == first.text + middle.text + last.text;
      }
    }
  }

  lemma RenderSingle(ctx: Context, memo: Memo, piece: Piece)
    ensures Render(ctx, memo, [piece]) == PrintPiece(ctx, memo, piece)
  {
    var printed := PrintPiece(ctx, memo, piece);
    assert [piece][..0] == [];
    assert printed.Printed? ==> "" + printed.text == printed.text;
  }

  /** Every slot keeps its first value. */
  ghost predicate KeepsSlots(before: map<Slot, string>, after: map<Slot, string>) {
    forall slot :: slot in before ==> slot in after && after[slot] == before[slot]
  }

  lemma {:induction false} RenderKeepsSlots(ctx: Context, memo: Memo, pieces: seq<Piece>)
    requires Render(ctx, memo, pieces).Printed?
    ensures KeepsSlots(memo.generated, Render(ctx, memo, pieces).memo.generated)
  {
    if pieces != [] {
      RenderKeepsSlots(ctx, memo, pieces[..|pieces| - 1]);
    }
  }

  /** A text without placeholders is left alone. */
  lemma PlainTextIsKept(ctx: Context, memo: Memo, text: string, owner: string, path: seq<string>, readsFiles: bool, left: nat)
    requires |path| <= MAX_NESTING && Spans(text) == []
    ensures Flat(Expand(ctx, text, owner, path, readsFiles), left) == Alone(Lit(text), {})
    ensures Render(ctx, memo, [Lit(text)]) == Printed(text, memo)
  {
    assert Tail(text) == text;
    assert Expand(ctx, text, owner, path, readsFiles) == Literal(text);
    FlatSingle(Leaf(Lit(text), None), left);
    RenderSingle(ctx, memo, Lit(text));
  }
}
