/** When a variable that is expanded twice gives the same text: `generate` of `engine/pairs.go` remembers a value
for the variable whose value it is drawn in, and the empty name stands for none. */
module Repeats {
  import opened Text
  import opened Placeholders
  import opened Expansion
  import opened Lookups

  /** No file is read, as in every value of a variable. */
  ghost predicate HasNoFiles(pieces: seq<Piece>) {
    forall i :: 0 <= i < |pieces| ==> !pieces[i].FromFile?
  }

  /** No generated value lies in the value of the variable with the empty name. */
  ghost predicate IsOwned(pieces: seq<Piece>) {
    forall i :: 0 <= i < |pieces| && pieces[i].Drawn? ==> pieces[i].slot.owner != ""
  }

  /** Values are remembered for variables only. */
  ghost predicate RemembersOwned(memo: Memo) {
    forall slot :: slot in memo.generated ==> slot.owner != ""
  }

  /** Printed one after the other, with anything in between, they give the same text and the second fills no slot. */
  ghost predicate Agrees(ctx: Context, memo: Memo, pieces: seq<Piece>, again: seq<Piece>, between: seq<Piece>) {
    var first := Render(ctx, memo, pieces);
    first.Printed? &&
    var middle := Render(ctx, first.memo, between);
    middle.Printed? ==>
      var second := Render(ctx, middle.memo, again);
      second.Printed? && second.text == first.text && second.memo.generated == middle.memo.generated
  }

  /** Whatever the generators return. */
  ghost predicate AlwaysAgrees(ctx: Context, pieces: seq<Piece>, again: seq<Piece>) {
    forall draw: (string, nat) -> string, memo: Memo, between: seq<Piece> ::
      RemembersOwned(memo) ==> Agrees(ctx.(draw := draw), memo, pieces, again, between)
  }

  // What is owned agrees.

  lemma Init(pieces: seq<Piece>)
    requires pieces != []
    ensures HasNoFiles(pieces) ==> HasNoFiles(pieces[..|pieces| - 1]) && !pieces[|pieces| - 1].FromFile?
    ensures IsOwned(pieces) ==> IsOwned(pieces[..|pieces| - 1])
  {
  }

  lemma {:induction false} IsReadable(ctx: Context, memo: Memo, pieces: seq<Piece>)
    requires HasNoFiles(pieces)
    ensures Render(ctx, memo, pieces).Printed?
  {
    if pieces != [] {
      Init(pieces);
      IsReadable(ctx, memo, pieces[..|pieces| - 1]);
    }
  }

  /** The text printed while the slots were being filled is the text they print once filled. */
  lemma {:induction false} RenderIsFinal(ctx: Context, memo: Memo, after: Memo, pieces: seq<Piece>)
    requires HasNoFiles(pieces) && IsOwned(pieces) && Render(ctx, memo, pieces).Printed?
    requires KeepsSlots(Render(ctx, memo, pieces).memo.generated, after.generated)
    ensures var again := Render(ctx, after, pieces);
            again.Printed? && again.text == Render(ctx, memo, pieces).text && again.memo.generated == after.generated
  {
    if pieces != [] {
      var init, last := pieces[..|pieces| - 1], pieces[|pieces| - 1];
      Init(pieces);
      var before := Render(ctx, memo, init).memo;
      RenderKeepsSlots(ctx, before, [last]);
      RenderSingle(ctx, before, last);
      RenderIsFinal(ctx, memo, after, init);
    }
  }

  lemma OwnedAgrees(ctx: Context, memo: Memo, pieces: seq<Piece>, between: seq<Piece>)
    requires HasNoFiles(pieces) && IsOwned(pieces)
    ensures Agrees(ctx, memo, pieces, pieces, between)
  {
    IsReadable(ctx, memo, pieces);
    var first := Render(ctx, memo, pieces);
    if Render(ctx, first.memo, between).Printed? {
      RenderKeepsSlots(ctx, first.memo, between);
      RenderIsFinal(ctx, memo, Render(ctx, first.memo, between).memo, pieces);
    }
  }

  // What is not owned does not: let each draw be longer than the one before.

  function Marks(n: nat): (s: string)
    ensures |s| == n
  {
    seq(n, _ => 'x')
  }

  function Longer(ctx: Context): Context {
    ctx.(draw := (name: string, n: nat) => Marks(n))
  }

  lemma {:induction false} DrawsGrow(ctx: Context, memo: Memo, pieces: seq<Piece>)
    requires Render(ctx, memo, pieces).Printed?
    ensures memo.draws <= Render(ctx, memo, pieces).memo.draws
    ensures RemembersOwned(memo) ==> RemembersOwned(Render(ctx, memo, pieces).memo)
  {
    if pieces != [] {
      DrawsGrow(ctx, memo, pieces[..|pieces| - 1]);
    }
  }

  /** How a first and a second printing compare: `first` and `again` are the printed starts. */
  ghost predicate Compares(first: Printed, again: Printed, draws: nat, owned: bool) {
    && first.Printed? && again.Printed?
    && first.memo.draws <= draws <= again.memo.draws
    && RemembersOwned(first.memo) && RemembersOwned(again.memo)
    && |first.text| <= |again.text| && (!owned ==> |first.text| < |again.text|)
  }

  lemma PieceCompares(ctx: Context, first: Printed, again: Printed, piece: Piece, draws: nat, owned: bool)
    requires Compares(first, again, draws, owned) && !piece.FromFile?
    requires var next := PrintPiece(Longer(ctx), first.memo, piece);
             next.Printed? && next.memo.draws <= draws && KeepsSlots(next.memo.generated, again.memo.generated)
    ensures Compares(first.Then(PrintPiece(Longer(ctx), first.memo, piece)),
                     again.Then(PrintPiece(Longer(ctx), again.memo, piece)), draws,
                     owned && (piece.Drawn? ==> piece.slot.owner != ""))
  {
  }

  lemma RenderLast(ctx: Context, memo: Memo, pieces: seq<Piece>)
    requires pieces != [] && HasNoFiles(pieces)
    ensures var init := Render(ctx, memo, pieces[..|pieces| - 1]);
            init.Printed? && Render(ctx, memo, pieces) == init.Then(PrintPiece(ctx, init.memo, pieces[|pieces| - 1]))
  {
    Init(pieces);
    IsReadable(ctx, memo, pieces[..|pieces| - 1]);
  }

  /** The second printing starts when all draws of the first are done. */
  lemma {:induction false} SecondIsLonger(ctx: Context, memo: Memo, after: Memo, pieces: seq<Piece>)
    requires HasNoFiles(pieces) && RemembersOwned(memo) && RemembersOwned(after)
    requires var first := Render(Longer(ctx), memo, pieces);
             first.Printed? && first.memo.draws <= after.draws && KeepsSlots(first.memo.generated, after.generated)
    ensures Compares(Render(Longer(ctx), memo, pieces), Render(Longer(ctx), after, pieces), after.draws, IsOwned(pieces))
  {
    if pieces != [] {
      var init, last := pieces[..|pieces| - 1], pieces[|pieces| - 1];
      Init(pieces);
      RenderLast(Longer(ctx), memo, pieces);
      RenderLast(Longer(ctx), after, pieces);
      var first := Render(Longer(ctx), memo, init);
      LastGrows(Longer(ctx), first.memo, last);
      SecondIsLonger(ctx, memo, after, init);
      RenderKeepsSlots(Longer(ctx), after, init);
      PieceCompares(ctx, first, Render(Longer(ctx), after, init), last, after.draws, IsOwned(init));
      OwnedLast(pieces);
    }
  }

  lemma LastGrows(ctx: Context, memo: Memo, piece: Piece)
    requires !piece.FromFile?
    ensures var next := PrintPiece(ctx, memo, piece);
            next.Printed? && memo.draws <= next.memo.draws && KeepsSlots(memo.generated, next.memo.generated)
  {
  }

  lemma OwnedLast(pieces: seq<Piece>)
    requires pieces != []
    ensures var last := pieces[|pieces| - 1];
            IsOwned(pieces) <==> IsOwned(pieces[..|pieces| - 1]) && (last.Drawn? ==> last.slot.owner != "")
  {
  }

  const EMPTY := Memo(map[], 0, map[], 0, [])

  lemma UnownedDiffers(ctx: Context, pieces: seq<Piece>)
    requires HasNoFiles(pieces) && !IsOwned(pieces)
    ensures !Agrees(Longer(ctx), EMPTY, pieces, pieces, [])
  {
    IsReadable(Longer(ctx), EMPTY, pieces);
    var first := Render(Longer(ctx), EMPTY, pieces);
    DrawsGrow(Longer(ctx), EMPTY, pieces);
    SecondIsLonger(ctx, EMPTY, first.memo, pieces);
  }

  lemma AgreesExactlyWhenOwned(ctx: Context, pieces: seq<Piece>)
    requires HasNoFiles(pieces)
    ensures AlwaysAgrees(ctx, pieces, pieces) <==> IsOwned(pieces)
  {
    if IsOwned(pieces) {
      forall draw: (string, nat) -> string, memo: Memo, between: seq<Piece> | RemembersOwned(memo)
        ensures Agrees(ctx.(draw := draw), memo, pieces, pieces, between)
      {
        OwnedAgrees(ctx.(draw := draw), memo, pieces, between);
      }
    } else {
      UnownedDiffers(ctx, pieces);
    }
  }

  /** A generated value is the same wherever its slot is printed again, for all generators, if and only if the slot
      belongs to a variable with a name. */
  lemma SlotAgreesExactly(ctx: Context, slot: Slot, name: string)
    ensures AlwaysAgrees(ctx, [Drawn(slot, name)], [Drawn(slot, name)]) <==> slot.owner != ""
  {
    var pieces := [Drawn(slot, name)];
    assert pieces[0] == Drawn(slot, name);
    AgreesExactlyWhenOwned(ctx, pieces);
  }

  // The expansion of a variable while others are open.

  /** What a variable unfolds to when the variables of `path` are open, itself among them. */
  ghost function Unfold(ctx: Context, name: string, path: seq<string>): seq<Node>
    requires name in ctx.variables && |path| <= MAX_NESTING
  {
    Expand(ctx, ctx.variables[name], name, path, false)
  }

  ghost predicate Opens(nodes: seq<Node>, key: string) {
    exists i :: 0 <= i < |nodes| && OpensOne(nodes[i], key)
  }

  ghost predicate OpensOne(node: Node, key: string) {
    node.Opened? && (node.key == key || exists i :: 0 <= i < |node.inner| && OpensOne(node.inner[i], key))
  }

  /** No variable is opened more than `height` levels deep. */
  ghost predicate IsLow(nodes: seq<Node>, height: int) {
    forall i :: 0 <= i < |nodes| ==> IsLowOne(nodes[i], height)
  }

  ghost predicate IsLowOne(node: Node, height: int) {
    node.Opened? ==> height > 0 && forall i :: 0 <= i < |node.inner| ==> IsLowOne(node.inner[i], height - 1)
  }

  /** None of the variables opened is open already in `path`, and none would be too deep below it. */
  ghost predicate IsFree(nodes: seq<Node>, path: seq<string>) {
    (forall key :: key in path ==> !Opens(nodes, key)) && IsLow(nodes, MAX_NESTING - |path|)
  }

  /** The same, step by step. */
  ghost predicate Clear(nodes: seq<Node>, path: seq<string>) {
    forall i :: 0 <= i < |nodes| ==> ClearOne(nodes[i], path)
  }

  ghost predicate ClearOne(node: Node, path: seq<string>) {
    node.Opened? ==>
      && node.key !in path && |path| < MAX_NESTING
      && forall i :: 0 <= i < |node.inner| ==> ClearOne(node.inner[i], path + [node.key])
  }

  lemma {:induction false} ClearIsFree(nodes: seq<Node>, path: seq<string>)
    requires Clear(nodes, path)
    ensures IsFree(nodes, path)
    decreases nodes, 1
  {
    forall i | 0 <= i < |nodes| ensures IsLowOne(nodes[i], MAX_NESTING - |path|) && forall key :: key in path ==> !OpensOne(nodes[i], key) {
      ClearOneIsFree(nodes[i], path);
    }
  }

  lemma {:induction false} ClearOneIsFree(node: Node, path: seq<string>)
    requires ClearOne(node, path)
    ensures IsLowOne(node, MAX_NESTING - |path|) && forall key :: key in path ==> !OpensOne(node, key)
    decreases node, 0
  {
    if node.Opened? {
      var longer := path + [node.key];
      assert Clear(node.inner, longer);
      ClearIsFree(node.inner, longer);
      forall key | key in path ensures !OpensOne(node, key) {
        assert key in longer && !Opens(node.inner, key);
      }
    }
  }

  /** What can be opened below `path`, and is free of `other`, can be opened below `other`. */
  lemma {:induction false} FreeIsClear(nodes: seq<Node>, path: seq<string>, other: seq<string>)
    requires Clear(nodes, path) && IsFree(nodes, other)
    ensures Clear(nodes, other)
    decreases nodes, 1
  {
    forall i | 0 <= i < |nodes| ensures ClearOne(nodes[i], other) {
      assert forall key :: key in other ==> !OpensOne(nodes[i], key);
      FreeOneIsClear(nodes[i], path, other);
    }
  }

  lemma {:induction false} FreeOneIsClear(node: Node, path: seq<string>, other: seq<string>)
    requires ClearOne(node, path) && IsLowOne(node, MAX_NESTING - |other|)
    requires forall key :: key in other ==> !OpensOne(node, key)
    ensures ClearOne(node, other)
    decreases node, 0
  {
    if node.Opened? {
      assert OpensOne(node, node.key);
      var below, longer := path + [node.key], other + [node.key];
      assert Clear(node.inner, below);
      ClearIsFree(node.inner, below);
      assert node.key in below;
      forall key | key in longer ensures !Opens(node.inner, key) {
        if key in other {
          assert !OpensOne(node, key);
        }
      }
      FreeIsClear(node.inner, below, longer);
    }
  }

  // Below its own path, everything that is opened is clear.

  lemma ExpandIsClear(ctx: Context, text: string, owner: string, path: seq<string>)
    requires |path| <= MAX_NESTING
    ensures Clear(Expand(ctx, text, owner, path, false), path)
    decreases MAX_NESTING - |path|, 1
  {
    var ones := Ones(ctx, text, owner, path, false);
    forall n | 0 <= n < |ones| ensures ClearOne(ones[n], path) {
      OneAt(ctx, text, owner, path, false, n);
      OneIsClear(ctx, Placeholder(text, n), Slot(owner, n), path);
    }
    ClearBuilds(ctx, text, owner, path, Expand(ctx, text, owner, path, false));
  }

  lemma ClearBuilds(ctx: Context, text: string, owner: string, path: seq<string>, nodes: seq<Node>)
    requires |path| <= MAX_NESTING && nodes == Expand(ctx, text, owner, path, false) && Clear(Ones(ctx, text, owner, path, false), path)
    ensures Clear(nodes, path)
  {
    forall i | 0 <= i < |nodes| ensures ClearOne(nodes[i], path) {
      NodeOf(ctx, text, owner, path, false, nodes[i]);
    }
  }

  lemma OneIsClear(ctx: Context, placeholder: string, slot: Slot, path: seq<string>)
    requires |path| <= MAX_NESTING && |placeholder| >= 4
    ensures ClearOne(ExpandOne(ctx, placeholder, slot, path, false), path)
    decreases MAX_NESTING - |path|, 0
  {
    match Variable(ctx.variables, NameOf(placeholder))
    case None =>
    case Some(found) =>
      if found.key !in path && |path| < MAX_NESTING {
        ExpandIsClear(ctx, found.value, found.key, path + [found.key]);
      }
  }

  // What is clear of each other's path is the same.

  lemma OneIsSame(ctx: Context, placeholder: string, slot: Slot, p: seq<string>, q: seq<string>)
    requires |p| <= MAX_NESTING && |q| <= MAX_NESTING && |placeholder| >= 4
    requires ClearOne(ExpandOne(ctx, placeholder, slot, p, false), q) && ClearOne(ExpandOne(ctx, placeholder, slot, q, false), p)
    ensures ExpandOne(ctx, placeholder, slot, p, false) == ExpandOne(ctx, placeholder, slot, q, false)
    decreases MAX_NESTING - |p|, 0
  {
    match Variable(ctx.variables, NameOf(placeholder))
    case None =>
    case Some(found) =>
      if Spans(found.value) != [] && found.key !in p && |p| < MAX_NESTING && found.key !in q && |q| < MAX_NESTING {
        ExpandIsSame(ctx, found.value, found.key, p + [found.key], q + [found.key]);
      }
  }

  lemma ExpandIsSame(ctx: Context, text: string, owner: string, p: seq<string>, q: seq<string>)
    requires |p| <= MAX_NESTING && |q| <= MAX_NESTING
    requires Clear(Expand(ctx, text, owner, p, false), q) && Clear(Expand(ctx, text, owner, q, false), p)
    ensures Expand(ctx, text, owner, p, false) == Expand(ctx, text, owner, q, false)
    decreases MAX_NESTING - |p|, 1
  {
    var first, second := Ones(ctx, text, owner, p, false), Ones(ctx, text, owner, q, false);
    forall n | 0 <= n < |Spans(text)| ensures first[n] == second[n] {
      OneAt(ctx, text, owner, p, false, n);
      OneAt(ctx, text, owner, q, false, n);
      OnesAreClear(ctx, text, owner, p, q, n);
      OnesAreClear(ctx, text, owner, q, p, n);
      OneIsSame(ctx, Placeholder(text, n), Slot(owner, n), p, q);
    }
    assert first == second;
    SameBuilds(ctx, text, owner, p, q);
  }

  lemma OnesAreClear(ctx: Context, text: string, owner: string, path: seq<string>, other: seq<string>, n: nat)
    requires |path| <= MAX_NESTING && Clear(Expand(ctx, text, owner, path, false), other) && n < |Spans(text)|
    ensures ClearOne(Ones(ctx, text, owner, path, false)[n], other)
  {
    NodeOf(ctx, text, owner, path, false, Ones(ctx, text, owner, path, false)[n]);
  }

  lemma SameBuilds(ctx: Context, text: string, owner: string, p: seq<string>, q: seq<string>)
    requires |p| <= MAX_NESTING && |q| <= MAX_NESTING && Ones(ctx, text, owner, p, false) == Ones(ctx, text, owner, q, false)
    ensures Expand(ctx, text, owner, p, false) == Expand(ctx, text, owner, q, false)
  {
    ExpandIsWoven(ctx, text, owner, p, false);
    ExpandIsWoven(ctx, text, owner, q, false);
  }

  /** With other variables open, a variable unfolds to the same if and only if none of the variables it opens in one
      place is open already or too deep in the other. */
  lemma UnfoldsAlikeExactly(ctx: Context, name: string, p: seq<string>, q: seq<string>)
    requires name in ctx.variables && |p| <= MAX_NESTING && |q| <= MAX_NESTING
    ensures Unfold(ctx, name, p) == Unfold(ctx, name, q) <==> IsFree(Unfold(ctx, name, p), q) && IsFree(Unfold(ctx, name, q), p)
  {
    var text := ctx.variables[name];
    ExpandIsClear(ctx, text, name, p);
    ExpandIsClear(ctx, text, name, q);
    ClearIsFree(Unfold(ctx, name, p), p);
    ClearIsFree(Unfold(ctx, name, q), q);
    if IsFree(Unfold(ctx, name, p), q) && IsFree(Unfold(ctx, name, q), p) {
      FreeIsClear(Unfold(ctx, name, p), p, q);
      FreeIsClear(Unfold(ctx, name, q), q, p);
      ExpandIsSame(ctx, text, name, p, q);
    }
  }

  // What the value of a variable may draw and read.

  predicate IsSafePiece(piece: Piece, named: bool) {
    !piece.FromFile? && (named && piece.Drawn? ==> piece.slot.owner != "")
  }

  ghost predicate IsSafe(node: Node, named: bool) {
    match node
    case Leaf(piece, _) => IsSafePiece(piece, named)
    case Opened(_, instead, inner) => IsSafePiece(instead, named) && forall i :: 0 <= i < |inner| ==> IsSafe(inner[i], named)
  }

  ghost predicate AreSafe(nodes: seq<Node>, named: bool) {
    forall i :: 0 <= i < |nodes| ==> IsSafe(nodes[i], named)
  }

  /** With `named`, nothing is drawn for the variable with the empty name, since it is not looked at. */
  lemma ExpandIsSafe(ctx: Context, text: string, owner: string, path: seq<string>, named: bool)
    requires |path| <= MAX_NESTING && (named ==> owner != "" && "" !in AllSeen(Expand(ctx, text, owner, path, false)))
    ensures AreSafe(Expand(ctx, text, owner, path, false), named)
    decreases MAX_NESTING - |path|, 1
  {
    var nodes, ones := Expand(ctx, text, owner, path, false), Ones(ctx, text, owner, path, false);
    forall n | 0 <= n < |ones| ensures IsSafe(ones[n], named) {
      OneAt(ctx, text, owner, path, false, n);
      OneIsUnseen(ctx, text, owner, path, n);
      OneIsSafe(ctx, Placeholder(text, n), Slot(owner, n), path, named);
    }
    forall i | 0 <= i < |nodes| ensures IsSafe(nodes[i], named) {
      NodeOf(ctx, text, owner, path, false, nodes[i]);
    }
  }

  lemma OneIsUnseen(ctx: Context, text: string, owner: string, path: seq<string>, n: nat)
    requires |path| <= MAX_NESTING && n < |Spans(text)|
    ensures AllSeenOne(Ones(ctx, text, owner, path, false)[n]) <= AllSeen(Expand(ctx, text, owner, path, false))
  {
    var one := Ones(ctx, text, owner, path, false)[n];
    NodeOf(ctx, text, owner, path, false, one);
    forall key | key in AllSeenOne(one) ensures key in AllSeen(Expand(ctx, text, owner, path, false)) {
      AllSeenHas(Expand(ctx, text, owner, path, false), key);
    }
  }

  lemma OneIsSafe(ctx: Context, placeholder: string, slot: Slot, path: seq<string>, named: bool)
    requires |path| <= MAX_NESTING && |placeholder| >= 4
    requires named ==> slot.owner != "" && "" !in AllSeenOne(ExpandOne(ctx, placeholder, slot, path, false))
    ensures IsSafe(ExpandOne(ctx, placeholder, slot, path, false), named)
    decreases MAX_NESTING - |path|, 0
  {
    match Variable(ctx.variables, NameOf(placeholder))
    case None =>
    case Some(found) =>
      if Spans(found.value) != [] && found.key !in path && |path| < MAX_NESTING {
        ExpandIsSafe(ctx, found.value, found.key, path + [found.key], named);
      }
  }

  lemma {:induction false} FlatIsSafe(nodes: seq<Node>, left: nat, named: bool)
    requires AreSafe(nodes, named)
    ensures forall i :: 0 <= i < |Flat(nodes, left).pieces| ==> IsSafePiece(Flat(nodes, left).pieces[i], named)
    decreases nodes, 1
  {
    if nodes != [] {
      var init, last := nodes[..|nodes| - 1], nodes[|nodes| - 1];
      FlatIsSafe(init, left, named);
      assert IsSafe(last, named);
      FlatOneIsSafe(last, left - Flat(init, left).work, named);
    }
  }

  lemma {:induction false} FlatOneIsSafe(node: Node, left: nat, named: bool)
    requires IsSafe(node, named)
    ensures forall i :: 0 <= i < |FlatOne(node, left).pieces| ==> IsSafePiece(FlatOne(node, left).pieces[i], named)
    decreases node, 0
  {
    if node.Opened? && left > 0 {
      FlatIsSafe(node.inner, left - 1, named);
    }
  }

  // The law.

  /** What is printed for a variable below `path`, when `left` variables may be opened. */
  ghost function Own(ctx: Context, name: string, path: seq<string>, left: nat): seq<Piece>
    requires name in ctx.variables && |path| <= MAX_NESTING
  {
    Flat(Unfold(ctx, name, path), left).pieces
  }

  /** It is printed in both places in full: nothing it opens is open already or too deep, and there is work enough. */
  ghost predicate IsWhole(ctx: Context, name: string, p: seq<string>, q: seq<string>, left: nat, again: nat)
    requires name in ctx.variables && |p| <= MAX_NESTING && |q| <= MAX_NESTING
  {
    && IsFree(Unfold(ctx, name, p), q) && IsFree(Unfold(ctx, name, q), p)
    && Size(Unfold(ctx, name, p)) <= left && Size(Unfold(ctx, name, q)) <= again
  }

  lemma WholeIsSame(ctx: Context, name: string, p: seq<string>, q: seq<string>, left: nat, again: nat)
    requires name in ctx.variables && |p| <= MAX_NESTING && |q| <= MAX_NESTING && IsWhole(ctx, name, p, q, left, again)
    ensures Own(ctx, name, p, left) == Own(ctx, name, q, again)
  {
    UnfoldsAlikeExactly(ctx, name, p, q);
    FlatIsFree(Unfold(ctx, name, p), left, again);
  }

  /** A variable that is printed in full in two places gives the same text for all generators, if and only if no
      generated value lies in the value of the variable with the empty name. */
  lemma RepeatedExpansionAgrees(ctx: Context, name: string, p: seq<string>, q: seq<string>, left: nat, again: nat)
    requires name in ctx.variables && |p| <= MAX_NESTING && |q| <= MAX_NESTING && IsWhole(ctx, name, p, q, left, again)
    ensures AlwaysAgrees(ctx, Own(ctx, name, p, left), Own(ctx, name, q, again)) <==> IsOwned(Own(ctx, name, p, left))
  {
    WholeIsSame(ctx, name, p, q, left, again);
    ExpandIsSafe(ctx, ctx.variables[name], name, p, false);
    FlatIsSafe(Unfold(ctx, name, p), left, false);
    AgreesExactlyWhenOwned(ctx, Own(ctx, name, p, left));
  }

  /** So it always does for a variable with a name whose expansion does not look at the one without. */
  lemma NamedExpansionAgrees(ctx: Context, name: string, p: seq<string>, q: seq<string>, left: nat, again: nat)
    requires name in ctx.variables && |p| <= MAX_NESTING && |q| <= MAX_NESTING && IsWhole(ctx, name, p, q, left, again)
    requires name != "" && "" !in AllSeen(Unfold(ctx, name, p))
    ensures AlwaysAgrees(ctx, Own(ctx, name, p, left), Own(ctx, name, q, again))
  {
    ExpandIsSafe(ctx, ctx.variables[name], name, p, true);
    FlatIsSafe(Unfold(ctx, name, p), left, true);
    RepeatedExpansionAgrees(ctx, name, p, q, left, again);
  }

  /** In the texts of a request themselves no other variable is open, so only the work must suffice. */
  lemma AskedAgainAgrees(ctx: Context, name: string, left: nat, again: nat)
    requires name in ctx.variables && name != "" && "" !in AllSeen(Unfold(ctx, name, [name]))
    requires Size(Unfold(ctx, name, [name])) <= left && Size(Unfold(ctx, name, [name])) <= again
    ensures AlwaysAgrees(ctx, Own(ctx, name, [name], left), Own(ctx, name, [name], again))
  {
    UnfoldsAlikeExactly(ctx, name, [name], [name]);
    NamedExpansionAgrees(ctx, name, [name], [name], left, again);
  }

  /** The variable with the empty name, whose value is a placeholder that a generator answers, does not agree with itself. */
  lemma EmptyNameDrawsAgain(ctx: Context, generated: string, left: nat)
    requires ctx.variables == map["" := "{{" + generated + "}}"] && ctx.generates && ctx.answers(generated)
    requires IsVariableName(generated) && PromptName(generated).None? && ParseFileReference(generated).None?
    ensures !AlwaysAgrees(ctx, Own(ctx, "", [""], left), Own(ctx, "", [""], left))
  {
    var text := "{{" + generated + "}}";
    VariableNameExact(generated);
    assert Placeholder(text, 0) == text;
    OnePlaceholder(ctx, text, "", [""], Leaf(Drawn(Slot("", 0), generated), None));
    var nodes := Unfold(ctx, "", [""]);
    LeavesOnly(nodes, left);
    assert Own(ctx, "", [""], left)[1] == Drawn(Slot("", 0), generated);
    ExpandIsSafe(ctx, text, "", [""], false);
    FlatIsSafe(nodes, left, false);
    AgreesExactlyWhenOwned(ctx, Own(ctx, "", [""], left));
  }

  /** A value that is one placeholder from beginning to end. */
  lemma OnePlaceholder(ctx: Context, text: string, owner: string, path: seq<string>, node: Node)
    requires |path| <= MAX_NESTING && |text| >= 5 && Spans(text) == [Span(0, |text|)]
    requires ExpandOne(ctx, text, Slot(owner, 0), path, false) == node
    ensures Expand(ctx, text, owner, path, false) == [Leaf(Lit(""), None), node, Leaf(Lit(""), None)]
  {
    assert Placeholder(text, 0) == text && Gap(text, 0) == "" && Tail(text) == "";
    OneSpan(ctx, text, owner, path, false, node);
  }

  lemma LeavesOnly(nodes: seq<Node>, left: nat)
    requires |nodes| == 3 && nodes[0].Leaf? && nodes[1].Leaf? && nodes[2].Leaf?
    ensures Flat(nodes, left).pieces == [nodes[0].piece, nodes[1].piece, nodes[2].piece]
  {
    assert nodes[..2][..1] == [nodes[0]] && nodes[..2][..1][..0] == [];
    FlatSingle(nodes[0], left);
    FlatSingle(nodes[1], left);
    FlatSingle(nodes[2], left);
    assert nodes == [nodes[0]] + [nodes[1]] + [nodes[2]];
    FlatJoins([nodes[0]], [nodes[1]], left, left);
    FlatJoins([nodes[0]] + [nodes[1]], [nodes[2]], left, left);
  }
}
