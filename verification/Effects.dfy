/** What printing an unfolded text does when nothing of it is drawn, read or noted as missing. */
module Effects {
  import opened Text
  import opened Expansion
  import Placeholders

  /** What is printed for some pieces, how many variables were opened for them, and whether one could not be. */
  datatype Effect = Effect(text: string, work: nat, refused: bool) {
    function Then(next: Effect): Effect {
      Effect(text + next.text, work + next.work, refused || next.refused)
    }
  }

  /** The pieces print that text whatever was printed before, and nothing is remembered. */
  ghost predicate HasEffect(ctx: Context, trace: Trace, effect: Effect) {
    && trace.work == effect.work && trace.refused == effect.refused
    && forall memo :: Render(ctx, memo, trace.pieces) == Printed(effect.text, memo)
  }

  ghost function Having(ctx: Context, effect: Effect): iset<Trace> {
    iset trace: Trace | HasEffect(ctx, trace, effect)
  }

  /** With that much work left, the nodes have that effect. */
  ghost predicate Gives(ctx: Context, nodes: seq<Node>, left: nat, effect: Effect) {
    Flat(nodes, left) in Having(ctx, effect)
  }

  lemma EffectsJoin(ctx: Context, a: Trace, b: Trace, e: Effect, f: Effect)
    requires a in Having(ctx, e) && b in Having(ctx, f)
    ensures a.Then(b) in Having(ctx, e.Then(f))
  {
    forall memo ensures Render(ctx, memo, a.Then(b).pieces) == Printed(e.Then(f).text, memo) {
      RenderAppend(ctx, memo, a.pieces, b.pieces);
    }
  }

  lemma PieceHas(ctx: Context, piece: Piece, text: string, trace: Trace)
    requires trace.pieces == [piece] && forall memo :: PrintPiece(ctx, memo, piece) == Printed(text, memo)
    ensures trace in Having(ctx, Effect(text, trace.work, trace.refused))
  {
    forall memo ensures Render(ctx, memo, [piece]) == Printed(text, memo) {
      RenderSingle(ctx, memo, piece);
    }
  }

  lemma LeafGives(ctx: Context, text: string, looked: Option<string>, left: nat)
    ensures Gives(ctx, [Leaf(Lit(text), looked)], left, Effect(text, 0, false))
  {
    FlatSingle(Leaf(Lit(text), looked), left);
    PieceHas(ctx, Lit(text), text, Alone(Lit(text), Looked(looked)));
  }

  lemma JoinGives(ctx: Context, a: seq<Node>, b: seq<Node>, left: nat, e: Effect, f: Effect)
    requires e.work <= left && Gives(ctx, a, left, e) && Gives(ctx, b, left - e.work, f)
    ensures Gives(ctx, a + b, left, e.Then(f))
  {
    FlatJoins(a, b, left, left - e.work);
    EffectsJoin(ctx, Flat(a, left), Flat(b, left - e.work), e, f);
  }

  ghost predicate IsBlank(ctx: Context, nodes: seq<Node>) {
    forall left: nat :: Gives(ctx, nodes, left, Effect("", 0, false))
  }

  lemma LiteralIsBlank(ctx: Context)
    ensures IsBlank(ctx, Literal("")) && IsBlank(ctx, [])
  {
    forall left: nat ensures Gives(ctx, Literal(""), left, Effect("", 0, false)) {
      LeafGives(ctx, "", None, left);
    }
  }

  /** What prints nothing can be left out before or after. */
  lemma JoinBlank(ctx: Context, blank: seq<Node>, nodes: seq<Node>, left: nat, effect: Effect)
    requires effect.work <= left && Gives(ctx, nodes, left, effect) && IsBlank(ctx, blank)
    ensures Gives(ctx, blank + nodes, left, effect) && Gives(ctx, nodes + blank, left, effect)
  {
    var none := Effect("", 0, false);
    assert none.Then(effect) == effect && effect.Then(none) == effect;
    assert Gives(ctx, blank, left, none) && Gives(ctx, blank, left - effect.work, none);
    JoinGives(ctx, blank, nodes, left, none, effect);
    JoinGives(ctx, nodes, blank, left, effect, none);
  }

  lemma LeftGives(ctx: Context, placeholder: string, looked: Option<string>, left: nat)
    requires |placeholder| >= 4 && !IsUndefined(ctx, Placeholders.NameOf(placeholder))
    ensures Gives(ctx, [Leaf(Kept(placeholder), looked)], left, Effect(placeholder, 0, false))
  {
    FlatSingle(Leaf(Kept(placeholder), looked), left);
    PieceHas(ctx, Kept(placeholder), placeholder, Alone(Kept(placeholder), Looked(looked)));
  }

  lemma OpenedGives(ctx: Context, node: Node, left: nat, effect: Effect)
    requires node.Opened? && left > 0 && Gives(ctx, node.inner, left - 1, effect)
    ensures Gives(ctx, [node], left, effect.(work := effect.work + 1))
  {
    FlatSingle(node, left);
    var begun := Begun(node.key);
    assert begun in Having(ctx, Effect("", 1, false));
    EffectsJoin(ctx, begun, Flat(node.inner, left - 1), Effect("", 1, false), effect);
    assert Effect("", 1, false).Then(effect) == effect.(work := effect.work + 1);
  }

  lemma BlanksAround(ctx: Context, blank: seq<Node>, nothing: seq<Node>, nodes: seq<Node>, left: nat, effect: Effect)
    requires IsBlank(ctx, blank) && IsBlank(ctx, nothing)
    requires Gives(ctx, nodes, left, effect) && effect.work == 0
    ensures Gives(ctx, nothing + (blank + nodes) + blank, left, effect)
  {
    JoinBlank(ctx, blank, nodes, left, effect);
    JoinBlank(ctx, nothing, blank + nodes, left, effect);
    JoinBlank(ctx, blank, nothing + (blank + nodes), left, effect);
  }
}
