/** The limit on the variables that one call may open is silent: what `spend` of `engine/pairs.go` refuses because of
it is left as it is written, and no failure is reported. */
module OpeningCap {
  import opened Text
  import opened Placeholders
  import opened Expansion
  import opened Effects
  import opened SubstitutionEngine
  import opened ExpansionRuns

  /** `a` asks for `b`, so each `a` is opened; `b` is plain. */
  const VALUES := map["a" := "{{b}}", "b" := "x"]

  /** `{{a}}` that many times. */
  function Asks(n: nat): (s: string)
    ensures |s| == 5 * n
  {
    seq(5 * n, i requires 0 <= i => "{{a}}"[i % 5])
  }

  function Answers(n: nat): (s: string)
    ensures |s| == n
  {
    seq(n, _ => 'x')
  }

  function AskSpans(n: nat): seq<Span> {
    seq(n, i requires 0 <= i => Span(5 * i, 5 * i + 5))
  }

  lemma AskAt(n: nat, k: nat)
    requires k < n
    ensures Asks(n)[5 * k..5 * k + 5] == "{{a}}"
  {
    var s := Asks(n)[5 * k..5 * k + 5];
    forall j: nat | j < 5 ensures s[j] == "{{a}}"[j] {
      CharAt(n, k, j);
    }
  }

  lemma CharAt(n: nat, k: nat, j: nat)
    requires k < n && j < 5
    ensures Asks(n)[5 * k + j] == "{{a}}"[j]
  {
    assert (5 * k + j) % 5 == j;
  }

  lemma LetterMatches(placeholder: string, name: string)
    requires |name| == 1 && name[0] != '}' && placeholder == "{{" + name + "}}"
    ensures |placeholder| == 5 && IsMatch(placeholder, 0, 5)
  {
  }

  lemma AskMatches(n: nat, k: nat)
    requires k < n
    ensures MatchEnd(Asks(n), 5 * k) == Some(5 * k + 5)
  {
    AskAt(n, k);
    LetterMatches("{{a}}", "a");
    SliceMatches(Asks(n), 5 * k, "{{a}}");
  }

  lemma AsksAreCovered(n: nat, a: nat)
    requires MatchEnd(Asks(n), a).Some?
    ensures Covers(AskSpans(n), a)
  {
    assert a < 5 * n;
    assert AskSpans(n)[a / 5] == Span(5 * (a / 5), 5 * (a / 5) + 5);
  }

  lemma SpansOfAsks(n: nat)
    ensures Spans(Asks(n)) == AskSpans(n)
  {
    forall k | 0 <= k < n ensures MatchEnd(Asks(n), AskSpans(n)[k].start) == Some(AskSpans(n)[k].end) {
      AskMatches(n, k);
    }
    forall a: nat | MatchEnd(Asks(n), a).Some? ensures Covers(AskSpans(n), a) {
      AsksAreCovered(n, a);
    }
    LeftmostMatchesAreUnique(Asks(n), 0, AskSpans(n));
  }

  // One placeholder.

  function AskEffect(left: nat): Effect {
    if left > 0 then Effect("x", 1, false) else Effect("{{a}}", 0, true)
  }

  /** A placeholder that is opened, if there is work left, and then gives `x`. */
  ghost predicate IsAsk(ctx: Context, node: Node) {
    && node.Opened? && node.instead == Kept("{{a}}") && IsUndefined(ctx, "a") == false && NameOf("{{a}}") == "a"
    && forall left: nat :: Gives(ctx, node.inner, left, Effect("x", 0, false))
  }

  lemma AskGives(ctx: Context, node: Node, left: nat)
    requires IsAsk(ctx, node)
    ensures Gives(ctx, [node], left, AskEffect(left))
  {
    if left > 0 {
      assert Gives(ctx, node.inner, left - 1, Effect("x", 0, false));
      OpenedGives(ctx, node, left, Effect("x", 0, false));
    } else {
      FlatSingle(node, left);
      PieceHas(ctx, Kept("{{a}}"), "{{a}}", FlatOne(node, 0));
    }
  }

  // The whole text.

  function Least(n: nat, left: nat): nat {
    if n < left then n else left
  }

  /** The first `left` are opened, the others are left as they are written. */
  function Opening(n: nat, left: nat): string {
    Answers(Least(n, left)) + Asks(n - Least(n, left))
  }

  function OpeningEffect(n: nat, left: nat): Effect {
    Effect(Opening(n, left), Least(n, left), n > left)
  }

  lemma OpeningGrows(n: nat, left: nat)
    ensures OpeningEffect(n, left).Then(AskEffect(left - Least(n, left))) == OpeningEffect(n + 1, left)
  {
    if n < left {
      assert Answers(n) + "x" == Answers(n + 1) && Asks(0) == "";
    } else {
      AsksGrow(n - left);
      assert Answers(left) + Asks(n - left) + "{{a}}" == Answers(left) + (Asks(n - left) + "{{a}}");
    }
  }

  lemma AsksGrow(n: nat)
    ensures Asks(n) + "{{a}}" == Asks(n + 1)
  {
    AskAt(n + 1, n);
    assert Asks(n + 1)[..5 * n] == Asks(n) && Asks(n + 1)[5 * n..] == "{{a}}";
  }

  /** What opens one variable, if there is work left, and is written out otherwise. */
  ghost predicate IsRound(ctx: Context, round: seq<Node>) {
    forall left: nat :: Gives(ctx, round, left, AskEffect(left))
  }

  ghost function Rounds(ctx: Context): iset<seq<Node>> {
    iset round: seq<Node> | IsRound(ctx, round)
  }

  lemma RoundGives(ctx: Context, blank: seq<Node>, node: Node)
    requires IsAsk(ctx, node) && IsBlank(ctx, blank)
    ensures blank + [node] in Rounds(ctx)
  {
    forall left: nat ensures Gives(ctx, blank + [node], left, AskEffect(left)) {
      AskGives(ctx, node, left);
      JoinBlank(ctx, blank, [node], left, AskEffect(left));
    }
  }

  function Copies(round: seq<Node>, n: nat): seq<Node> {
    if n == 0 then [] else Copies(round, n - 1) + round
  }

  lemma NextGives(ctx: Context, first: seq<Node>, round: seq<Node>, n: nat, left: nat)
    requires round in Rounds(ctx) && Gives(ctx, first, left, OpeningEffect(n, left))
    ensures Gives(ctx, first + round, left, OpeningEffect(n + 1, left))
  {
    var rest := left - Least(n, left);
    assert IsRound(ctx, round);
    JoinGives(ctx, first, round, left, OpeningEffect(n, left), AskEffect(rest));
    OpeningGrows(n, left);
  }

  lemma {:induction false} CopiesGive(ctx: Context, round: seq<Node>, n: nat, left: nat)
    requires round in Rounds(ctx)
    ensures Gives(ctx, Copies(round, n), left, OpeningEffect(n, left))
  {
    if n == 0 {
      assert Opening(0, left) == "";
    } else {
      CopiesGive(ctx, round, n - 1, left);
      NextGives(ctx, Copies(round, n - 1), round, n - 1, left);
    }
  }

  lemma AllGive(ctx: Context, blank: seq<Node>, round: seq<Node>, n: nat, left: nat)
    requires round in Rounds(ctx) && IsBlank(ctx, blank)
    ensures Gives(ctx, Copies(round, n) + blank, left, OpeningEffect(n, left))
  {
    CopiesGive(ctx, round, n, left);
    JoinBlank(ctx, blank, Copies(round, n), left, OpeningEffect(n, left));
  }

  /** A text that is one placeholder and nothing else, again and again. */
  lemma {:induction false} FirstIsCopies(ctx: Context, text: string, round: seq<Node>, n: nat)
    requires n <= |Spans(text)| && forall k :: 0 <= k < |Spans(text)| ==> Round(ctx, text, "", [], true, k) == round
    ensures ExpandFirst(ctx, text, "", [], true, n) == Copies(round, n)
  {
    if n > 0 {
      FirstIsCopies(ctx, text, round, n - 1);
      assert Round(ctx, text, "", [], true, n - 1) == round;
    }
  }

  // The variables at hand.

  lemma LetterIsRead(placeholder: string, name: string)
    requires |name| == 1 && 'a' <= name[0] <= 'z' && placeholder == "{{" + name + "}}"
    ensures Spans(placeholder) == [Span(0, 5)] && NameOf(placeholder) == name
  {
    VariableNameExact(name);
  }

  lemma Names()
    ensures Spans("{{b}}") == [Span(0, 5)] && NameOf("{{b}}") == "b" && NameOf("{{a}}") == "a"
  {
    LetterIsRead("{{a}}", "a");
    LetterIsRead("{{b}}", "b");
  }

  /** What the value of `a` unfolds to. */
  function Inside(): seq<Node> {
    Expand(Quiet(VALUES), "{{b}}", "a", ["a"], false)
  }

  lemma InsideIs()
    ensures Inside() == [] + (Literal("") + [Leaf(Lit("x"), Some("b"))]) + Literal("")
  {
    Names();
    assert Placeholder("{{b}}", 0) == "{{b}}" && Gap("{{b}}", 0) == "" && Tail("{{b}}") == "";
    assert Spans("x") == [];
    assert ExpandOne(Quiet(VALUES), "{{b}}", Slot("a", 0), ["a"], false) == Leaf(Lit("x"), Some("b"));
    assert ExpandFirst(Quiet(VALUES), "{{b}}", "a", ["a"], false, 0) == [];
  }

  lemma InsideGives(ctx: Context, left: nat)
    ensures Gives(ctx, [] + (Literal("") + [Leaf(Lit("x"), Some("b"))]) + Literal(""), left, Effect("x", 0, false))
  {
    LeafGives(ctx, "x", Some("b"), left);
    LiteralIsBlank(ctx);
    BlanksAround(ctx, Literal(""), [], [Leaf(Lit("x"), Some("b"))], left, Effect("x", 0, false));
  }

  function AskNode(): Node {
    Opened("a", Kept("{{a}}"), Inside())
  }

  lemma AskIsOpened(slot: Slot)
    ensures ExpandOne(Quiet(VALUES), "{{a}}", slot, [], true) == AskNode()
  {
    Names();
    assert [] + ["a"] == ["a"];
  }

  lemma IsAskNode()
    ensures IsAsk(Quiet(VALUES), AskNode())
  {
    Names();
    InsideIs();
    forall left: nat ensures Gives(Quiet(VALUES), Inside(), left, Effect("x", 0, false)) {
      InsideGives(Quiet(VALUES), left);
    }
  }

  lemma RoundOfAsk(n: nat, k: nat)
    requires k < n && Spans(Asks(n)) == AskSpans(n)
    ensures Round(Quiet(VALUES), Asks(n), "", [], true, k) == Literal("") + [AskNode()]
  {
    AskAt(n, k);
    assert Placeholder(Asks(n), k) == "{{a}}" && Gap(Asks(n), k) == "";
    AskIsOpened(Slot("", k));
  }

  lemma MeaningOfAsks(n: nat)
    ensures Meaning(Quiet(VALUES), Asks(n)) == Copies(Literal("") + [AskNode()], n) + Literal("")
  {
    SpansOfAsks(n);
    assert Tail(Asks(n)) == "";
    forall k | 0 <= k < n ensures Round(Quiet(VALUES), Asks(n), "", [], true, k) == Literal("") + [AskNode()] {
      RoundOfAsk(n, k);
    }
    FirstIsCopies(Quiet(VALUES), Asks(n), Literal("") + [AskNode()], n);
  }

  lemma AsksGive(n: nat, left: nat)
    ensures Gives(Quiet(VALUES), Meaning(Quiet(VALUES), Asks(n)), left, OpeningEffect(n, left))
  {
    MeaningOfAsks(n);
    IsAskNode();
    LiteralIsBlank(Quiet(VALUES));
    RoundGives(Quiet(VALUES), Literal(""), AskNode());
    AllGive(Quiet(VALUES), Literal(""), Literal("") + [AskNode()], n, left);
  }

  /** However often `{{a}}` is asked for in one text, only the first 10000 are opened, and there is no failure unless
      the result is too long. */
  lemma CapIsSilent(n: nat)
    ensures var meant := Meanings(Quiet(VALUES), Fresh(), [Asks(n)]);
            && (meant.Some? <==> |Opening(n, MAX_EXPANSIONS)| <= MAX_ENCODED_BODY)
            && (meant.Some? ==> meant.value.0 == [Opening(n, MAX_EXPANSIONS)])
  {
    AsksGive(n, MAX_EXPANSIONS);
    assert [Asks(n)][..0] == [];
    var one := OneMeaning(Quiet(VALUES), Fresh(), Asks(n));
    assert one.Some? <==> |Opening(n, MAX_EXPANSIONS)| <= MAX_ENCODED_BODY;
    assert one.Some? ==> one.value.0 == Opening(n, MAX_EXPANSIONS);
  }

  /** So the last of 10001 is handed out as it was written. */
  lemma LastIsLeft()
    ensures var meant := Meanings(Quiet(VALUES), Fresh(), [Asks(10001)]);
            meant.Some? && meant.value.0 == [Answers(10000) + "{{a}}"]
  {
    CapIsSilent(10001);
    AskAt(1, 0);
    assert Asks(1) == "{{a}}";
  }
}
