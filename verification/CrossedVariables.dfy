/** Two variables that ask for each other: a variable whose value asks for one that is open already gives another text
than it gives alone. */
module CrossedVariables {
  import opened Text
  import opened Placeholders
  import opened Expansion
  import opened Effects
  import opened Lookups
  import opened Repeats

  /** `{"a": "{{b}}x", "b": "{{a}}y"}`, without generators. */
  ghost predicate IsCrossed(ctx: Context) {
    ctx.variables == map["a" := "{{b}}x", "b" := "{{a}}y"] && !ctx.generates
  }

  predicate IsOneOf(key: string) {
    key == "a" || key == "b"
  }

  function Other(key: string): string {
    if key == "a" then "b" else "a"
  }

  function Mark(key: string): string {
    if key == "a" then "x" else "y"
  }

  function Asking(key: string): (s: string)
    ensures |s| == |key| + 4
  {
    "{{" + key + "}}"
  }

  lemma NameIsRead(key: string)
    requires IsOneOf(key)
    ensures NameOf(Asking(key)) == key
  {
    VariableNameExact(key);
  }

  lemma FirstSpan(key: string, rest: string)
    requires IsOneOf(key) && '{' !in rest
    ensures Spans(Asking(key) + rest) == [Span(0, 5)]
  {
    var text := Asking(key) + rest;
    assert text[0] == '{' && text[1] == '{' && text[2] == key[0] && text[3] == '}' && text[4] == '}';
    assert IsMatch(text, 0, 5);
    MatchEndUnique(text, 0, MatchEnd(text, 0).value, 5);
    assert forall i :: 5 <= i < |text| ==> text[i] == rest[i - 5];
    forall i: nat | MatchEnd(text, i).Some? ensures Covers([Span(0, 5)], i) {
      assert text[i] == '{';
      assert [Span(0, 5)][0].start <= i < [Span(0, 5)][0].end;
    }
    LeftmostMatchesAreUnique(text, 0, [Span(0, 5)]);
  }

  lemma CrossedValue(ctx: Context, key: string)
    requires IsCrossed(ctx) && IsOneOf(key)
    ensures key in ctx.variables && ctx.variables[key] == Asking(Other(key)) + Mark(key) && Spans(ctx.variables[key]) == [Span(0, 5)]
  {
    FirstSpan(Other(key), Mark(key));
  }

  lemma StaysAsWritten(ctx: Context, key: string, slot: Slot, readsFiles: bool)
    requires IsCrossed(ctx) && IsOneOf(key) && NameOf(Asking(key)) == key
    ensures Unresolved(ctx, Asking(key), slot, readsFiles) == Kept(Asking(key))
  {
  }

  lemma OneIs(ctx: Context, placeholder: string, key: string, slot: Slot, path: seq<string>, readsFiles: bool)
    requires |placeholder| >= 4 && NameOf(placeholder) == key && key in ctx.variables && Spans(ctx.variables[key]) != [] && |path| < MAX_NESTING
    ensures var unresolved := Unresolved(ctx, placeholder, slot, readsFiles);
            ExpandOne(ctx, placeholder, slot, path, readsFiles) ==
            if key in path then Leaf(unresolved, Some(key)) else Opened(key, unresolved, Unfold(ctx, key, path + [key]))
  {
  }

  lemma CrossedOne(ctx: Context, key: string, slot: Slot, path: seq<string>, readsFiles: bool)
    requires IsCrossed(ctx) && IsOneOf(key) && |path| < MAX_NESTING
    ensures key in ctx.variables
    ensures ExpandOne(ctx, Asking(key), slot, path, readsFiles) ==
            if key in path then Leaf(Kept(Asking(key)), Some(key)) else Opened(key, Kept(Asking(key)), Unfold(ctx, key, path + [key]))
  {
    CrossedValue(ctx, key);
    NameIsRead(key);
    StaysAsWritten(ctx, key, slot, readsFiles);
    OneIs(ctx, Asking(key), key, slot, path, readsFiles);
  }

  lemma CrossedUnfolds(ctx: Context, key: string, path: seq<string>)
    requires IsCrossed(ctx) && IsOneOf(key) && |path| < MAX_NESTING
    ensures key in ctx.variables
    ensures Unfold(ctx, key, path)
         == [Leaf(Lit(""), None), ExpandOne(ctx, Asking(Other(key)), Slot(key, 0), path, false), Leaf(Lit(Mark(key)), None)]
  {
    CrossedValue(ctx, key);
    var text := ctx.variables[key];
    assert Placeholder(text, 0) == Asking(Other(key)) && Gap(text, 0) == "" && Tail(text) == Mark(key);
    OneSpan(ctx, text, key, path, false, ExpandOne(ctx, Asking(Other(key)), Slot(key, 0), path, false));
  }

  lemma BesideGives(ctx: Context, first: seq<Node>, nodes: seq<Node>, last: seq<Node>, left: nat, effect: Effect, tail: string)
    requires effect.work <= left && IsBlank(ctx, first) && Gives(ctx, nodes, left, effect)
    requires Gives(ctx, last, left - effect.work, Effect(tail, 0, false))
    ensures Gives(ctx, first + nodes + last, left, effect.(text := effect.text + tail))
  {
    JoinBlank(ctx, first, nodes, left, effect);
    JoinGives(ctx, first + nodes, last, left, effect, Effect(tail, 0, false));
    assert effect.Then(Effect(tail, 0, false)) == effect.(text := effect.text + tail);
  }

  lemma AroundGives(ctx: Context, node: Node, tail: string, left: nat, effect: Effect)
    requires effect.work <= left && Gives(ctx, [node], left, effect)
    ensures Gives(ctx, [Leaf(Lit(""), None), node, Leaf(Lit(tail), None)], left, effect.(text := effect.text + tail))
  {
    LiteralIsBlank(ctx);
    LeafGives(ctx, tail, None, left - effect.work);
    BesideGives(ctx, Literal(""), [node], [Leaf(Lit(tail), None)], left, effect, tail);
    assert Literal("") + [node] + [Leaf(Lit(tail), None)] == [Leaf(Lit(""), None), node, Leaf(Lit(tail), None)];
  }

  /** With the other one open, a variable leaves the placeholder in its value. */
  lemma InsideOther(ctx: Context, key: string, left: nat)
    requires IsCrossed(ctx) && IsOneOf(key)
    ensures key in ctx.variables
    ensures Gives(ctx, Unfold(ctx, key, [Other(key), key]), left, Effect(Asking(Other(key)) + Mark(key), 0, false))
  {
    var path := [Other(key), key];
    assert path[0] == Other(key) && Other(key) in path;
    CrossedUnfolds(ctx, key, path);
    CrossedOne(ctx, Other(key), Slot(key, 0), path, false);
    NameIsRead(Other(key));
    LeftGives(ctx, Asking(Other(key)), Some(Other(key)), left);
    AroundGives(ctx, Leaf(Kept(Asking(Other(key))), Some(Other(key))), Mark(key), left, Effect(Asking(Other(key)), 0, false));
  }

  /** On its own, it opens the other one. */
  lemma OnItsOwn(ctx: Context, key: string, left: nat)
    requires IsCrossed(ctx) && IsOneOf(key) && left > 0
    ensures key in ctx.variables
    ensures Gives(ctx, Unfold(ctx, key, [key]), left, Effect(Asking(key) + Mark(Other(key)) + Mark(key), 1, false))
  {
    var other := Other(key);
    assert Other(other) == key && [key] + [other] == [Other(other), other];
    CrossedUnfolds(ctx, key, [key]);
    CrossedOne(ctx, other, Slot(key, 0), [key], false);
    InsideOther(ctx, other, left - 1);
    var node := Opened(other, Kept(Asking(other)), Unfold(ctx, other, [Other(other), other]));
    OpenedGives(ctx, node, left, Effect(Asking(key) + Mark(other), 0, false));
    AroundGives(ctx, node, Mark(key), left, Effect(Asking(key) + Mark(other), 1, false));
  }

  lemma SpansOfBoth(text: string, a: string, b: string)
    requires text == Asking(a) + " " + Asking(b) && IsOneOf(a) && IsOneOf(b)
    ensures Spans(text) == [Span(0, 5), Span(6, 11)]
  {
    var spans := [Span(0, 5), Span(6, 11)];
    assert |text| == 11 && text[..5] == Asking(a) && text[6..] == Asking(b) && text[5] == ' ';
    SliceMatches(text, 0, Asking(a));
    SliceMatches(text, 6, Asking(b));
    forall i: nat | MatchEnd(text, i).Some? ensures Covers(spans, i) {
      assert text[i] == '{';
      assert spans[if i < 5 then 0 else 1].start <= i < spans[if i < 5 then 0 else 1].end;
    }
    LeftmostMatchesAreUnique(text, 0, spans);
  }

  /** One placeholder, a blank, and the other placeholder. */
  ghost function TextsOf(a: string, b: string): iset<string> {
    iset text: string |
      && |Spans(text)| == 2 && Placeholder(text, 0) == Asking(a) && Placeholder(text, 1) == Asking(b)
      && Gap(text, 0) == "" && Gap(text, 1) == " " && Tail(text) == ""
  }

  lemma PartsOfBoth(text: string, a: string, b: string)
    requires text == Asking(a) + " " + Asking(b) && IsOneOf(a) && IsOneOf(b)
    ensures text in TextsOf(a, b)
  {
    SpansOfBoth(text, a, b);
    assert text[0..5] == Asking(a) && text[6..11] == Asking(b) && text[0..0] == "" && text[5..6] == " " && text[11..] == "";
  }

  lemma BothTexts()
    ensures Asking("a") + Mark(Other("a")) + Mark("a") + " " + (Asking("b") + Mark(Other("b")) + Mark("b")) == "{{a}}yx {{b}}xy"
  {
  }

  lemma TwoUnfold(ctx: Context, text: string, a: Node, b: Node)
    requires |Spans(text)| == 2 && Gap(text, 0) == "" && Gap(text, 1) == " " && Tail(text) == ""
    requires a == ExpandOne(ctx, Placeholder(text, 0), Slot("", 0), [], true) && b == ExpandOne(ctx, Placeholder(text, 1), Slot("", 1), [], true)
    ensures Expand(ctx, text, "", [], true) == [Leaf(Lit(""), None), a, Leaf(Lit(" "), None)] + [b] + Literal("")
  {
    TwoSpans(ctx, text, "", [], true, a, b);
  }

  lemma TwoGive(ctx: Context, a: Node, b: Node, left: nat, x: Effect, y: Effect)
    requires x.work + y.work <= left && Gives(ctx, [a], left, x) && Gives(ctx, [b], left - x.work, y)
    ensures Gives(ctx, [Leaf(Lit(""), None), a, Leaf(Lit(" "), None)] + [b] + Literal(""), left, x.(text := x.text + " ").Then(y))
  {
    var first := [Leaf(Lit(""), None), a, Leaf(Lit(" "), None)];
    AroundGives(ctx, a, " ", left, x);
    JoinGives(ctx, first, [b], left, x.(text := x.text + " "), y);
    LiteralIsBlank(ctx);
    JoinBlank(ctx, Literal(""), first + [b], left, x.(text := x.text + " ").Then(y));
  }

  function OpenedOwn(ctx: Context, key: string): Node
    requires key in ctx.variables
  {
    Opened(key, Kept(Asking(key)), Expand(ctx, ctx.variables[key], key, [key], false))
  }

  lemma OwnGives(ctx: Context, key: string, left: nat)
    requires IsCrossed(ctx) && IsOneOf(key) && left > 1
    ensures key in ctx.variables
    ensures Gives(ctx, [OpenedOwn(ctx, key)], left, Effect(Asking(key) + Mark(Other(key)) + Mark(key), 2, false))
  {
    OnItsOwn(ctx, key, left - 1);
    OpenedGives(ctx, OpenedOwn(ctx, key), left, Effect(Asking(key) + Mark(Other(key)) + Mark(key), 1, false));
  }

  lemma OneIsOwn(ctx: Context, key: string, slot: Slot)
    requires IsCrossed(ctx) && IsOneOf(key)
    ensures key in ctx.variables && ExpandOne(ctx, Asking(key), slot, [], true) == OpenedOwn(ctx, key)
  {
    assert [] + [key] == [key];
    CrossedOne(ctx, key, slot, [], true);
  }

  lemma TwoKeysGive(ctx: Context, text: string, a: string, b: string, left: nat, whole: string)
    requires IsCrossed(ctx) && IsOneOf(a) && IsOneOf(b) && left >= 4
    requires text in TextsOf(a, b)
    requires whole == Asking(a) + Mark(Other(a)) + Mark(a) + " " + (Asking(b) + Mark(Other(b)) + Mark(b))
    ensures Gives(ctx, Expand(ctx, text, "", [], true), left, Effect(whole, 4, false))
  {
    OneIsOwn(ctx, a, Slot("", 0));
    OneIsOwn(ctx, b, Slot("", 1));
    TwoUnfold(ctx, text, OpenedOwn(ctx, a), OpenedOwn(ctx, b));
    OwnGives(ctx, a, left);
    OwnGives(ctx, b, left - 2);
    TwoGive(ctx, OpenedOwn(ctx, a), OpenedOwn(ctx, b), left,
            Effect(Asking(a) + Mark(Other(a)) + Mark(a), 2, false), Effect(Asking(b) + Mark(Other(b)) + Mark(b), 2, false));
  }

  /** So `{{a}} {{b}}` becomes `{{a}}yx {{b}}xy`: what `b` gives inside `a`, and `a` inside `b`, is not what they give alone. */
  lemma BothGive(ctx: Context, text: string, left: nat)
    requires IsCrossed(ctx) && text == "{{a}} {{b}}" && left >= 4
    ensures Gives(ctx, Expand(ctx, text, "", [], true), left, Effect("{{a}}yx {{b}}xy", 4, false))
  {
    assert text == Asking("a") + " " + Asking("b");
    PartsOfBoth(text, "a", "b");
    BothTexts();
    TwoKeysGive(ctx, text, "a", "b", left, "{{a}}yx {{b}}xy");
  }

  lemma TextsDiffer(ctx: Context, pieces: seq<Piece>, again: seq<Piece>, x: string, y: string)
    requires Render(ctx, EMPTY, pieces) == Printed(x, EMPTY) && Render(ctx, EMPTY, again) == Printed(y, EMPTY) && |x| != |y|
    ensures !AlwaysAgrees(ctx, pieces, again)
  {
    assert ctx.(draw := ctx.draw) == ctx;
    assert !Agrees(ctx.(draw := ctx.draw), EMPTY, pieces, again, []);
  }

  /** The variable with the other one open and alone: two texts, though nothing is generated at all. */
  lemma OpenElsewhereDiffers(ctx: Context, key: string, left: nat, again: nat)
    requires IsCrossed(ctx) && IsOneOf(key) && again > 0
    ensures key in ctx.variables
    ensures !AlwaysAgrees(ctx, Own(ctx, key, [Other(key), key], left), Own(ctx, key, [key], again))
    ensures !IsFree(Unfold(ctx, key, [key]), [Other(key), key])
  {
    InsideOther(ctx, key, left);
    OnItsOwn(ctx, key, again);
    TextsDiffer(ctx, Own(ctx, key, [Other(key), key], left), Own(ctx, key, [key], again),
                Asking(Other(key)) + Mark(key), Asking(key) + Mark(Other(key)) + Mark(key));
    OpensOther(ctx, key);
    assert [Other(key), key][0] == Other(key);
  }

  lemma OpensOther(ctx: Context, key: string)
    requires IsCrossed(ctx) && IsOneOf(key)
    ensures key in ctx.variables && Opens(Unfold(ctx, key, [key]), Other(key))
  {
    CrossedUnfolds(ctx, key, [key]);
    CrossedOne(ctx, Other(key), Slot(key, 0), [key], false);
    assert OpensOne(Unfold(ctx, key, [key])[1], Other(key));
  }
}
