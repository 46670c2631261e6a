/** Whole runs of the substitution engine: `ExpandTexts` and `FillVariables` of `engine/expand.go`. */
module ExpansionRuns {
  import opened Text
  import opened Placeholders
  import opened Expansion
  import opened SubstitutionEngine

  function Length(texts: seq<string>): nat {
    if texts == [] then 0 else Length(texts[..|texts| - 1]) + |texts[|texts| - 1]|
  }

  /** The meanings of several texts in a row, while each of them fits. */
  ghost function Meanings(ctx: Context, before: View, texts: seq<string>): Option<(seq<string>, View)> {
    if texts == [] then Some(([], before))
    else Extended(ctx, Meanings(ctx, before, texts[..|texts| - 1]), texts[|texts| - 1])
  }

  ghost function Extended(ctx: Context, meant: Option<(seq<string>, View)>, input: string): Option<(seq<string>, View)> {
    match meant
    case None => None
    case Some(so) =>
      match OneMeaning(ctx, so.1, input)
      case None => None
      case Some(one) => Some((so.0 + [one.0], one.1))
  }

  /** The meaning of one text that fits, and what it leaves of the limits. */
  ghost function OneMeaning(ctx: Context, before: View, input: string): Option<(string, View)> {
    var trace := Unfolding(ctx, before, input);
    var printed := Render(ctx, before.memo, trace.pieces);
    if !Fits(ctx, before, input) then None
    else Some((printed.text, before.(memo := printed.memo, total := before.total + trace.work, seen := before.seen + trace.seen,
                                     budget := before.budget - |printed.text|)))
  }

  /** The states agree on everything that decides what later texts mean. */
  ghost predicate Agrees(view: View, state: View) {
    && view.memo == state.memo && view.total == state.total && view.budget == state.budget && view.seen == state.seen
    && state.Clean() && view.Clean()
  }

  /** The results and the states after texts that all fit, or a failure. */
  ghost function Follows(meant: Option<(seq<string>, View)>): iset<(seq<string>, View)> {
    iset run: (seq<string>, View) |
      match meant
      case None => !run.1.Clean()
      case Some(so) => run.0 == so.0 && Agrees(so.1, run.1)
  }

  /** What applying a text gives: its meaning if it fits, and a failure otherwise. */
  ghost function Applied(ctx: Context, before: View, input: string): iset<(View, string)> {
    var trace := Unfolding(ctx, before, input);
    iset done: (View, string) |
      && done.0.filling == []
      && (!done.0.exceeded ==> !before.exceeded && done.0.produced == before.produced + |done.1|)
      && (done.0.Clean() <==> Fits(ctx, before, input))
      && (done.0.Clean() ==>
            && Printed(done.1, done.0.memo) == Render(ctx, before.memo, trace.pieces) && done.0.budget == before.budget - |done.1|
            && done.0.total == before.total + trace.work && done.0.seen == before.seen + trace.seen)
  }

  lemma SameMeaning(ctx: Context, view: View, state: View, input: string)
    requires Agrees(view, state)
    ensures Unfolding(ctx, view, input) == Unfolding(ctx, state, input)
    ensures Fits(ctx, view, input) <==> Fits(ctx, state, input)
  {
  }

  lemma OneFollows(ctx: Context, view: View, before: View, after: View, input: string, result: string)
    requires Agrees(view, before) && (after, result) in Applied(ctx, before, input)
    ensures match OneMeaning(ctx, view, input)
            case None => !after.Clean()
            case Some(one) => one.0 == result && Agrees(one.1, after)
  {
    SameMeaning(ctx, view, before, input);
  }

  lemma NextFollows(ctx: Context, meant: Option<(seq<string>, View)>, input: string,
                    results: seq<string>, before: View, after: View, result: string)
    requires (results, before) in Follows(meant) && (after, result) in Applied(ctx, before, input)
    ensures (results + [result], after) in Follows(Extended(ctx, meant, input))
  {
    if meant.Some? {
      OneFollows(ctx, meant.value.1, before, after, input, result);
    }
  }

  lemma LengthGrows(texts: seq<string>, text: string)
    ensures Length(texts + [text]) == Length(texts) + |text|
  {
    assert (texts + [text])[..|texts|] == texts;
  }

  /** Where a request stands after `n` texts with these meanings. */
  ghost predicate Stands(n: nat, results: seq<string>, state: View, meant: Option<(seq<string>, View)>) {
    && state.filling == [] && |results| == n
    && (!state.exceeded ==> Length(results) == state.produced)
    && (results, state) in Follows(meant)
  }

  ghost function Progress(ctx: Context, texts: seq<string>): iset<(seq<string>, View)> {
    iset run: (seq<string>, View) | Stands(|texts|, run.0, run.1, Meanings(ctx, Fresh(), texts))
  }

  lemma MeaningsGrow(ctx: Context, before: View, texts: seq<string>, text: string)
    ensures Meanings(ctx, before, texts + [text]) == Extended(ctx, Meanings(ctx, before, texts), text)
  {
    assert (texts + [text])[..|texts|] == texts;
  }

  lemma ProgressGrows(ctx: Context, texts: seq<string>, text: string, results: seq<string>, before: View, after: View, result: string)
    requires (results, before) in Progress(ctx, texts) && (after, result) in Applied(ctx, before, text)
    ensures (results + [result], after) in Progress(ctx, texts + [text])
  {
    NextFollows(ctx, Meanings(ctx, Fresh(), texts), text, results, before, after, result);
    MeaningsGrow(ctx, Fresh(), texts, text);
    LengthGrows(results, result);
  }

  lemma ProgressStarts(ctx: Context)
    ensures ([], Fresh()) in Progress(ctx, [])
  {
  }

  lemma ProgressEnds(ctx: Context, texts: seq<string>, results: seq<string>, state: View)
    requires (results, state) in Progress(ctx, texts) && state in States(ctx)
    ensures state.Clean() ==> |results| == |texts| && Length(results) <= MAX_ENCODED_BODY
    ensures var meant := Meanings(ctx, Fresh(), texts);
            if state.Clean() then meant.Some? && results == meant.value.0 else meant.None?
  {
  }

  /** One text of a request. */
  method ApplyText(substitution: Substitution, text: string) returns (result: string)
    requires substitution.Valid() && substitution.state.filling == []
    modifies substitution
    ensures substitution.Valid() && substitution.state.filling == []
    ensures (substitution.state, result) in Applied(substitution.ctx, old(substitution.state), text)
  {
    result := substitution.Apply(text);
  }

  /** There is no failure exactly when every text fits after the ones before it. Then the results are the meanings of
      the texts, and add up to at most the encoded body limit. */
  method ExpandTexts(ctx: Context, texts: seq<string>) returns (filled: Option<seq<string>>)
    ensures filled.Some? ==> |filled.value| == |texts| && Length(filled.value) <= MAX_ENCODED_BODY
    ensures var meant := Meanings(ctx, Fresh(), texts);
            filled == if meant.Some? then Some(meant.value.0) else None
  {
    var substitution := new Substitution(ctx);
    var results := [];
    ProgressStarts(ctx);
    for i := 0 to |texts|
      invariant substitution.Valid() && substitution.ctx == ctx && fresh(substitution) && substitution.state.filling == []
      invariant (results, substitution.state) in Progress(ctx, texts[..i])
    {
      ghost var before := substitution.state;
      var result := ApplyText(substitution, texts[i]);
      ProgressGrows(ctx, texts[..i], texts[i], results, before, substitution.state, result);
      results := results + [result];
      assert texts[..i + 1] == texts[..i] + [texts[i]];
    }
    assert texts[..|texts|] == texts;
    ProgressEnds(ctx, texts, results, substitution.state);
    filled := if substitution.FailureOf().Some? then None else Some(results);
  }

  /** Reading and generating are off, so nothing is left to chance. */
  function Quiet(values: map<string, string>): Context {
    Context(values, false, (name: string) => false, (name: string, draw: nat) => "", None)
  }

  predicate IsPlain(piece: Piece) {
    piece.Lit? || piece.Kept?
  }

  ghost predicate ArePlain(pieces: seq<Piece>) {
    forall i :: 0 <= i < |pieces| ==> IsPlain(pieces[i])
  }

  /** Nothing is drawn or read, whatever is opened. */
  ghost predicate IsPlainNode(node: Node) {
    match node
    case Leaf(piece, _) => IsPlain(piece)
    case Opened(_, instead, inner) => IsPlain(instead) && forall i :: 0 <= i < |inner| ==> IsPlainNode(inner[i])
  }

  ghost predicate ArePlainNodes(nodes: seq<Node>) {
    forall i :: 0 <= i < |nodes| ==> IsPlainNode(nodes[i])
  }

  lemma ExpandIsPlain(values: map<string, string>, text: string, owner: string, path: seq<string>)
    requires |path| <= MAX_NESTING
    ensures ArePlainNodes(Expand(Quiet(values), text, owner, path, false))
    decreases MAX_NESTING - |path|, 2, 0
  {
    ExpandFirstIsPlain(values, text, owner, path, |Spans(text)|);
    PlainNodesJoin(ExpandFirst(Quiet(values), text, owner, path, false, |Spans(text)|), Literal(Tail(text)));
  }

  lemma {:induction false} ExpandFirstIsPlain(values: map<string, string>, text: string, owner: string, path: seq<string>, n: nat)
    requires |path| <= MAX_NESTING && n <= |Spans(text)|
    ensures ArePlainNodes(ExpandFirst(Quiet(values), text, owner, path, false, n))
    decreases MAX_NESTING - |path|, 1, n
  {
    if n > 0 {
      ExpandFirstIsPlain(values, text, owner, path, n - 1);
      RoundIsPlain(values, text, owner, path, n - 1);
      PlainNodesJoin(ExpandFirst(Quiet(values), text, owner, path, false, n - 1), Round(Quiet(values), text, owner, path, false, n - 1));
    }
  }

  lemma PlainNodesJoin(a: seq<Node>, b: seq<Node>)
    requires ArePlainNodes(a) && ArePlainNodes(b)
    ensures ArePlainNodes(a + b)
  {
  }

  lemma RoundIsPlain(values: map<string, string>, text: string, owner: string, path: seq<string>, n: nat)
    requires |path| <= MAX_NESTING && n < |Spans(text)|
    ensures ArePlainNodes(Round(Quiet(values), text, owner, path, false, n))
    decreases MAX_NESTING - |path|, 0, 2
  {
    OneIsPlain(values, Placeholder(text, n), Slot(owner, n), path);
    PlainNodesJoin(Literal(Gap(text, n)), [ExpandOne(Quiet(values), Placeholder(text, n), Slot(owner, n), path, false)]);
  }

  lemma OneIsPlain(values: map<string, string>, placeholder: string, slot: Slot, path: seq<string>)
    requires |path| <= MAX_NESTING && |placeholder| >= 4
    ensures IsPlainNode(ExpandOne(Quiet(values), placeholder, slot, path, false))
    decreases MAX_NESTING - |path|, 0, 1
  {
    match Variable(values, NameOf(placeholder))
    case None =>
    case Some(found) =>
      if found.key !in path && |path| < MAX_NESTING {
        ExpandIsPlain(values, found.value, found.key, path + [found.key]);
      }
  }

  lemma {:induction false} FlatIsPlain(nodes: seq<Node>, left: nat)
    requires ArePlainNodes(nodes)
    ensures ArePlain(Flat(nodes, left).pieces)
    decreases nodes, 1
  {
    if nodes != [] {
      var init, last := nodes[..|nodes| - 1], nodes[|nodes| - 1];
      FlatIsPlain(init, left);
      assert IsPlainNode(last);
      FlatOneIsPlain(last, left - Flat(init, left).work);
    }
  }

  lemma {:induction false} FlatOneIsPlain(node: Node, left: nat)
    requires IsPlainNode(node)
    ensures ArePlain(FlatOne(node, left).pieces)
    decreases node, 0
  {
    if node.Opened? && left > 0 {
      FlatIsPlain(node.inner, left - 1);
    }
  }

  /** The text of plain pieces does not depend on what was printed before. */
  function PlainText(pieces: seq<Piece>): string {
    if pieces == [] then ""
    else
      var last := pieces[|pieces| - 1];
      PlainText(pieces[..|pieces| - 1]) + (if last.Lit? then last.text else if last.Kept? then last.placeholder else "")
  }

  lemma {:induction false} PlainRenders(ctx: Context, memo: Memo, pieces: seq<Piece>)
    requires ArePlain(pieces)
    ensures var printed := Render(ctx, memo, pieces);
            printed.Printed? && printed.text == PlainText(pieces)
  {
    if pieces != [] {
      var init := pieces[..|pieces| - 1];
      assert forall i :: 0 <= i < |init| ==> init[i] == pieces[i];
      PlainRenders(ctx, memo, init);
    }
  }

  /** The unfolding of a variable, taken alone. */
  ghost function Own(values: map<string, string>, name: string): seq<Node>
    requires name in values
  {
    Expand(Quiet(values), values[name], name, [name], false)
  }

  /** What a variable's own expansion is. */
  ghost function FilledValue(values: map<string, string>, name: string): string
    requires name in values
  {
    if Spans(values[name]) == [] then values[name]
    else PlainText(Flat(Own(values, name), Size(Own(values, name))).pieces)
  }

  ghost function FillWork(values: map<string, string>, name: string): nat
    requires name in values
  {
    if Spans(values[name]) == [] then 0 else 1 + Size(Own(values, name))
  }

  ghost function TotalWork(values: map<string, string>, names: set<string>): nat
    requires names <= values.Keys
  {
    if names == {} then 0
    else
      var name :| name in names;
      FillWork(values, name) + TotalWork(values, names - {name})
  }

  lemma {:induction false} TotalWorkWithout(values: map<string, string>, names: set<string>, name: string)
    requires names <= values.Keys && name in names
    ensures TotalWork(values, names) == FillWork(values, name) + TotalWork(values, names - {name})
    decreases |names|
  {
    var picked :| picked in names && TotalWork(values, names) == FillWork(values, picked) + TotalWork(values, names - {picked});
    if picked != name {
      TotalWorkWithout(values, names - {picked}, name);
      TotalWorkWithout(values, names - {name}, picked);
      assert names - {picked} - {name} == names - {name} - {picked};
    }
  }

  lemma {:induction false} TotalWorkGrows(values: map<string, string>, some: set<string>, names: set<string>)
    requires some <= names <= values.Keys
    ensures TotalWork(values, some) <= TotalWork(values, names)
    decreases |names|
  {
    if names - some == {} {
      assert some == names;
    } else {
      var name :| name in names - some;
      TotalWorkWithout(values, names, name);
      TotalWorkGrows(values, some, names - {name});
    }
  }

  lemma TotalWorkNext(values: map<string, string>, done: set<string>, name: string)
    requires done <= values.Keys && name in values && name !in done
    ensures TotalWork(values, done + {name}) == TotalWork(values, done) + FillWork(values, name) <= TotalWork(values, values.Keys)
  {
    TotalWorkWithout(values, done + {name}, name);
    assert done + {name} - {name} == done;
    TotalWorkGrows(values, done + {name}, values.Keys);
  }

  /** No limit can fire: each variable's work and size fits, and so does the work of all of them. */
  ghost predicate AllFit(values: map<string, string>) {
    && (forall name :: name in values ==> FillWork(values, name) <= MAX_EXPANSIONS && |FilledValue(values, name)| <= MAX_ENCODED_BODY)
    && TotalWork(values, values.Keys) <= MAX_REQUEST_EXPANSIONS
  }

  ghost predicate Enumerates(order: seq<string>, names: set<string>) {
    Distinct(order) && forall name :: name in order <==> name in names
  }

  /** What filling a variable gives: its own expansion, if no limit fires. */
  ghost function Fillings(values: map<string, string>, before: View, name: string): iset<(View, string)>
    requires name in values
  {
    iset done: (View, string) | before.Clean() && Suffices(values, name, before.total) ==>
      done.1 == FilledValue(values, name) && done.0.Clean() && done.0.total == before.total + FillWork(values, name)
  }

  /** One round of `FillVariables`. */
  method FillVariable(substitution: Substitution, values: map<string, string>, name: string) returns (value: string)
    requires substitution.ctx == Quiet(values) && substitution.Valid() && substitution.state.filling == [] && name in values
    modifies substitution
    ensures substitution.Valid() && substitution.state.filling == []
    ensures (substitution.state, value) in Fillings(values, old(substitution.state), name)
  {
    substitution.state := substitution.state.(expansions := 0);
    ghost var before := substitution.state;
    value := values[name];
    var expanded, ok := substitution.Nested(name, value);
    NestedFits(values, before, substitution.state, name, expanded, ok);
    if ok {
      value := expanded;
    }
  }

  ghost predicate AreFilled(values: map<string, string>, filled: map<string, string>, state: View) {
    && filled.Keys <= values.Keys && state.Clean() && state.total == TotalWork(values, filled.Keys)
    && forall name :: name in filled ==> filled[name] == FilledValue(values, name)
  }

  /** Where the walk stands after some of the variables. */
  ghost function Walked(values: map<string, string>, names: set<string>): iset<(map<string, string>, View)> {
    iset run: (map<string, string>, View) |
      && run.1.filling == [] && run.0.Keys == names
      && (AllFit(values) ==> run.1 in FilledStates(values, run.0))
  }

  /** The states reached when these variables are filled. */
  ghost function FilledStates(values: map<string, string>, filled: map<string, string>): iset<View> {
    iset state: View | AreFilled(values, filled, state)
  }

  lemma NextIsFilled(values: map<string, string>, filled: map<string, string>, before: View, after: View, name: string, value: string)
    requires name in values && name !in filled
    requires AllFit(values) && before in FilledStates(values, filled)
    requires (after, value) in Fillings(values, before, name)
    ensures after in FilledStates(values, filled[name := value])
  {
    TotalWorkNext(values, filled.Keys, name);
    assert filled[name := value].Keys == filled.Keys + {name};
  }

  lemma WalkGoesOn(values: map<string, string>, names: set<string>, filled: map<string, string>, before: View, after: View, name: string, value: string)
    requires name in values && name !in names && (filled, before) in Walked(values, names)
    requires (after, value) in Fillings(values, before, name) && after.filling == []
    ensures (filled[name := value], after) in Walked(values, names + {name})
  {
    assert filled[name := value].Keys == filled.Keys + {name};
    if AllFit(values) {
      NextIsFilled(values, filled, before, after, name, value);
    }
  }

  lemma WalkStarts(values: map<string, string>)
    ensures (map[], Fresh()) in Walked(values, {})
  {
  }

  lemma WalkEnds(values: map<string, string>, filled: map<string, string>, state: View)
    requires (filled, state) in Walked(values, values.Keys)
    ensures filled.Keys == values.Keys
    ensures AllFit(values) ==> filled == map name | name in values :: FilledValue(values, name)
  {
  }

  /** A Go map is walked in any order: here `order`. While no limit can fire, the order does not matter. */
  method FillVariables(values: map<string, string>, order: seq<string>) returns (filled: map<string, string>)
    requires Enumerates(order, values.Keys)
    ensures filled.Keys == values.Keys
    ensures AllFit(values) ==> filled == map name | name in values :: FilledValue(values, name)
  {
    var substitution := new Substitution(Quiet(values));
    filled := map[];
    WalkStarts(values);
    for i := 0 to |order|
      invariant substitution.Valid() && substitution.ctx == Quiet(values) && fresh(substitution)
      invariant substitution.state.filling == []
      invariant (filled, substitution.state) in Walked(values, NamesIn(order[..i]))
    {
      NextIsNew(order, values.Keys, i);
      ghost var before := substitution.state;
      var value := FillVariable(substitution, values, order[i]);
      WalkGoesOn(values, NamesIn(order[..i]), filled, before, substitution.state, order[i], value);
      filled := filled[order[i] := value];
    }
    assert order[..|order|] == order;
    assert NamesIn(order) == values.Keys;
    WalkEnds(values, filled, substitution.state);
  }

  function NamesIn(order: seq<string>): set<string> {
    set name | name in order
  }

  lemma NextIsNew(order: seq<string>, names: set<string>, i: nat)
    requires Enumerates(order, names) && i < |order|
    ensures order[i] in names && order[i] !in NamesIn(order[..i])
    ensures NamesIn(order[..i + 1]) == NamesIn(order[..i]) + {order[i]}
  {
    assert order[..i + 1] == order[..i] + [order[i]];
  }

  /** The work of one variable and the size of its expansion are within the limits. */
  ghost predicate Suffices(values: map<string, string>, name: string, total: nat)
    requires name in values
  {
    && FillWork(values, name) <= MAX_EXPANSIONS && total + FillWork(values, name) <= MAX_REQUEST_EXPANSIONS
    && |FilledValue(values, name)| <= MAX_ENCODED_BODY
  }

  lemma NestedFits(values: map<string, string>, before: View, after: View, name: string, expanded: string, ok: bool)
    requires name in values && before.filling == [] && before.expansions == 0
    requires (after, expanded, ok) in Nestings(Quiet(values), before, Found(name, values[name]))
    ensures before.Clean() && Suffices(values, name, before.total) ==>
              && ok && expanded == FilledValue(values, name)
              && after.Clean() && after.total == before.total + FillWork(values, name)
    ensures after.filling == []
  {
    if Spans(values[name]) != [] && Spent(before.(seen := before.seen + {name})).1 {
      assert [] + [name] == [name];
      OpeningAllows(Quiet(values), before, after, Found(name, values[name]), Kept(""), expanded, ok);
      ExpandIsPlain(values, values[name], name, [name]);
      OpenedFits(Quiet(values), before, after, name, Own(values, name), expanded);
    }
  }

  lemma OpenedFits(ctx: Context, before: View, after: View, name: string, inner: seq<Node>, expanded: string)
    requires ArePlainNodes(inner)
    requires Allows(ctx, before, [Opened(name, Kept(""), inner)], MAX_ENCODED_BODY, Outcome(after, expanded))
    ensures var value := PlainText(Flat(inner, Size(inner)).pieces);
            before.Clean() && Size(inner) < before.Room() && |value| <= MAX_ENCODED_BODY ==>
              expanded == value && after.Clean() && after.total == before.total + 1 + Size(inner)
    ensures after.filling == before.filling
  {
    if Size(inner) < before.Room() {
      var trace := PlainTrace(inner, before.Room() - 1);
      InnerFits(ctx, before, after, name, inner, trace, expanded);
    }
  }

  /** Plain pieces are printed in full, once they and their work fit. */
  lemma InnerFits(ctx: Context, before: View, after: View, name: string, inner: seq<Node>, trace: Trace, text: string)
    requires Allows(ctx, before, [Opened(name, Kept(""), inner)], MAX_ENCODED_BODY, Outcome(after, text))
    requires before.Room() > 0 && Flat(inner, before.Room() - 1) == trace
    ensures before.Clean() && trace in PlainTraces(Size(inner)) ==>
              text == PlainText(trace.pieces) && after.Clean() && after.total == before.total + 1 + Size(inner)
  {
    OpenedAllows(ctx, before, name, Kept(""), inner, MAX_ENCODED_BODY);
    TraceFits(ctx, before, after, trace, name, Size(inner), text);
  }

  ghost function PlainTraces(size: nat): iset<Trace> {
    iset trace: Trace | ArePlain(trace.pieces) && !trace.refused && trace.work == size && |PlainText(trace.pieces)| <= MAX_ENCODED_BODY
  }

  lemma PlainTrace(inner: seq<Node>, left: nat) returns (trace: Trace)
    requires ArePlainNodes(inner) && Size(inner) <= left
    ensures trace == Flat(inner, left) == Flat(inner, Size(inner))
    ensures ArePlain(trace.pieces) && !trace.refused && trace.work == Size(inner)
  {
    trace := Flat(inner, left);
    FlatIsFree(inner, left, Size(inner));
    FlatFits(inner, left);
    FlatIsPlain(inner, left);
  }

  lemma TraceFits(ctx: Context, before: View, after: View, trace: Trace, name: string, size: nat, text: string)
    requires Outcome(after, text) in Traced(ctx, before, Begun(name).Then(trace), MAX_ENCODED_BODY)
    ensures before.Clean() && trace in PlainTraces(size) ==>
              text == PlainText(trace.pieces) && after.Clean() && after.total == before.total + 1 + size
  {
    if before.Clean() && trace in PlainTraces(size) {
      PlainRenders(ctx, before.memo, trace.pieces);
      assert [] + trace.pieces == trace.pieces;
    }
  }
}
