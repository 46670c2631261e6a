/** The substitution engine of `engine/pairs.go`: the stateful expander with its work, depth and size
limits, proved against `Expansion`. */
module SubstitutionEngine {
  import opened Text
  import opened Placeholders
  import opened Expansion

  const MAX_EXPANSIONS: nat := 10000
  const MAX_REQUEST_EXPANSIONS: nat := 100000
  const MAX_ENCODED_BODY: nat := MAX_REQUEST_BODY * 3 / 2

  datatype Failure = FileFailed | TooLarge | Overworked

  /** The state of a substitution, as a value. */
  datatype View = View(
    exceeded: bool, overworked: bool, fileFailed: bool,
    filling: seq<string>, budget: int, produced: nat,
    expansions: nat, total: nat, memo: Memo, seen: set<string>)
  {
    /** Nothing failed. */
    predicate Clean() {
      !exceeded && !overworked && !fileFailed
    }

    /** How many variables may still be opened. */
    function Room(): nat {
      var call, request := MAX_EXPANSIONS - expansions, MAX_REQUEST_EXPANSIONS - total;
      var least := if call < request then call else request;
      if least < 0 then 0 else least
    }

    /** The limit on the whole request is reached first, or both at once. */
    predicate Tight() {
      MAX_REQUEST_EXPANSIONS - total <= MAX_EXPANSIONS - expansions
    }

    /** Unfolding that far opens one variable too many for the whole request; one too many for a call fails nothing. */
    predicate Overworks(trace: Trace) {
      trace.refused && Tight()
    }
  }

  function Fresh(): View {
    View(false, false, false, [], MAX_ENCODED_BODY, 0, 0, 0, Memo(map[], 0, map[], 0, []), {})
  }

  /** What a call may do whether or not something fails: the flags stay set, the stack and the
      budget are restored, no generated value changes, and the work done is bounded. */
  ghost predicate Steps(before: View, after: View, work: nat, looked: set<string>) {
    && (before.exceeded ==> after.exceeded) && (before.overworked ==> after.overworked)
    && (before.fileFailed ==> after.fileFailed)
    && (after.overworked && !before.overworked ==> before.total + work > MAX_REQUEST_EXPANSIONS)
    && after.filling == before.filling && after.budget == before.budget && after.produced == before.produced
    && KeepsSlots(before.memo.generated, after.memo.generated)
    && 0 <= after.expansions - before.expansions == after.total - before.total <= work
    && after.seen <= before.seen + looked
  }

  ghost function Successors(before: View, work: nat, looked: set<string>): iset<View> {
    iset after: View | Steps(before, after, work, looked)
  }

  datatype Outcome = Outcome(state: View, text: string)

  /** Handing out `outcome.text` for `nodes`: unless something fails, exactly what printing them gives when variables
      are opened as long as there is room; and nothing fails that can be read, is at most `limit` long and
      does not open too many for the whole request. */
  ghost predicate Allows(ctx: Context, before: View, nodes: seq<Node>, limit: nat, outcome: Outcome) {
    outcome in Outcomes(ctx, before, nodes, limit)
  }

  ghost function Outcomes(ctx: Context, before: View, nodes: seq<Node>, limit: nat): iset<Outcome> {
    Traced(ctx, before, Flat(nodes, before.Room()), limit)
  }

  ghost function Traced(ctx: Context, before: View, trace: Trace, limit: nat): iset<Outcome> {
    iset outcome: Outcome | outcome.state in Successors(before, trace.size, trace.all) && IsTraced(ctx, before, trace, limit, outcome)
  }

  ghost predicate IsTraced(ctx: Context, before: View, trace: Trace, limit: nat, outcome: Outcome) {
    var after, printed := outcome.state, Render(ctx, before.memo, trace.pieces);
    && (after.Clean() ==>
          && printed == Printed(outcome.text, after.memo) && !before.Overworks(trace)
          && after.expansions == before.expansions + trace.work && after.seen == before.seen + trace.seen)
    && (before.Clean() && !before.Overworks(trace) && printed.Printed? && |printed.text| <= limit ==> after.Clean())
  }

  /** The second trace starts where the first one ends; if something failed there, it no longer matters. */
  lemma TracesJoin(ctx: Context, a: View, b: View, c: View, first: Trace, second: Trace, more: Trace, x: string, y: string, limit: nat)
    requires IsTraced(ctx, a, first, limit, Outcome(b, x)) && IsTraced(ctx, b, second, limit, Outcome(c, y))
    requires (a.exceeded ==> b.exceeded) && (a.overworked ==> b.overworked) && (a.fileFailed ==> b.fileFailed)
    requires (b.exceeded ==> c.exceeded) && (b.overworked ==> c.overworked) && (b.fileFailed ==> c.fileFailed)
    requires b.total - a.total == b.expansions - a.expansions
    requires b.Clean() ==> second == more
    ensures IsTraced(ctx, a, first.Then(more), limit, Outcome(c, x + y))
  {
    RenderAppend(ctx, a.memo, first.pieces, more.pieces);
  }

  lemma TracedThen(ctx: Context, a: View, b: View, c: View, first: Trace, second: Trace, more: Trace, x: string, y: string, limit: nat)
    requires Outcome(b, x) in Traced(ctx, a, first, limit) && Outcome(c, y) in Traced(ctx, b, second, limit)
    requires second.size == more.size && second.all == more.all && (b.Clean() ==> second == more)
    ensures Outcome(c, x + y) in Traced(ctx, a, first.Then(more), limit)
  {
    TracesJoin(ctx, a, b, c, first, second, more, x, y, limit);
  }

  lemma RoomAfter(ctx: Context, a: View, b: View, first: Trace, x: string, limit: nat)
    requires Outcome(b, x) in Traced(ctx, a, first, limit) && b.Clean() && first.work <= a.Room()
    ensures b.Room() == a.Room() - first.work
  {
  }

  lemma RefinesThen(ctx: Context, a: View, b: View, c: View, first: seq<Node>, second: seq<Node>, x: string, y: string, limit: nat)
    requires Allows(ctx, a, first, limit, Outcome(b, x)) && Allows(ctx, b, second, limit, Outcome(c, y))
    ensures Allows(ctx, a, first + second, limit, Outcome(c, x + y))
  {
    var trace := Flat(first, a.Room());
    var left := a.Room() - trace.work;
    if b.Clean() {
      RoomAfter(ctx, a, b, trace, x, limit);
    }
    FlatCounts(second, left);
    FlatCounts(second, b.Room());
    TracedThen(ctx, a, b, c, trace, Flat(second, b.Room()), Flat(second, left), x, y, limit);
    FlatJoins(first, second, a.Room(), left);
  }

  lemma SingleAllows(ctx: Context, a: View, node: Node, limit: nat)
    ensures Outcomes(ctx, a, [node], limit) == Traced(ctx, a, FlatOne(node, a.Room()), limit)
  {
    FlatSingle(node, a.Room());
  }

  lemma LeafAllows(ctx: Context, a: View, piece: Piece, looked: Option<string>, limit: nat)
    ensures Outcomes(ctx, a, [Leaf(piece, looked)], limit) == Traced(ctx, a, Alone(piece, Looked(looked)), limit)
  {
    SingleAllows(ctx, a, Leaf(piece, looked), limit);
  }

  lemma RefinesLiteral(ctx: Context, a: View, text: string, limit: nat)
    ensures Allows(ctx, a, Literal(text), limit, Outcome(a, text))
  {
    LeafAllows(ctx, a, Lit(text), None, limit);
    RenderSingle(ctx, a.memo, Lit(text));
  }

  lemma RefinesShorter(ctx: Context, a: View, b: View, nodes: seq<Node>, text: string, limit: nat, shorter: nat)
    requires Allows(ctx, a, nodes, limit, Outcome(b, text)) && shorter <= limit
    ensures Allows(ctx, a, nodes, shorter, Outcome(b, text))
  {
  }

  /** Too long already: whatever follows, the whole text is too long as well. */
  lemma RefinesTooLong(ctx: Context, a: View, b: View, first: seq<Node>, rest: seq<Node>, text: string, limit: nat)
    requires Allows(ctx, a, first, limit, Outcome(b, text)) && |text| > limit
    ensures Allows(ctx, a, first + rest, limit, Outcome(b.(exceeded := true), ""))
  {
    var trace := Flat(first, a.Room());
    var left := a.Room() - trace.work;
    TraceTooLong(ctx, a, b, trace, Flat(rest, left), text, limit);
    FlatJoins(first, rest, a.Room(), left);
  }

  lemma TraceTooLong(ctx: Context, a: View, b: View, first: Trace, more: Trace, text: string, limit: nat)
    requires Outcome(b, text) in Traced(ctx, a, first, limit) && |text| > limit
    ensures Outcome(b.(exceeded := true), "") in Traced(ctx, a, first.Then(more), limit)
  {
    RenderAppend(ctx, a.memo, first.pieces, more.pieces);
  }

  lemma {:induction false} ExpandFirstStarts(ctx: Context, text: string, owner: string, path: seq<string>, readsFiles: bool, n: nat, m: nat)
    requires |path| <= MAX_NESTING && n <= m <= |Spans(text)|
    ensures ExpandFirst(ctx, text, owner, path, readsFiles, n) <= ExpandFirst(ctx, text, owner, path, readsFiles, m)
    decreases m
  {
    if n < m {
      ExpandFirstStarts(ctx, text, owner, path, readsFiles, n, m - 1);
      StartsLonger(ExpandFirst(ctx, text, owner, path, readsFiles, n), ExpandFirst(ctx, text, owner, path, readsFiles, m - 1),
                   Round(ctx, text, owner, path, readsFiles, m - 1));
    }
  }

  lemma StartsLonger(start: seq<Node>, first: seq<Node>, second: seq<Node>)
    requires start <= first
    ensures start <= first + second
  {
  }

  function Noted(ctx: Context, view: View, placeholder: string, ok: bool): View
    requires |placeholder| >= 4
  {
    if ok then view else view.(memo := Expansion.NoteMissing(ctx, view.memo, NameOf(placeholder)))
  }

  /** `spend`: the new state, and whether another variable may be opened. */
  function Spent(v: View): (View, bool) {
    var overworked := v.overworked || v.total >= MAX_REQUEST_EXPANSIONS;
    if v.exceeded || overworked || v.expansions >= MAX_EXPANSIONS then (v.(overworked := overworked), false)
    else (v.(overworked := overworked, expansions := v.expansions + 1, total := v.total + 1), true)
  }

  /** What filling the value of a variable one level deeper may give. */
  ghost function Deepenings(ctx: Context, before: View, found: Found): iset<(View, string, bool)>
    requires |before.filling| < MAX_NESTING
  {
    var path := before.filling + [found.key];
    iset result: (View, string, bool) |
      && result.0.filling == before.filling && (!result.2 ==> !result.0.Clean())
      && Allows(ctx, before.(filling := path), Expand(ctx, found.value, found.key, path, false), MAX_ENCODED_BODY,
                Outcome(result.0.(filling := path), result.1))
  }

  /** What `nested` does with a variable, once the variable is counted as looked at. */
  ghost predicate Nests(ctx: Context, before: View, after: View, found: Found, value: string, ok: bool) {
    match found
    case Found(key, text) =>
      var looked := before.(seen := before.seen + {key});
      if Spans(text) == [] then after == looked && ok && value == text
      else if key in before.filling || |before.filling| >= MAX_NESTING then after == looked && !ok
      else if !Spent(looked).1 then after == Spent(looked).0 && !ok
      else (after, value, ok) in Deepenings(ctx, Spent(looked).0, found)
  }

  ghost function Nestings(ctx: Context, before: View, found: Found): iset<(View, string, bool)> {
    iset result: (View, string, bool) | Nests(ctx, before, result.0, found, result.1, result.2)
  }

  ghost predicate Resolves(ctx: Context, before: View, after: View, name: string, value: string, ok: bool) {
    match Variable(ctx.variables, name)
    case None => after == before && !ok
    case Some(found) => (after, value, ok) in Nestings(ctx, before, found)
  }

  lemma OpenedAllows(ctx: Context, a: View, key: string, instead: Piece, inner: seq<Node>, limit: nat)
    ensures Outcomes(ctx, a, [Opened(key, instead, inner)], limit) ==
            if a.Room() == 0 then Traced(ctx, a, Refusal(key, instead, Size(inner), AllSeen(inner)), limit)
            else Traced(ctx, a, Begun(key).Then(Flat(inner, a.Room() - 1)), limit)
  {
    SingleAllows(ctx, a, Opened(key, instead, inner), limit);
  }

  lemma BegunTraces(ctx: Context, a: View, after: View, path: seq<string>, key: string, trace: Trace, value: string, limit: nat)
    requires after.filling == a.filling
    requires Outcome(after.(filling := path), value) in
             Traced(ctx, a.(expansions := a.expansions + 1, total := a.total + 1, seen := a.seen + {key}, filling := path), trace, limit)
    ensures Outcome(after, value) in Traced(ctx, a, Begun(key).Then(trace), limit)
  {
    assert [] + trace.pieces == trace.pieces;
  }

  lemma BegunAllows(ctx: Context, a: View, after: View, path: seq<string>, key: string, instead: Piece, inner: seq<Node>, value: string)
    requires a.Room() > 0 && after.filling == a.filling
    requires Allows(ctx, a.(expansions := a.expansions + 1, total := a.total + 1, seen := a.seen + {key}, filling := path), inner,
                    MAX_ENCODED_BODY, Outcome(after.(filling := path), value))
    ensures Allows(ctx, a, [Opened(key, instead, inner)], MAX_ENCODED_BODY, Outcome(after, value))
  {
    var trace := Flat(inner, a.Room() - 1);
    BegunTraces(ctx, a, after, path, key, trace, value, MAX_ENCODED_BODY);
    OpenedTraces(ctx, a, key, instead, inner, trace, MAX_ENCODED_BODY, Outcome(after, value));
  }

  lemma OpenedTraces(ctx: Context, a: View, key: string, instead: Piece, inner: seq<Node>, trace: Trace, limit: nat, outcome: Outcome)
    requires a.Room() > 0 && trace == Flat(inner, a.Room() - 1) && outcome in Traced(ctx, a, Begun(key).Then(trace), limit)
    ensures Allows(ctx, a, [Opened(key, instead, inner)], limit, outcome)
  {
    OpenedAllows(ctx, a, key, instead, inner, limit);
  }

  /** Opening a variable, when there is room. */
  lemma OpeningAllows(ctx: Context, before: View, after: View, found: Found, instead: Piece, value: string, ok: bool)
    requires |before.filling| < MAX_NESTING
    requires var spent := Spent(before.(seen := before.seen + {found.key}));
             spent.1 && (after, value, ok) in Deepenings(ctx, spent.0, found)
    ensures var inner := Expand(ctx, found.value, found.key, before.filling + [found.key], false);
            Allows(ctx, before, [Opened(found.key, instead, inner)], MAX_ENCODED_BODY, Outcome(after, value))
  {
    var path := before.filling + [found.key];
    BegunAllows(ctx, before, after, path, found.key, instead, Expand(ctx, found.value, found.key, path, false), value);
  }

  /** There is no room, so what stands there instead is handed out; with too many for the whole request, that fails. */
  lemma RefusalAllows(ctx: Context, a: View, b: View, c: View, key: string, instead: Piece, inner: seq<Node>, text: string, limit: nat)
    requires a.expansions <= MAX_EXPANSIONS && Spent(a.(seen := a.seen + {key})) == (b, false)
    requires Allows(ctx, b, [Leaf(instead, None)], limit, Outcome(c, text))
    ensures Allows(ctx, a, [Opened(key, instead, inner)], limit, Outcome(c, text))
  {
    LeafAllows(ctx, b, instead, None, limit);
    OpenedAllows(ctx, a, key, instead, inner, limit);
  }

  /** A file is read now: reading is on, it was not read before, and nothing stopped reading. */
  predicate ReadsNow(ctx: Context, v: View, name: string) {
    ctx.files.Some? && name !in v.memo.read && !v.exceeded && !v.fileFailed
  }

  predicate ReadsTooMuch(ctx: Context, v: View, reference: FileReference)
    requires ctx.files.Some?
  {
    match ctx.files.value(reference)
    case None => false
    case Some(data) => v.memo.fileBytes + data.size > MAX_REQUEST_BODY
  }

  lemma PlainValueRefines(ctx: Context, a: View, found: Found)
    ensures Allows(ctx, a, [Leaf(Lit(found.value), Some(found.key))], MAX_ENCODED_BODY,
                   Outcome(a.(seen := a.seen + {found.key}), found.value))
  {
    LeafAllows(ctx, a, Lit(found.value), Some(found.key), MAX_ENCODED_BODY);
    RenderSingle(ctx, a.memo, Lit(found.value));
  }

  lemma ResolvedRefines(ctx: Context, a: View, b: View, placeholder: string, slot: Slot, readsFiles: bool, value: string)
    requires |placeholder| >= 4 && |a.filling| <= MAX_NESTING
    requires Resolves(ctx, a, b, NameOf(placeholder), value, true)
    ensures Allows(ctx, a, [ExpandOne(ctx, placeholder, slot, a.filling, readsFiles)], MAX_ENCODED_BODY, Outcome(b, value))
  {
    var found := Variable(ctx.variables, NameOf(placeholder)).value;
    if Spans(found.value) == [] {
      PlainValueRefines(ctx, a, found);
    } else {
      OpeningAllows(ctx, a, b, found, Unresolved(ctx, placeholder, slot, readsFiles), value, true);
    }
  }

  /** Once something has failed, what is handed out no longer matters. */
  lemma StoppedRefines(ctx: Context, a: View, b: View, c: View, nodes: seq<Node>, x: string, y: string, limit: nat)
    requires Allows(ctx, a, nodes, limit, Outcome(b, x)) && !b.Clean() && c in Successors(b, 0, {})
    ensures Allows(ctx, a, nodes, limit, Outcome(c, y))
  {
    assert !c.Clean();
  }

  lemma LookedAtRefines(ctx: Context, a: View, c: View, piece: Piece, key: string, text: string, limit: nat)
    requires Allows(ctx, a.(seen := a.seen + {key}), [Leaf(piece, None)], limit, Outcome(c, text))
    ensures Allows(ctx, a, [Leaf(piece, Some(key))], limit, Outcome(c, text))
  {
    LeafAllows(ctx, a.(seen := a.seen + {key}), piece, None, limit);
    LeafAllows(ctx, a, piece, Some(key), limit);
  }

  /** Opening was tried and failed, or there was no room. */
  lemma UnopenedRefines(ctx: Context, a: View, b: View, c: View, found: Found, piece: Piece, value: string, text: string)
    requires |a.filling| < MAX_NESTING && found.key !in a.filling && Spans(found.value) != [] && a.expansions <= MAX_EXPANSIONS
    requires (b, value, false) in Nestings(ctx, a, found)
    requires Allows(ctx, b, [Leaf(piece, None)], MAX_ENCODED_BODY, Outcome(c, text))
    ensures Allows(ctx, a, [Opened(found.key, piece, Expand(ctx, found.value, found.key, a.filling + [found.key], false))],
                   MAX_ENCODED_BODY, Outcome(c, text))
  {
    var inner := Expand(ctx, found.value, found.key, a.filling + [found.key], false);
    if Spent(a.(seen := a.seen + {found.key})).1 {
      OpeningAllows(ctx, a, b, found, piece, value, false);
      LeafAllows(ctx, b, piece, None, MAX_ENCODED_BODY);
      StoppedRefines(ctx, a, b, c, [Opened(found.key, piece, inner)], value, text, MAX_ENCODED_BODY);
    } else {
      RefusalAllows(ctx, a, b, c, found.key, piece, inner, text, MAX_ENCODED_BODY);
    }
  }

  lemma UnresolvedRefines(ctx: Context, a: View, b: View, c: View, placeholder: string, slot: Slot, readsFiles: bool, value: string, text: string)
    requires |placeholder| >= 4 && |a.filling| <= MAX_NESTING && a.expansions <= MAX_EXPANSIONS
    requires Resolves(ctx, a, b, NameOf(placeholder), value, false)
    requires Allows(ctx, b, [Leaf(Unresolved(ctx, placeholder, slot, readsFiles), None)], MAX_ENCODED_BODY, Outcome(c, text))
    ensures Allows(ctx, a, [ExpandOne(ctx, placeholder, slot, a.filling, readsFiles)], MAX_ENCODED_BODY, Outcome(c, text))
  {
    match Variable(ctx.variables, NameOf(placeholder))
    case None =>
    case Some(found) =>
      if found.key !in a.filling && |a.filling| < MAX_NESTING {
        UnopenedRefines(ctx, a, b, c, found, Unresolved(ctx, placeholder, slot, readsFiles), value, text);
      } else {
        LookedAtRefines(ctx, a, c, Unresolved(ctx, placeholder, slot, readsFiles), found.key, text, MAX_ENCODED_BODY);
      }
  }

  lemma RoundRefines(ctx: Context, a: View, b: View, input: string, owner: string, readsFiles: bool, n: nat, value: string)
    requires |a.filling| <= MAX_NESTING && n < |Spans(input)|
    requires Allows(ctx, a, [ExpandOne(ctx, Placeholder(input, n), Slot(owner, n), a.filling, readsFiles)], MAX_ENCODED_BODY, Outcome(b, value))
    ensures Allows(ctx, a, Round(ctx, input, owner, a.filling, readsFiles, n), MAX_ENCODED_BODY, Outcome(b, Gap(input, n) + value))
  {
    RefinesLiteral(ctx, a, Gap(input, n), MAX_ENCODED_BODY);
    RefinesThen(ctx, a, a, b, Literal(Gap(input, n)), [ExpandOne(ctx, Placeholder(input, n), Slot(owner, n), a.filling, readsFiles)],
                Gap(input, n), value, MAX_ENCODED_BODY);
  }

  lemma FirstRefines(ctx: Context, a: View, b: View, c: View, input: string, owner: string, readsFiles: bool, n: nat,
                     text: string, part: string, limit: nat)
    requires |a.filling| <= MAX_NESTING && n < |Spans(input)| && limit <= MAX_ENCODED_BODY && b.filling == a.filling
    requires Allows(ctx, a, ExpandFirst(ctx, input, owner, a.filling, readsFiles, n), limit, Outcome(b, text))
    requires Allows(ctx, b, Round(ctx, input, owner, a.filling, readsFiles, n), MAX_ENCODED_BODY, Outcome(c, part))
    ensures Allows(ctx, a, ExpandFirst(ctx, input, owner, a.filling, readsFiles, n + 1), limit, Outcome(c, text + part))
    ensures |text + part| > limit ==>
              Allows(ctx, a, Expand(ctx, input, owner, a.filling, readsFiles), limit, Outcome(c.(exceeded := true), ""))
  {
    var first := ExpandFirst(ctx, input, owner, a.filling, readsFiles, n);
    var round := Round(ctx, input, owner, a.filling, readsFiles, n);
    RefinesShorter(ctx, b, c, round, part, MAX_ENCODED_BODY, limit);
    RefinesThen(ctx, a, b, c, first, round, text, part, limit);
    if |text + part| > limit {
      FirstTooLong(ctx, a, c, input, owner, readsFiles, n + 1, text + part, limit);
    }
  }

  lemma FirstTooLong(ctx: Context, a: View, b: View, input: string, owner: string, readsFiles: bool, n: nat, text: string, limit: nat)
    requires |a.filling| <= MAX_NESTING && n <= |Spans(input)| && |text| > limit
    requires Allows(ctx, a, ExpandFirst(ctx, input, owner, a.filling, readsFiles, n), limit, Outcome(b, text))
    ensures Allows(ctx, a, Expand(ctx, input, owner, a.filling, readsFiles), limit, Outcome(b.(exceeded := true), ""))
  {
    var first, all := ExpandFirst(ctx, input, owner, a.filling, readsFiles, n), ExpandFirst(ctx, input, owner, a.filling, readsFiles, |Spans(input)|);
    ExpandFirstStarts(ctx, input, owner, a.filling, readsFiles, n, |Spans(input)|);
    StartsLonger(first, all, Literal(Tail(input)));
    StartTooLong(ctx, a, b, first, all + Literal(Tail(input)), text, limit);
  }

  lemma StartTooLong(ctx: Context, a: View, b: View, first: seq<Node>, whole: seq<Node>, text: string, limit: nat)
    requires Allows(ctx, a, first, limit, Outcome(b, text)) && |text| > limit && first <= whole
    ensures Allows(ctx, a, whole, limit, Outcome(b.(exceeded := true), ""))
  {
    assert first + whole[|first|..] == whole;
    RefinesTooLong(ctx, a, b, first, whole[|first|..], text, limit);
  }

  /** The text after the last placeholder. */
  lemma LastRefines(ctx: Context, a: View, b: View, input: string, owner: string, readsFiles: bool, text: string, limit: nat)
    requires |a.filling| <= MAX_NESTING
    requires Allows(ctx, a, ExpandFirst(ctx, input, owner, a.filling, readsFiles, |Spans(input)|), limit, Outcome(b, text))
    ensures Allows(ctx, a, Expand(ctx, input, owner, a.filling, readsFiles), limit, Outcome(b, text + Tail(input)))
  {
    RefinesLiteral(ctx, b, Tail(input), limit);
    RefinesThen(ctx, a, b, b, ExpandFirst(ctx, input, owner, a.filling, readsFiles, |Spans(input)|), Literal(Tail(input)), text, Tail(input), limit);
  }

  lemma RefinesNothing(ctx: Context, a: View, limit: nat)
    ensures Allows(ctx, a, [], limit, Outcome(a, ""))
  {
  }

  lemma KeptAllowed(ctx: Context, a: View, placeholder: string, limit: nat)
    requires |placeholder| >= 4
    ensures Allows(ctx, a, [Leaf(Kept(placeholder), None)], limit, Outcome(Noted(ctx, a, placeholder, false), placeholder))
  {
    LeafAllows(ctx, a, Kept(placeholder), None, limit);
    RenderSingle(ctx, a.memo, Kept(placeholder));
  }

  lemma GenerateAllowed(ctx: Context, a: View, b: View, placeholder: string, slot: Slot, readsFiles: bool, value: string, ok: bool)
    requires |placeholder| >= 4 && ctx.generates && ParseFileReference(NameOf(placeholder)).None?
    requires ok == ctx.answers(NameOf(placeholder)) && b == a.(memo := b.memo)
    requires if ok then Printed(value, b.memo) == PrintGenerated(ctx, a.memo, slot, NameOf(placeholder)) else b == a
    ensures Allows(ctx, a, [Leaf(Unresolved(ctx, placeholder, slot, readsFiles), None)], MAX_ENCODED_BODY,
                   Outcome(Noted(ctx, b, placeholder, ok), if ok then value else placeholder))
  {
    if ok {
      LeafAllows(ctx, a, Drawn(slot, NameOf(placeholder)), None, MAX_ENCODED_BODY);
      RenderSingle(ctx, a.memo, Drawn(slot, NameOf(placeholder)));
    } else {
      KeptAllowed(ctx, a, placeholder, MAX_ENCODED_BODY);
    }
  }

  /** A file reference starts with the prefix of generated names, so it is never noted as missing. */
  lemma FileAllowed(ctx: Context, a: View, b: View, placeholder: string, slot: Slot, value: string, ok: bool)
    requires |placeholder| >= 4 && ParseFileReference(NameOf(placeholder)).Some?
    requires var name := NameOf(placeholder);
             Allows(ctx, a, [Leaf(FromFile(name, ParseFileReference(name).value, placeholder), None)], MAX_ENCODED_BODY,
                    Outcome(b, if ok then value else placeholder))
    ensures Allows(ctx, a, [Leaf(Unresolved(ctx, placeholder, slot, true), None)], MAX_ENCODED_BODY,
                   Outcome(Noted(ctx, b, placeholder, ok), if ok then value else placeholder))
  {
    assert NameOf(placeholder)[0] == '$';
  }

  /** The slot lies in the value of its owner. */
  ghost predicate IsSlot(ctx: Context, slot: Slot) {
    slot.owner in ctx.variables && slot.index < |Spans(ctx.variables[slot.owner])|
  }

  ghost function SlotName(ctx: Context, slot: Slot): string
    requires IsSlot(ctx, slot)
  {
    NameOf(Placeholder(ctx.variables[slot.owner], slot.index))
  }

  /** The states a substitution can be in: the budget and what was handed out add up, the stack
      has no repeats and at most `MAX_NESTING` names, the counters stay within their limits,
      and only placeholders a generator answers for have generated values. */
  ghost predicate IsState(ctx: Context, v: View) {
    && 0 <= v.budget && v.budget + v.produced == MAX_ENCODED_BODY
    && Distinct(v.filling) && |v.filling| <= MAX_NESTING
    && v.expansions <= MAX_EXPANSIONS && v.total <= MAX_REQUEST_EXPANSIONS
    && Distinct(v.memo.missing)
    && forall slot :: slot in v.memo.generated ==> slot.owner != "" && IsSlot(ctx, slot) && ctx.answers(SlotName(ctx, slot))
  }

  ghost function States(ctx: Context): iset<View> {
    iset v: View | IsState(ctx, v)
  }

  /** A text is filled on behalf of the variable it is the value of, or of nobody. */
  ghost predicate Owns(ctx: Context, owner: string, text: string) {
    owner == "" || (owner in ctx.variables && ctx.variables[owner] == text)
  }

  ghost predicate IsPlaceholderAt(ctx: Context, slot: Slot, placeholder: string) {
    && |placeholder| >= 4
    && (slot.owner != "" ==> IsSlot(ctx, slot) && NameOf(placeholder) == SlotName(ctx, slot))
  }

  class Substitution {
    const ctx: Context
    var state: View

    ghost predicate Valid()
      reads this
    {
      state in States(ctx)
    }

    constructor (ctx: Context)
      ensures Valid() && state.Clean() && this.ctx == ctx
      ensures state == Fresh()
    {
      this.ctx := ctx;
      state := Fresh();
    }

    /** Failures are reported in this order. */
    function FailureOf(): (f: Option<Failure>)
      reads this
      ensures f.None? <==> !state.fileFailed && !state.exceeded && !state.overworked
    {
      if state.fileFailed then Some(FileFailed)
      else if state.exceeded then Some(TooLarge)
      else if state.overworked then Some(Overworked)
      else None
    }

    method Spend() returns (ok: bool)
      requires Valid()
      modifies this
      ensures Valid()
      ensures (state, ok) == Spent(old(state))
      ensures ok <==> !old(state).exceeded && !old(state).overworked && old(state).Room() > 0
      ensures state.overworked <==> old(state).overworked || old(state).total >= MAX_REQUEST_EXPANSIONS
    {
      state := state.(overworked := state.overworked || state.total >= MAX_REQUEST_EXPANSIONS);
      if state.exceeded || state.overworked || state.expansions >= MAX_EXPANSIONS {
        return false;
      }
      state := state.(expansions := state.expansions + 1, total := state.total + 1);
      return true;
    }

    method NoteMissing(name: string)
      requires Valid()
      modifies this
      ensures Valid() && state == old(state).(memo := Expansion.NoteMissing(ctx, old(state.memo), name))
    {
      if IsUndefined(ctx, name) && name !in state.memo.missing {
        state := state.(memo := state.memo.(missing := state.memo.missing + [name]));
      }
    }

    method Generate(name: string, slot: Slot) returns (value: string, ok: bool)
      requires Valid()
      requires slot.owner != "" ==> IsSlot(ctx, slot) && name == SlotName(ctx, slot)
      modifies this
      ensures Valid()
      ensures ok <==> ctx.answers(name)
      ensures state == old(state).(memo := state.memo)
      ensures if ok then Printed(value, state.memo) == PrintGenerated(ctx, old(state).memo, slot, name) else state == old(state)
    {
      if slot in state.memo.generated {
        return state.memo.generated[slot], true;
      }
      if !ctx.answers(name) {
        return "", false;
      }
      value := ctx.draw(name, state.memo.draws);
      var memo := state.memo.(draws := state.memo.draws + 1);
      state := state.(memo := if slot.owner != "" then memo.(generated := memo.generated[slot := value]) else memo);
      ok := true;
    }

    /** `substitution.file`. */
    method File(name: string, reference: FileReference, ghost placeholder: string) returns (value: string, ok: bool)
      requires Valid()
      modifies this
      ensures Valid()
      ensures Allows(ctx, old(state), [Leaf(FromFile(name, reference, placeholder), None)], MAX_ENCODED_BODY, Outcome(state, if ok then value else placeholder))
      ensures state.fileFailed <==> old(state).fileFailed || (ReadsNow(ctx, old(state), name) && ctx.files.value(reference).None?)
      ensures state.exceeded <==> old(state).exceeded || (ReadsNow(ctx, old(state), name) && ReadsTooMuch(ctx, old(state), reference))
      ensures state.overworked == old(state).overworked
    {
      LeafAllows(ctx, state, FromFile(name, reference, placeholder), None, MAX_ENCODED_BODY);
      RenderSingle(ctx, state.memo, FromFile(name, reference, placeholder));
      if ctx.files.None? {
        return "", false;
      }
      if name in state.memo.read {
        return state.memo.read[name], true;
      }
      if state.exceeded || state.fileFailed {
        return "", false;
      }
      match ctx.files.value(reference)
      case None =>
        state := state.(fileFailed := true);
        return "", false;
      case Some(data) =>
        state := state.(memo := state.memo.(fileBytes := state.memo.fileBytes + data.size));
        if state.memo.fileBytes > MAX_REQUEST_BODY {
          state := state.(exceeded := true);
          return "", false;
        }
        state := state.(memo := state.memo.(read := state.memo.read[name := data.text]));
        return data.text, true;
    }

    /** Fill the value of a variable one level deeper. */
    method FillDeeper(name: string, value: string) returns (filled: string, ok: bool)
      requires Valid() && name in ctx.variables && ctx.variables[name] == value
      requires name !in state.filling && |state.filling| < MAX_NESTING
      modifies this
      ensures Valid() && (state, filled, ok) in Deepenings(ctx, old(state), Found(name, value))
      decreases MAX_NESTING - |state.filling|, 0
    {
      ghost var before := state;
      state := state.(filling := state.filling + [name]);
      filled, ok := Fill(value, false, MAX_ENCODED_BODY, name);
      ghost var done := state;
      state := state.(filling := state.filling[..|state.filling| - 1]);
      assert state.filling == before.filling;
      assert done == state.(filling := before.filling + [name]);
    }

    method Nested(name: string, value: string) returns (filled: string, ok: bool)
      requires Valid() && name in ctx.variables && ctx.variables[name] == value
      modifies this
      ensures Valid()
      ensures (state, filled, ok) in Nestings(ctx, old(state), Found(name, value))
      decreases MAX_NESTING - |state.filling|, 2
    {
      if Spans(value) == [] || name in state.filling || |state.filling| >= MAX_NESTING {
        state := state.(seen := state.seen + {name});
        filled, ok := value, Spans(value) == [];
      } else {
        filled, ok := Open(name, value);
      }
    }

    /** Spend one unit of work, then fill the value. */
    method Open(name: string, value: string) returns (filled: string, ok: bool)
      requires Valid() && name in ctx.variables && ctx.variables[name] == value
      requires Spans(value) != [] && name !in state.filling && |state.filling| < MAX_NESTING
      modifies this
      ensures Valid()
      ensures (state, filled, ok) in Nestings(ctx, old(state), Found(name, value))
      decreases MAX_NESTING - |state.filling|, 1
    {
      ghost var before := state;
      filled := value;
      state := state.(seen := state.seen + {name});
      ok := Spend();
      if ok {
        filled, ok := FillDeeper(name, value);
      }
    }

    method Resolve(name: string) returns (value: string, ok: bool)
      requires Valid()
      modifies this
      ensures Valid()
      ensures Resolves(ctx, old(state), state, name, value, ok)
      decreases MAX_NESTING - |state.filling|, 3
    {
      var variable := Variable(ctx.variables, name);
      if variable.None? {
        return "", false;
      }
      value, ok := Nested(variable.value.key, variable.value.value);
    }

    /** The part of `lookup` after `resolve`: a file or a generated value. */
    method FallBack(placeholder: string, readsFiles: bool, slot: Slot) returns (value: string, ok: bool)
      requires Valid() && IsPlaceholderAt(ctx, slot, placeholder)
      modifies this
      ensures Valid()
      ensures Allows(ctx, old(state), [Leaf(Unresolved(ctx, placeholder, slot, readsFiles), None)], MAX_ENCODED_BODY,
                     Outcome(Noted(ctx, state, placeholder, ok), if ok then value else placeholder))
    {
      var name := NameOf(placeholder);
      ghost var before := state;
      value, ok := "", false;
      var reference := ParseFileReference(name);
      if reference.Some? && readsFiles {
        value, ok := File(name, reference.value, placeholder);
        FileAllowed(ctx, before, state, placeholder, slot, value, ok);
      } else if reference.None? && ctx.generates {
        value, ok := Generate(name, slot);
        GenerateAllowed(ctx, before, state, placeholder, slot, readsFiles, value, ok);
      } else {
        KeptAllowed(ctx, before, placeholder, MAX_ENCODED_BODY);
      }
    }

    method Lookup(placeholder: string, readsFiles: bool, slot: Slot) returns (value: string, ok: bool)
      requires Valid() && IsPlaceholderAt(ctx, slot, placeholder)
      modifies this
      ensures Valid()
      ensures Allows(ctx, old(state), [ExpandOne(ctx, placeholder, slot, old(state).filling, readsFiles)], MAX_ENCODED_BODY,
                     Outcome(Noted(ctx, state, placeholder, ok), if ok then value else placeholder))
      decreases MAX_NESTING - |state.filling|, 4
    {
      ghost var before := state;
      value, ok := Resolve(NameOf(placeholder));
      if ok {
        ResolvedRefines(ctx, before, state, placeholder, slot, readsFiles, value);
        return;
      }
      ghost var after, unused := state, value;
      value, ok := FallBack(placeholder, readsFiles, slot);
      UnresolvedRefines(ctx, before, after, Noted(ctx, state, placeholder, ok), placeholder, slot, readsFiles, unused, if ok then value else placeholder);
    }

    /** One round of the loop of `fill`. */
    method FillRound(input: string, readsFiles: bool, owner: string, n: nat) returns (part: string)
      requires Valid() && Owns(ctx, owner, input) && n < |Spans(input)|
      modifies this
      ensures Valid()
      ensures Allows(ctx, old(state), Round(ctx, input, owner, old(state).filling, readsFiles, n), MAX_ENCODED_BODY, Outcome(state, part))
      decreases MAX_NESTING - |state.filling|, 5
    {
      ghost var before := state;
      var placeholder := Placeholder(input, n);
      var value, ok := Lookup(placeholder, readsFiles, Slot(owner, n));
      if !ok {
        NoteMissing(NameOf(placeholder));
        value := placeholder;
      }
      RoundRefines(ctx, before, state, input, owner, readsFiles, n, value);
      part := Gap(input, n) + value;
    }

    /** One round, after the first `n` have given `filled`. */
    method FillNext(input: string, readsFiles: bool, owner: string, n: nat, limit: nat, filled: string, ghost before: View) returns (longer: string)
      requires Valid() && Owns(ctx, owner, input) && n < |Spans(input)| && limit <= MAX_ENCODED_BODY && state.filling == before.filling
      requires Allows(ctx, before, ExpandFirst(ctx, input, owner, before.filling, readsFiles, n), limit, Outcome(state, filled))
      modifies this
      ensures Valid() && state.filling == before.filling
      ensures Allows(ctx, before, ExpandFirst(ctx, input, owner, before.filling, readsFiles, n + 1), limit, Outcome(state, longer))
      ensures |longer| > limit ==>
                Allows(ctx, before, Expand(ctx, input, owner, before.filling, readsFiles), limit, Outcome(state.(exceeded := true), ""))
      decreases MAX_NESTING - |state.filling|, 6
    {
      ghost var reached := state;
      var part := FillRound(input, readsFiles, owner, n);
      FirstRefines(ctx, before, reached, state, input, owner, readsFiles, n, filled, part, limit);
      longer := filled + part;
    }

    /** The loop of `fill`. */
    method FillSpans(input: string, readsFiles: bool, limit: nat, owner: string) returns (filled: string, ok: bool)
      requires Valid() && Owns(ctx, owner, input) && limit <= MAX_ENCODED_BODY
      modifies this
      ensures Valid() && state.filling == old(state).filling
      ensures ok ==> Allows(ctx, old(state), ExpandFirst(ctx, input, owner, old(state).filling, readsFiles, |Spans(input)|), limit, Outcome(state, filled))
      ensures !ok ==> Allows(ctx, old(state), Expand(ctx, input, owner, old(state).filling, readsFiles), limit, Outcome(state.(exceeded := true), ""))
      decreases MAX_NESTING - |state.filling|, 7
    {
      filled, ok := "", true;
      ghost var before := state;
      ghost var path := before.filling;
      ghost var first, whole := ExpandFirst(ctx, input, owner, path, readsFiles, 0), Expand(ctx, input, owner, path, readsFiles);
      RefinesNothing(ctx, before, limit);
      var index := 0;
      while ok && index < |Spans(input)|
        invariant index <= |Spans(input)|
        invariant Valid() && state.filling == path
        invariant first == ExpandFirst(ctx, input, owner, path, readsFiles, index)
        invariant if ok then Allows(ctx, before, first, limit, Outcome(state, filled))
                  else Allows(ctx, before, whole, limit, Outcome(state.(exceeded := true), ""))
      {
        filled := FillNext(input, readsFiles, owner, index, limit, filled, before);
        ok := |filled| <= limit;
        index := index + 1;
        first := ExpandFirst(ctx, input, owner, path, readsFiles, index);
      }
    }

    method Fill(input: string, readsFiles: bool, limit: nat, owner: string) returns (filled: string, ok: bool)
      requires Valid() && Owns(ctx, owner, input) && limit <= MAX_ENCODED_BODY
      modifies this
      ensures Valid()
      ensures if ok then |filled| <= limit else state.exceeded
      ensures Allows(ctx, old(state), Expand(ctx, input, owner, old(state).filling, readsFiles), limit, Outcome(state, filled))
      decreases MAX_NESTING - |state.filling|, 8
    {
      ghost var before := state;
      filled, ok := FillSpans(input, readsFiles, limit, owner);
      if ok {
        LastRefines(ctx, before, state, input, owner, readsFiles, filled, limit);
        filled := filled + Tail(input);
        if |filled| > limit {
          ghost var whole := Expand(ctx, input, owner, before.filling, readsFiles);
          StartTooLong(ctx, before, state, whole, whole, filled, limit);
          filled, ok := "", false;
        }
      }
      if !ok {
        state := state.(exceeded := true);
      }
    }

    /** Substitute one text. There is no failure exactly when the text fits; then the result is its meaning,
        with variables opened until one call has opened as many as it may, and it is taken off the budget. */
    method Apply(input: string) returns (result: string)
      requires Valid() && state.filling == []
      modifies this
      ensures Valid() && state.filling == []
      ensures old(state).exceeded ==> result == input && state == old(state) && FailureOf().Some?
      ensures !state.exceeded ==> state.produced == old(state).produced + |result|
      ensures !old(state).exceeded ==>
                && state.seen <= old(state).seen + AllSeen(Meaning(ctx, input))
                && KeepsSlots(old(state).memo.generated, state.memo.generated)
                && state.total <= old(state).total + Size(Meaning(ctx, input))
      ensures FailureOf().None? <==> Fits(ctx, old(state), input)
      ensures FailureOf().None? ==>
                var trace := Unfolding(ctx, old(state), input);
                && Printed(result, state.memo) == Render(ctx, old(state).memo, trace.pieces)
                && state.budget == old(state).budget - |result|
                && state.total == old(state).total + trace.work
                && state.seen == old(state).seen + trace.seen
    {
      result := input;
      if !state.exceeded {
        result := ApplyLive(input);
      }
    }

    /** The part of `apply` that is left once nothing is exceeded. */
    method ApplyLive(input: string) returns (result: string)
      requires Valid() && state.filling == [] && !state.exceeded
      modifies this
      ensures Valid() && (state, result) in Applications(ctx, old(state), input)
    {
      ghost var before := state;
      state := state.(expansions := 0);
      ghost var begun := state;
      var filled, ok := Fill(input, true, state.budget, "");
      ApplyDone(ctx, before, begun, state, input, filled, ok);
      state := Paid(state, filled, ok);
      result := if ok then filled else input;
    }
  }

  /** What applying a text to a state where nothing is exceeded gives. */
  ghost function Applications(ctx: Context, before: View, input: string): iset<(View, string)> {
    var trace := Unfolding(ctx, before, input);
    iset done: (View, string) |
      && done.0.filling == []
      && (!done.0.exceeded ==> done.0.produced == before.produced + |done.1|)
      && (done.0.Clean() <==> Fits(ctx, before, input))
      && done.0.seen <= before.seen + AllSeen(Meaning(ctx, input))
      && KeepsSlots(before.memo.generated, done.0.memo.generated)
      && done.0.total <= before.total + Size(Meaning(ctx, input))
      && (done.0.Clean() ==>
            && Printed(done.1, done.0.memo) == Render(ctx, before.memo, trace.pieces)
            && done.0.budget == before.budget - |done.1| && done.0.total == before.total + trace.work
            && done.0.seen == before.seen + trace.seen)
  }

  /** The meaning of a text of the request, before any limit on the work. */
  ghost function Meaning(ctx: Context, input: string): seq<Node> {
    Expand(ctx, input, "", [], true)
  }

  /** What is printed for it: the first variables are opened, as many as one call and the whole request allow. */
  ghost function Unfolding(ctx: Context, before: View, input: string): Trace {
    Flat(Meaning(ctx, input), before.(expansions := 0).Room())
  }

  /** What a caller can check beforehand: nothing failed so far, the text does not open more variables than the whole
      request may, the files can be read, and the result is within the budget. */
  ghost predicate Fits(ctx: Context, before: View, input: string) {
    var trace := Unfolding(ctx, before, input);
    var printed := Render(ctx, before.memo, trace.pieces);
    && before.Clean() && !before.(expansions := 0).Overworks(trace)
    && printed.Printed? && |printed.text| <= before.budget
  }

  /** A text opens too many variables for the whole request exactly when the request has at most as many left as one
      call may open, and the text needs more. */
  lemma OverworksExactly(ctx: Context, before: View, input: string)
    requires before.total <= MAX_REQUEST_EXPANSIONS
    ensures var left := MAX_REQUEST_EXPANSIONS - before.total;
            before.(expansions := 0).Overworks(Unfolding(ctx, before, input)) <==> left <= MAX_EXPANSIONS && Size(Meaning(ctx, input)) > left
  {
    FlatFits(Meaning(ctx, input), before.(expansions := 0).Room());
  }

  /** A text that could be filled is taken off the budget. */
  function Paid(after: View, filled: string, ok: bool): View {
    if ok then after.(budget := after.budget - |filled|, produced := after.produced + |filled|) else after
  }

  lemma PaidIsState(ctx: Context, after: View, filled: string, ok: bool)
    requires after in States(ctx) && (ok ==> |filled| <= after.budget)
    ensures Paid(after, filled, ok) in States(ctx)
  {
  }

  lemma ApplyDone(ctx: Context, before: View, begun: View, after: View, input: string, filled: string, ok: bool)
    requires begun == before.(expansions := 0) && before.filling == [] && !before.exceeded && before.budget >= 0
    requires Allows(ctx, begun, Meaning(ctx, input), before.budget, Outcome(after, filled)) && after in States(ctx)
    requires if ok then |filled| <= before.budget else after.exceeded
    ensures Paid(after, filled, ok) in States(ctx)
    ensures (Paid(after, filled, ok), if ok then filled else input) in Applications(ctx, before, input)
  {
    PaidIsState(ctx, after, filled, ok);
    FlatCounts(Meaning(ctx, input), begun.Room());
    ApplyExact(ctx, before, begun, after, input, filled, ok);
  }

  lemma ApplyExact(ctx: Context, before: View, begun: View, after: View, input: string, filled: string, ok: bool)
    requires begun == before.(expansions := 0) && before.filling == [] && !before.exceeded && before.budget >= 0
    requires Allows(ctx, begun, Meaning(ctx, input), before.budget, Outcome(after, filled)) && after in States(ctx)
    requires if ok then |filled| <= before.budget else after.exceeded
    ensures after.Clean() <==> Fits(ctx, before, input)
    ensures after.Clean() ==>
              var trace := Unfolding(ctx, before, input);
              && Printed(filled, after.memo) == Render(ctx, before.memo, trace.pieces)
              && after.total == before.total + trace.work && after.seen == before.seen + trace.seen
  {
  }
}
