/** When the variables that `variablesSent` of `agent/scope.go` lists cover what the substitution engine looks at. */
module Coverage {
  import opened Text
  import opened Placeholders
  import opened Expansion
  import opened SubstitutionEngine
  import opened Lookups
  import opened Scope
  import opened ExpansionRuns

  /** The variables the substitution engine is given for the same values (`parseVariables`). */
  function EngineVariables(values: Values): map<string, string> {
    map name | name in values && !values[name].Null? :: if values[name].Plain? then values[name].text else values[name].compact
  }

  /** The engine is given these values; what it may read from files or generators is open. */
  ghost predicate IsEngineFor(ctx: Context, values: Values) {
    ctx.variables == EngineVariables(values)
  }

  /** For every request, everything the engine looks at is in the list, when it may open `left` variables for a text. */
  ghost predicate CoversEngine(ctx: Context, values: Values, left: nat) {
    forall texts: seq<string>, i, name ::
      0 <= i < |texts| && name in Flat(Meaning(ctx, texts[i]), left).seen ==> Reachable(values, texts, name)
  }

  /** Some placeholder has this name. */
  predicate IsName(name: string) {
    TrimSpace(name) == name && '}' !in name
  }

  /** Some placeholder can ask for this variable. */
  ghost predicate Askable(values: Values, name: string) {
    name in EngineVariables(values) && IsName(name)
  }

  /** References lead from one name to the other. */
  ghost predicate Leads(values: Values, from: string, to: string) {
    exists chain :: IsPath(values, chain) && chain[0] == from && chain[|chain| - 1] == to
  }

  /** The name listed for a placeholder of this name leads to it. */
  ghost predicate IsKept(values: Values, name: string) {
    match PromptName(name)
    case None => !HasPrefix(name, DYNAMIC_PREFIX)
    case Some(asked) => !HasPrefix(asked, DYNAMIC_PREFIX) && Leads(values, asked, name)
  }

  /** The first condition: no variable that can be asked for starts with `$`, and one that is named like a
      prompt is reached by references from the name the prompt asks for. */
  ghost predicate NamesAreKept(values: Values) {
    forall name :: Askable(values, name) ==> IsKept(values, name)
  }

  /** The second: what is asked for inside a value that is no string is that variable itself. */
  ghost predicate OthersAskForThemselves(values: Values) {
    forall name, asked :: Askable(values, name) && values[name].Other? && AsksFor(EngineVariables(values), values[name].compact, asked)
      ==> asked == name
  }

  // Names of placeholders.

  lemma SpanMatches(text: string, n: nat)
    requires n < |Spans(text)|
    ensures IsMatch(text, Spans(text)[n].start, Spans(text)[n].end)
  {
    SpansAreLeftmost(text, 0);
  }

  lemma MatchHasNoClose(text: string, start: nat, end: nat)
    requires IsMatch(text, start, end)
    ensures '}' !in text[start..end][2..end - start - 2]
  {
    var inner := text[start..end][2..end - start - 2];
    assert forall i :: 0 <= i < |inner| ==> inner[i] == text[start + 2 + i];
  }

  lemma InsideHasNoClose(text: string, n: nat)
    requires n < |Spans(text)|
    ensures '}' !in Placeholder(text, n)[2..|Placeholder(text, n)| - 2]
  {
    SpanMatches(text, n);
    MatchHasNoClose(text, Spans(text)[n].start, Spans(text)[n].end);
  }

  lemma PlaceholderIsName(text: string, n: nat)
    requires n < |Spans(text)|
    ensures IsName(NameOf(Placeholder(text, n)))
  {
    var placeholder := Placeholder(text, n);
    InsideHasNoClose(text, n);
    TrimmedIsName(placeholder[2..|placeholder| - 2]);
  }

  lemma TrimmedIsName(inside: string)
    requires '}' !in inside
    ensures IsName(TrimSpace(inside))
  {
    TrimSpaceKeepsCharacters(inside);
  }

  lemma PromptIsName(name: string)
    requires IsName(name) && PromptName(name).Some?
    ensures IsName(PromptName(name).value)
  {
    assert forall c :: c in name[1..] ==> c in name;
    TrimmedIsName(name[1..]);
  }

  /** What a name resolves to can be asked for by that very name. */
  lemma ResolvedIsAskable(values: Values, name: string, key: string)
    requires IsName(name) && ResolvesTo(EngineVariables(values), name, key)
    ensures Askable(values, key) && (key == name || (PromptName(name) == Some(key) && name !in EngineVariables(values)))
  {
    if key != name {
      PromptIsName(name);
    }
  }

  // If both hold, everything looked at is listed.

  ghost function Reached(values: Values, texts: seq<string>): iset<string> {
    iset name | Reachable(values, texts, name)
  }

  lemma {:induction false} PathReaches(values: Values, texts: seq<string>, chain: seq<string>)
    requires IsPath(values, chain) && Reachable(values, texts, chain[0])
    ensures Reachable(values, texts, chain[|chain| - 1])
    decreases |chain|
  {
    if |chain| > 1 {
      var init := chain[..|chain| - 1];
      PathReaches(values, texts, init);
      ReferenceIsReachable(values, texts, init[|init| - 1], chain[|chain| - 1]);
    }
  }

  lemma LeadReaches(values: Values, texts: seq<string>, from: string, to: string)
    requires Leads(values, from, to) && Reachable(values, texts, from)
    ensures Reachable(values, texts, to)
  {
    var chain :| IsPath(values, chain) && chain[0] == from && chain[|chain| - 1] == to;
    PathReaches(values, texts, chain);
  }

  lemma DollarIsNoPrompt(name: string)
    requires HasPrefix(name, DYNAMIC_PREFIX)
    ensures PromptName(name).None?
  {
    assert name[0] == '$';
  }

  /** The variable a name resolves to is reached from the name listed for it. */
  lemma ResolvedIsReached(values: Values, texts: seq<string>, name: string, key: string)
    requires NamesAreKept(values) && IsName(name) && ResolvesTo(EngineVariables(values), name, key)
    requires forall listed :: listed in ListedFor(name) ==> Reachable(values, texts, listed)
    ensures Reachable(values, texts, key)
  {
    ResolvedIsAskable(values, name, key);
    assert IsKept(values, key);
    if key == name && PromptName(name).Some? {
      assert ListedFor(name) == [PromptName(name).value];
      LeadReaches(values, texts, PromptName(name).value, key);
    } else if HasPrefix(key, DYNAMIC_PREFIX) {
      DollarIsNoPrompt(key);
    } else {
      assert ListedFor(name) == [key];
    }
  }

  /** What a text asks for is reached, if what is listed for it is. */
  lemma AskedIsReached(values: Values, texts: seq<string>, text: string, asked: string)
    requires NamesAreKept(values) && AsksFor(EngineVariables(values), text, asked)
    requires forall name :: name in VariablesIn(text) ==> Reachable(values, texts, name)
    ensures Reachable(values, texts, asked)
  {
    var n :| 0 <= n < |Spans(text)| && ResolvesTo(EngineVariables(values), NameOf(Placeholder(text, n)), asked);
    var name := NameOf(Placeholder(text, n));
    forall listed | listed in ListedFor(name) ensures Reachable(values, texts, listed) {
      FlattenHas(ListedIn(text), n, listed);
    }
    PlaceholderIsName(text, n);
    ResolvedIsReached(values, texts, name, asked);
  }

  lemma AskedInsideIsReached(values: Values, texts: seq<string>, key: string, asked: string)
    requires NamesAreKept(values) && OthersAskForThemselves(values) && Reachable(values, texts, key)
    requires key in EngineVariables(values) && AsksFor(EngineVariables(values), EngineVariables(values)[key], asked)
    requires values[key].Other? ==> IsName(key)
    ensures Reachable(values, texts, asked)
  {
    if values[key].Plain? {
      forall name | name in VariablesIn(values[key].text) ensures Reachable(values, texts, name) {
        ReferenceIsReachable(values, texts, key, name);
      }
      AskedIsReached(values, texts, values[key].text, asked);
    }
  }

  lemma RootIsName(texts: seq<string>, name: string)
    requires IsRoot(texts, name)
    ensures IsName(name)
  {
    var i :| 0 <= i < |texts| && name in VariablesIn(texts[i]);
    ListedIsName(texts[i], name);
  }

  lemma ListedForIsName(name: string, listed: string)
    requires IsName(name) && listed in ListedFor(name)
    ensures IsName(listed)
  {
    if PromptName(name).Some? {
      PromptIsName(name);
    }
  }

  lemma ListedIsName(text: string, name: string)
    requires name in VariablesIn(text)
    ensures IsName(name)
  {
    var n := FlattenSome(ListedIn(text), name);
    PlaceholderListsName(text, n, name);
  }

  lemma PlaceholderListsName(text: string, n: nat, name: string)
    requires n < |Spans(text)| && name in ListedFor(NameOf(Placeholder(text, n)))
    ensures IsName(name)
  {
    PlaceholderIsName(text, n);
    ListedForIsName(NameOf(Placeholder(text, n)), name);
  }

  lemma ReachableIsName(values: Values, texts: seq<string>, name: string)
    requires Reachable(values, texts, name)
    ensures IsName(name)
  {
    var chain :| IsChain(values, texts, chain) && chain[|chain| - 1] == name;
    if |chain| == 1 {
      RootIsName(texts, name);
    } else {
      var text := PlainValue(values, chain[|chain| - 2]).value;
      assert name in VariablesIn(text);
      ListedIsName(text, name);
    }
  }

  lemma KeptIsCovered(ctx: Context, values: Values, texts: seq<string>, i: nat, name: string)
    requires IsEngineFor(ctx, values) && NamesAreKept(values) && OthersAskForThemselves(values)
    requires i < |texts| && name in AllSeen(Meaning(ctx, texts[i]))
    ensures Reachable(values, texts, name)
  {
    var reached := Reached(values, texts);
    forall key, asked | key in reached && key in ctx.variables && AsksFor(ctx.variables, ctx.variables[key], asked)
      ensures asked in reached {
      ReachableIsName(values, texts, key);
      AskedInsideIsReached(values, texts, key, asked);
    }
    forall asked | AsksFor(ctx.variables, texts[i], asked) ensures asked in reached {
      forall root | root in VariablesIn(texts[i]) ensures Reachable(values, texts, root) {
        RootIsReachable(values, texts, root);
      }
      AskedIsReached(values, texts, texts[i], asked);
    }
    SeenStaysInside(ctx, texts[i], "", [], true, reached, name);
  }

  // A text that asks for one name and nothing else.

  function Asking(name: string): string {
    if name == "" then "{{ }}" else "{{" + name + "}}"
  }

  ghost predicate AsksOnly(text: string, name: string) {
    Spans(text) == [Span(0, |text|)] && |text| >= 5 && NameOf(text) == name
  }

  lemma AskingAsks(name: string)
    requires IsName(name)
    ensures AsksOnly(Asking(name), name)
  {
    if name == "" {
      assert IsMatch("{{ }}", 0, 5);
      MatchEndUnique("{{ }}", 0, MatchEnd("{{ }}", 0).value, 5);
      assert Spans("{{ }}", 5) == [];
      assert "{{ }}"[2..3] == " " && " "[1..] == "";
    } else {
      VariableNameExact(name);
    }
  }

  lemma AsksOnlyAsks(variables: map<string, string>, text: string, name: string, key: string)
    requires AsksOnly(text, name) && ResolvesTo(variables, name, key)
    ensures AsksFor(variables, text, key)
  {
    assert Placeholder(text, 0) == text;
  }

  lemma FlattenOne(list: seq<string>)
    ensures Flatten([list]) == list
  {
    assert [list][1..] == [];
    assert list + [] == list;
  }

  lemma AsksOnlyLists(text: string, name: string)
    requires AsksOnly(text, name)
    ensures VariablesIn(text) == ListedFor(name)
  {
    assert Placeholder(text, 0) == text;
    assert ListedIn(text) == [ListedFor(name)];
    FlattenOne(ListedFor(name));
  }

  /** Nothing is reached but by references from what is listed. */
  lemma {:induction false} ReachedFrom(values: Values, text: string, chain: seq<string>)
    requires IsChain(values, [text], chain)
    ensures chain[0] in VariablesIn(text) && Leads(values, chain[0], chain[|chain| - 1])
  {
    var i :| 0 <= i < |[text]| && chain[0] in VariablesIn([text][i]);
  }

  lemma SeenButNotReached(ctx: Context, values: Values, text: string, name: string, left: nat)
    requires name in Flat(Meaning(ctx, text), left).seen && !Reachable(values, [text], name)
    ensures !CoversEngine(ctx, values, left)
  {
    var texts := [text];
    assert name in Flat(Meaning(ctx, texts[0]), left).seen;
  }

  /** A variable whose name is not kept escapes: the engine looks at it, but it is not listed. */
  lemma UnkeptNameEscapes(ctx: Context, values: Values, name: string, left: nat)
    requires IsEngineFor(ctx, values) && Askable(values, name) && !IsKept(values, name)
    ensures !CoversEngine(ctx, values, left)
  {
    var text := Asking(name);
    AskingAsks(name);
    AsksOnlyAsks(ctx.variables, text, name, name);
    AskedIsLookedAt(ctx, text, "", [], true, name, left);
    AsksOnlyLists(text, name);
    UnkeptIsNotReached(values, text, name);
    SeenButNotReached(ctx, values, text, name, left);
  }

  lemma UnkeptIsNotReached(values: Values, text: string, name: string)
    requires VariablesIn(text) == ListedFor(name) && !IsKept(values, name)
    ensures !Reachable(values, [text], name)
  {
    forall chain | IsChain(values, [text], chain) ensures chain[|chain| - 1] != name {
      ReachedFrom(values, text, chain);
    }
  }

  // A prompt that asks for a variable by no variable's own name.

  function Blanks(n: nat): (s: string)
    ensures |s| == n && forall i :: 0 <= i < n ==> s[i] == ' '
  {
    seq(n, _ => ' ')
  }

  lemma {:induction false} BlanksAreTrimmed(n: nat, name: string)
    ensures TrimLeft(Blanks(n) + name) == TrimLeft(name)
  {
    if n == 0 {
      assert Blanks(0) + name == name;
    } else {
      var s := Blanks(n) + name;
      assert s[0] == ' ' && s[1..] == Blanks(n - 1) + name;
      BlanksAreTrimmed(n - 1, name);
    }
  }

  /** A character before a text does not make its end white space. */
  lemma TrailingStays(first: char, name: string)
    requires name != "" && TrailingSpace(name) == 0 && first as int < 128
    ensures TrailingSpace([first] + name) == 0
  {
    var s := [first] + name;
    assert s[|s| - 1] == name[|name| - 1];
    assert |name| >= 2 ==> s[|s| - 2..] == name[|name| - 2..];
    assert |name| == 1 ==> s[|s| - 2..] == s;
    assert |name| >= 3 ==> s[|s| - 3..] == name[|name| - 3..];
    assert |name| == 2 ==> s[|s| - 3..] == s;
  }

  lemma {:induction false} BlanksKeepTrailing(n: nat, name: string)
    requires name != "" && TrailingSpace(name) == 0
    ensures TrailingSpace(Blanks(n) + name) == 0
  {
    if n == 0 {
      assert Blanks(0) + name == name;
    } else {
      BlanksKeepTrailing(n - 1, name);
      OneBlankMore(n, name);
      TrailingStays(' ', Blanks(n - 1) + name);
    }
  }

  lemma OneBlankMore(n: nat, name: string)
    requires n > 0
    ensures Blanks(n) + name == [' '] + (Blanks(n - 1) + name) && (name != "" ==> Blanks(n - 1) + name != "")
  {
  }

  function SpacedPrompt(n: nat, name: string): string {
    "?" + (Blanks(n) + name)
  }

  lemma TrimmedEnds(name: string)
    requires TrimSpace(name) == name
    ensures LeadingSpace(name) == 0 && TrailingSpace(name) == 0
  {
    var lead, trail := TrimSpaceTrims(name);
  }

  lemma SpacedPromptAsks(n: nat, name: string)
    requires IsName(name) && name != ""
    ensures IsName(SpacedPrompt(n, name)) && PromptName(SpacedPrompt(n, name)) == Some(name)
  {
    var inner := Blanks(n) + name;
    var s := SpacedPrompt(n, name);
    TrimmedEnds(name);
    BlanksAreTrimmed(n, name);
    BlanksKeepTrailing(n, name);
    TrailingStays('?', inner);
    assert s == ['?'] + inner && s[1..] == inner;
    QuestionMarkStays(s);
  }

  lemma QuestionMarkStays(s: string)
    requires s != "" && s[0] == '?' && TrailingSpace(s) == 0
    ensures TrimSpace(s) == s
  {
    assert LeadingSpace(s) == 0;
  }

  lemma {:induction false} LongerThanAll(names: set<string>) returns (n: nat)
    ensures forall name :: name in names ==> |name| < n
  {
    if names == {} {
      n := 0;
    } else {
      var name :| name in names;
      n := LongerThanAll(names - {name});
      n := if n > |name| then n else |name| + 1;
    }
  }

  /** Any variable whose name is kept can be asked for so that just its own name is listed. */
  lemma AskedPlainly(values: Values, name: string) returns (text: string, called: string)
    requires Askable(values, name) && IsKept(values, name)
    ensures AsksOnly(text, called) && ResolvesTo(EngineVariables(values), called, name) && ListedFor(called) == [name]
  {
    called := name;
    if PromptName(name).Some? {
      var n := LongerThanAll(EngineVariables(values).Keys);
      SpacedPromptAsks(n, name);
      called := SpacedPrompt(n, name);
      assert |called| > n;
      assert name[0] == '?';
    }
    text := Asking(called);
    AskingAsks(called);
  }

  /** A value that is no string, and asks for another variable, escapes: the engine follows it, the list does not. */
  lemma OtherEscapes(ctx: Context, values: Values, name: string, asked: string, left: nat)
    requires IsEngineFor(ctx, values) && Askable(values, name) && IsKept(values, name) && values[name].Other?
    requires AsksFor(ctx.variables, values[name].compact, asked) && asked != name && left > 0
    ensures !CoversEngine(ctx, values, left)
  {
    var text, called := AskedPlainly(values, name);
    FollowedInside(ctx, text, called, name, asked, left);
    AsksOnlyLists(text, called);
    forall chain | IsChain(values, [text], chain) ensures chain == [name] {
      OnlyItself(values, text, name, chain);
    }
    SeenButNotReached(ctx, values, text, asked, left);
  }

  /** The engine opens the variable that the text asks for, and looks at what is asked for inside. */
  lemma FollowedInside(ctx: Context, text: string, called: string, name: string, asked: string, left: nat)
    requires AsksOnly(text, called) && ResolvesTo(ctx.variables, called, name) && left > 0
    requires AsksFor(ctx.variables, ctx.variables[name], asked)
    ensures asked in Flat(Meaning(ctx, text), left).seen
  {
    assert Placeholder(text, 0) == text;
    assert name in Leading(ctx, text, [], asked);
    InsideIsLookedAt(ctx, text, "", [], true, name, asked, left);
  }

  lemma OnlyItself(values: Values, text: string, name: string, chain: seq<string>)
    requires IsChain(values, [text], chain) && VariablesIn(text) == [name] && name in values && values[name].Other?
    ensures chain == [name]
  {
    ReachedFrom(values, text, chain);
    assert References(values, name) == [];
    if |chain| > 1 {
      SecondIsReferredTo(values, chain);
      assert false;
    }
  }

  lemma SecondIsReferredTo(values: Values, chain: seq<string>)
    requires IsPath(values, chain) && |chain| > 1
    ensures chain[1] in References(values, chain[0])
  {
  }

  /** For all values, and however many variables the engine may open: the list covers the engine on every request if
      and only if both conditions hold. */
  lemma CoversEngineExactly(ctx: Context, values: Values, left: nat)
    requires IsEngineFor(ctx, values) && left > 0
    ensures CoversEngine(ctx, values, left) <==> NamesAreKept(values) && OthersAskForThemselves(values)
  {
    if NamesAreKept(values) && OthersAskForThemselves(values) {
      forall texts: seq<string>, i, name | 0 <= i < |texts| && name in Flat(Meaning(ctx, texts[i]), left).seen
        ensures Reachable(values, texts, name)
      {
        FlatFits(Meaning(ctx, texts[i]), left);
        KeptIsCovered(ctx, values, texts, i, name);
      }
    } else if !NamesAreKept(values) {
      var name :| Askable(values, name) && !IsKept(values, name);
      UnkeptNameEscapes(ctx, values, name, left);
    } else {
      var name, asked :| Askable(values, name) && values[name].Other? && AsksFor(EngineVariables(values), values[name].compact, asked)
                         && asked != name;
      OtherEscapes(ctx, values, name, asked, left);
    }
  }

  /** If both hold, all that the engine looks at for a request that does not fail is in the list. */
  lemma {:induction false} RequestIsCovered(ctx: Context, values: Values, texts: seq<string>, whole: seq<string>)
    requires IsEngineFor(ctx, values) && NamesAreKept(values) && OthersAskForThemselves(values)
    requires texts <= whole && Meanings(ctx, Fresh(), texts).Some?
    ensures forall name :: name in Meanings(ctx, Fresh(), texts).value.1.seen ==> Reachable(values, whole, name)
    decreases |texts|
  {
    if texts != [] {
      var init, last := texts[..|texts| - 1], texts[|texts| - 1];
      RequestIsCovered(ctx, values, init, whole);
      var before := Meanings(ctx, Fresh(), init).value.1;
      forall name | name in Unfolding(ctx, before, last).seen ensures Reachable(values, whole, name) {
        FlatFits(Meaning(ctx, last), before.(expansions := 0).Room());
        KeptIsCovered(ctx, values, whole, |texts| - 1, name);
      }
    }
  }

  /** The plain case: only strings hold placeholders, and no name that can be asked for starts with `$` or `?`. */
  lemma PlainValuesAreCovered(ctx: Context, values: Values, left: nat)
    requires IsEngineFor(ctx, values) && left > 0
    requires forall name :: name in values && values[name].Other? ==> Spans(values[name].compact) == []
    requires forall name :: Askable(values, name) ==> !HasPrefix(name, DYNAMIC_PREFIX) && !HasPrefix(name, PROMPT_PREFIX)
    ensures CoversEngine(ctx, values, left)
  {
    CoversEngineExactly(ctx, values, left);
  }
}
