/** The placeholder syntax of `engine/pairs.go`: the regular expression `{{([^}]+)}}`. */
module Placeholders {
  import opened Text

  datatype Span = Span(start: nat, end: nat)

  /** What the regular expression says: `text[a..b]` is `{{`, one or more characters other than `}`, then `}}`. */
  ghost predicate IsMatch(text: string, a: nat, b: nat) {
    && a + 5 <= b <= |text|
    && text[a] == '{' && text[a + 1] == '{'
    && text[b - 2] == '}' && text[b - 1] == '}'
    && forall i :: a + 2 <= i < b - 2 ==> text[i] != '}'
  }

  /** The end of the match that starts at `a`. */
  function MatchEnd(text: string, a: nat): (end: Option<nat>)
    ensures end.Some? ==> IsMatch(text, a, end.value)
    ensures end.None? ==> forall b: nat :: !IsMatch(text, a, b)
  {
    if a + 5 <= |text| && text[a] == '{' && text[a + 1] == '{' then
      var close := IndexFrom(text, '}', a + 2);
      assert forall i :: a + 2 <= i < close ==> text[i] == text[a + 2..close][i - (a + 2)];
      assert forall b: nat :: IsMatch(text, a, b) ==> b - 2 == close;
      if close > a + 2 && close + 1 < |text| && text[close + 1] == '}' then Some(close + 2) else None
    else None
  }

  /** `FindAllStringIndex(text, -1)` restricted to `text[from..]`. */
  function Spans(text: string, from: nat := 0): seq<Span>
    decreases |text| - from
  {
    if from >= |text| then []
    else match MatchEnd(text, from)
      case Some(end) => [Span(from, end)] + Spans(text, end)
      case None => Spans(text, from + 1)
  }

  ghost predicate Covers(spans: seq<Span>, a: nat) {
    exists i :: 0 <= i < |spans| && spans[i].start <= a < spans[i].end
  }

  /** The spans are the leftmost matches at or after `from`, in order and without overlap,
      and none is skipped: every match starts inside one of them. */
  ghost predicate AreLeftmostMatches(text: string, from: nat, spans: seq<Span>) {
    && (forall i :: 0 <= i < |spans| ==> from <= spans[i].start && MatchEnd(text, spans[i].start) == Some(spans[i].end))
    && (forall i, j :: 0 <= i < j < |spans| ==> spans[i].end <= spans[j].start)
    && (forall a: nat :: from <= a && MatchEnd(text, a).Some? ==> Covers(spans, a))
  }

  ghost function Leftmost(text: string, from: nat): iset<seq<Span>> {
    iset spans: seq<Span> | AreLeftmostMatches(text, from, spans)
  }

  lemma CoversMore(first: Span, rest: seq<Span>, a: nat)
    requires Covers(rest, a)
    ensures Covers([first] + rest, a)
  {
    var i :| 0 <= i < |rest| && rest[i].start <= a < rest[i].end;
    assert ([first] + rest)[i + 1] == rest[i];
  }

  lemma CoversFirst(first: Span, rest: seq<Span>, a: nat)
    requires first.start <= a < first.end
    ensures Covers([first] + rest, a)
  {
    assert ([first] + rest)[0] == first;
  }

  ghost predicate AreOrdered(from: nat, spans: seq<Span>) {
    (forall i :: 0 <= i < |spans| ==> from <= spans[i].start) && forall i, j :: 0 <= i < j < |spans| ==> spans[i].end <= spans[j].start
  }

  lemma PrependOrdered(from: nat, first: Span, rest: seq<Span>)
    requires AreOrdered(first.end, rest) && from <= first.start <= first.end
    ensures AreOrdered(from, [first] + rest)
  {
    var spans := [first] + rest;
    forall i | 0 <= i < |spans| ensures from <= spans[i].start {
      assert i > 0 ==> spans[i] == rest[i - 1];
    }
    forall i, j | 0 <= i < j < |spans| ensures spans[i].end <= spans[j].start {
      assert spans[j] == rest[j - 1] && (i > 0 ==> spans[i] == rest[i - 1]);
    }
  }

  lemma PrependMatches(text: string, first: Span, rest: seq<Span>, i: nat)
    requires forall k :: 0 <= k < |rest| ==> MatchEnd(text, rest[k].start) == Some(rest[k].end)
    requires MatchEnd(text, first.start) == Some(first.end) && i <= |rest|
    ensures var spans := [first] + rest;
            MatchEnd(text, spans[i].start) == Some(spans[i].end)
  {
    assert i > 0 ==> ([first] + rest)[i] == rest[i - 1];
  }

  lemma PrependCovers(first: Span, rest: seq<Span>, a: nat)
    requires first.start <= a && (first.end <= a ==> Covers(rest, a))
    ensures Covers([first] + rest, a)
  {
    if a < first.end {
      CoversFirst(first, rest, a);
    } else {
      CoversMore(first, rest, a);
    }
  }

  lemma PrependLeftmost(text: string, from: nat, end: nat, rest: seq<Span>)
    requires MatchEnd(text, from) == Some(end) && rest in Leftmost(text, end)
    ensures [Span(from, end)] + rest in Leftmost(text, from)
  {
    var first := Span(from, end);
    PrependOrdered(from, first, rest);
    forall i: nat | i < |[first] + rest| ensures MatchEnd(text, ([first] + rest)[i].start) == Some(([first] + rest)[i].end) {
      PrependMatches(text, first, rest, i);
    }
    forall a: nat | from <= a && MatchEnd(text, a).Some? ensures Covers([first] + rest, a) {
      PrependCovers(first, rest, a);
    }
  }

  lemma SkipLeftmost(text: string, from: nat, spans: seq<Span>)
    requires MatchEnd(text, from).None? && spans in Leftmost(text, from + 1)
    ensures spans in Leftmost(text, from)
  {
  }

  lemma NoneLeftmost(text: string, from: nat)
    requires from >= |text|
    ensures [] in Leftmost(text, from)
  {
  }

  lemma {:induction false} SpansInLeftmost(text: string, from: nat)
    ensures Spans(text, from) in Leftmost(text, from)
    decreases |text| - from
  {
    if from >= |text| {
      NoneLeftmost(text, from);
    } else {
      match MatchEnd(text, from)
      case None =>
        SpansInLeftmost(text, from + 1);
        SkipLeftmost(text, from, Spans(text, from + 1));
      case Some(end) =>
        SpansInLeftmost(text, end);
        PrependLeftmost(text, from, end, Spans(text, end));
    }
  }

  lemma SpansAreLeftmost(text: string, from: nat)
    ensures AreLeftmostMatches(text, from, Spans(text, from))
  {
    SpansInLeftmost(text, from);
  }

  /** The leftmost matches are unique, so `Spans` is what any correct matcher finds. */
  lemma {:induction false} LeftmostMatchesAreUnique(text: string, from: nat, spans: seq<Span>)
    requires AreLeftmostMatches(text, from, spans)
    ensures spans == Spans(text, from)
    decreases |text| - from
  {
    if from < |text| {
      match MatchEnd(text, from)
      case None =>
        assert forall i :: 0 <= i < |spans| ==> spans[i].start != from;
        LeftmostMatchesAreUnique(text, from + 1, spans);
      case Some(end) =>
        assert Covers(spans, from);
        assert spans[0] == Span(from, end);
        var rest := spans[1..];
        assert forall k :: 0 <= k < |rest| ==> rest[k] == spans[k + 1];
        forall a: nat | end <= a && MatchEnd(text, a).Some? ensures Covers(rest, a) {
          var k :| 0 <= k < |spans| && spans[k].start <= a < spans[k].end;
          assert rest[k - 1] == spans[k];
        }
        LeftmostMatchesAreUnique(text, end, rest);
    }
  }

  lemma MatchEndUnique(text: string, a: nat, b: nat, c: nat)
    requires IsMatch(text, a, b) && IsMatch(text, a, c)
    ensures b == c
  {
    var close := IndexFrom(text, '}', a + 2);
    assert forall i :: a + 2 <= i < close ==> text[i] == text[a + 2..close][i - a - 2];
    assert b - 2 == close;
  }

  lemma SliceMatches(text: string, at: nat, slice: string)
    requires at + |slice| <= |text| && text[at..at + |slice|] == slice && IsMatch(slice, 0, |slice|)
    ensures MatchEnd(text, at) == Some(at + |slice|)
  {
    var end := at + |slice|;
    assert forall i :: at <= i < end ==> text[i] == text[at..end][i - at];
    MatchEndUnique(text, at, MatchEnd(text, at).value, end);
  }

  /** The name a placeholder asks for. */
  function NameOf(placeholder: string): string
    requires |placeholder| >= 4
  {
    TrimSpace(placeholder[2..|placeholder| - 2])
  }

  const PROMPT_PREFIX := "?"
  const DYNAMIC_PREFIX := "$"

  /** `{{?name}}` asks for `name`. */
  function PromptName(name: string): Option<string> {
    if HasPrefix(name, PROMPT_PREFIX) && |name| > 1 then Some(TrimSpace(name[1..])) else None
  }

  function FirstMatch(text: string): Option<Span> {
    var spans := Spans(text);
    if spans == [] then None else Some(spans[0])
  }

  /** `IsVariableName`: the name is trimmed and the first match in `{{name}}` is all of it. */
  predicate IsVariableName(name: string) {
    var placeholder := "{{" + name + "}}";
    name == TrimSpace(name) && FirstMatch(placeholder) == Some(Span(0, |placeholder|))
  }

  /** A name is a variable name exactly when some placeholder can ask for it. */
  lemma VariableNameExact(name: string)
    ensures IsVariableName(name) <==> name == TrimSpace(name) && name != [] && '}' !in name
    ensures IsVariableName(name) ==>
              var placeholder := "{{" + name + "}}";
              Spans(placeholder) == [Span(0, |placeholder|)] && NameOf(placeholder) == name
  {
    var placeholder := "{{" + name + "}}";
    assert placeholder[2..|placeholder| - 2] == name;
    assert forall i :: 0 <= i < |name| ==> placeholder[i + 2] == name[i];
    SpansAreLeftmost(placeholder, 0);
    assert IsMatch(placeholder, 0, |placeholder|) <==> name != [] && '}' !in name;
    if IsMatch(placeholder, 0, |placeholder|) {
      MatchEndUnique(placeholder, 0, MatchEnd(placeholder, 0).value, |placeholder|);
      assert Spans(placeholder, |placeholder|) == [];
    }
  }
}
