/** The challenge scanner of `engine/auth_digest.go`: `parseChallenges`, `quoteAuth` and
`pickDigestChallenge`. */
module Challenges {
  import opened Text

  datatype Challenge = Challenge(scheme: string, params: map<string, string>)

  predicate IsBlankChar(c: char) {
    c == ' ' || c == '\t'
  }

  predicate IsSeparator(c: char) {
    IsBlankChar(c) || c == ','
  }

  predicate EndsToken(c: char) {
    IsSeparator(c) || c == '='
  }

  // What the scanner does to the text that is left.

  function SkipBlanks(s: string): (r: string)
    ensures |r| <= |s| && (r != "" ==> !IsBlankChar(r[0]))
  {
    if s != "" && IsBlankChar(s[0]) then SkipBlanks(s[1..]) else s
  }

  function SkipSeparators(s: string): (r: string)
    ensures |r| <= |s| && (r != "" ==> !IsSeparator(r[0]))
  {
    if s != "" && IsSeparator(s[0]) then SkipSeparators(s[1..]) else s
  }

  function TokenLength(s: string): (n: nat)
    ensures n <= |s|
    ensures forall i :: 0 <= i < n ==> !EndsToken(s[i])
    ensures n < |s| ==> EndsToken(s[n])
  {
    if s == "" || EndsToken(s[0]) then 0 else 1 + TokenLength(s[1..])
  }

  datatype Value = Value(text: string, rest: string)

  /** Inside quotes: a backslash takes the next character as it is. */
  function Quoted(s: string): (v: Value)
    ensures |v.rest| <= |s|
  {
    if s == "" then Value("", "")
    else if s[0] == '"' then Value("", s[1..])
    else if s[0] == '\\' && |s| > 1 then var v := Quoted(s[2..]); Value([s[1]] + v.text, v.rest)
    else var v := Quoted(s[1..]); Value([s[0]] + v.text, v.rest)
  }

  function ValueOf(s: string): (v: Value)
    ensures |v.rest| <= |s|
  {
    if s != "" && s[0] == '"' then Quoted(s[1..])
    else
      var end := IndexFrom(s, ',', 0);
      Value(TrimSpace(s[..end]), s[end..])
  }

  function AddParam(challenges: seq<Challenge>, name: string, value: string): seq<Challenge>
    requires challenges != []
  {
    var last := challenges[|challenges| - 1];
    challenges[|challenges| - 1 := last.(params := last.params[ToLower(name) := value])]
  }

  /** One header, after the challenges read so far. A parameter without a challenge before it becomes a
      challenge, and then its `=` starts a parameter: the text may stay, but then a challenge exists. */
  function ParseHeader(s: string, challenges: seq<Challenge>): seq<Challenge>
    decreases |s|, if challenges == [] then 1 else 0
  {
    var t := SkipSeparators(s);
    if t == "" then challenges
    else
      var n := TokenLength(t);
      var rest := SkipBlanks(t[n..]);
      if rest != "" && rest[0] == '=' && challenges != [] then
        var value := ValueOf(SkipBlanks(rest[1..]));
        ParseHeader(value.rest, AddParam(challenges, t[..n], value.text))
      else ParseHeader(rest, challenges + [Challenge(ToLower(t[..n]), map[])])
  }

  function Parse(headers: seq<string>): seq<Challenge> {
    if headers == [] then [] else ParseHeader(headers[|headers| - 1], Parse(headers[..|headers| - 1]))
  }

  class ChallengeScanner {
    const text: string
    var at: nat

    /** The text that is left; the scanner may stand one past the end. */
    function Rest(): string
      reads this
    {
      if at <= |text| then text[at..] else ""
    }

    constructor (text: string)
      ensures Rest() == text && this.text == text
    {
      this.text, at := text, 0;
    }

    method SkipBlanksHere()
      modifies this
      ensures Rest() == SkipBlanks(old(Rest()))
    {
      while at < |text| && IsBlankChar(text[at])
        invariant SkipBlanks(Rest()) == SkipBlanks(old(Rest()))
        decreases |text| - at
      {
        at := at + 1;
      }
    }

    method SkipSeparatorsHere()
      modifies this
      ensures Rest() == SkipSeparators(old(Rest()))
    {
      while at < |text| && IsSeparator(text[at])
        invariant SkipSeparators(Rest()) == SkipSeparators(old(Rest()))
        decreases |text| - at
      {
        at := at + 1;
      }
    }

    method Token() returns (token: string)
      modifies this
      ensures var n := TokenLength(old(Rest()));
              token == old(Rest())[..n] && Rest() == old(Rest())[n..]
    {
      var start := at;
      while at < |text| && !EndsToken(text[at])
        invariant start <= at && (start <= |text| ==> at <= |text|) && (start > |text| ==> at == start)
        invariant start <= |text| ==> TokenLength(text[start..]) == at - start + TokenLength(text[at..])
        decreases |text| - at
      {
        at := at + 1;
      }
      token := if start <= |text| then text[start..at] else "";
      if start <= |text| {
        SliceParts(text, start, at);
      }
    }

    method ReadValue() returns (value: string)
      modifies this
      ensures Value(value, Rest()) == ValueOf(old(Rest()))
    {
      if at >= |text| || text[at] != '"' {
        var rest := Rest();
        var end := IndexFrom(rest, ',', 0);
        value := TrimSpace(rest[..end]);
        at := at + end;
      } else {
        at := at + 1;
        value := ReadQuoted();
      }
    }

    method ReadQuoted() returns (value: string)
      requires at <= |text|
      modifies this
      ensures Value(value, Rest()) == Quoted(old(Rest()))
    {
      value := "";
      ghost var whole := Quoted(Rest());
      while at < |text| && text[at] != '"'
        invariant at <= |text| && whole == Prefixed(value, Quoted(Rest()))
        decreases |text| - at
      {
        var c := TakeQuoted();
        PrefixedTwice(value, [c], Quoted(Rest()));
        value := value + [c];
      }
      QuotedEnds(Rest());
      assert value + "" == value;
      at := at + 1;
    }

    /** One character inside quotes, which may be escaped. */
    method TakeQuoted() returns (c: char)
      requires at < |text| && text[at] != '"'
      modifies this
      ensures old(at) < at <= |text|
      ensures Quoted(old(Rest())) == Prefixed([c], Quoted(Rest()))
    {
      QuotedTakes(Rest());
      ghost var before := Rest();
      c := text[at];
      if c == '\\' && at + 1 < |text| {
        at := at + 1;
        c := text[at];
      }
      at := at + 1;
      assert Rest() == before[if before[0] == '\\' && |before| > 1 then 2 else 1..];
    }
  }

  lemma SliceParts(text: string, start: nat, at: nat)
    requires start <= at <= |text|
    ensures text[start..][..at - start] == text[start..at] && text[start..][at - start..] == text[at..]
  {
  }

  lemma QuotedEnds(s: string)
    requires s == "" || s[0] == '"'
    ensures Quoted(s) == Value("", if s == "" then "" else s[1..])
  {
  }

  lemma QuotedTakes(s: string)
    requires s != "" && s[0] != '"'
    ensures var used := if s[0] == '\\' && |s| > 1 then 2 else 1;
            Quoted(s) == Prefixed([s[used - 1]], Quoted(s[used..]))
  {
  }

  function Prefixed(text: string, value: Value): Value {
    Value(text + value.text, value.rest)
  }

  lemma PrefixedTwice(a: string, b: string, value: Value)
    ensures Prefixed(a, Prefixed(b, value)) == Prefixed(a + b, value)
  {
    assert a + (b + value.text) == a + b + value.text;
  }

  method ParseChallenges(headers: seq<string>) returns (challenges: seq<Challenge>)
    ensures challenges == Parse(headers)
  {
    challenges := [];
    for i := 0 to |headers|
      invariant challenges == Parse(headers[..i])
    {
      assert headers[..i + 1][..i] == headers[..i];
      challenges := ParseOne(headers[i], challenges);
    }
    assert headers[..|headers|] == headers;
  }

  method ParseOne(header: string, before: seq<Challenge>) returns (challenges: seq<Challenge>)
    ensures challenges == ParseHeader(header, before)
  {
    challenges := before;
    var scanner := new ChallengeScanner(header);
    var more := true;
    while more
      invariant fresh(scanner)
      invariant if more then ParseHeader(scanner.Rest(), challenges) == ParseHeader(header, before)
                else challenges == ParseHeader(header, before)
      decreases more, |scanner.Rest()|, if challenges == [] then 1 else 0
    {
      more, challenges := ParseRound(scanner, challenges);
    }
  }

  lemma ParamStep(s: string, t: string, rest: string, challenges: seq<Challenge>)
    requires t == SkipSeparators(s) && t != "" && rest == SkipBlanks(t[TokenLength(t)..])
    requires rest != "" && rest[0] == '=' && challenges != []
    ensures var value := ValueOf(SkipBlanks(rest[1..]));
            ParseHeader(s, challenges) == ParseHeader(value.rest, AddParam(challenges, t[..TokenLength(t)], value.text))
  {
  }

  lemma SchemeStep(s: string, t: string, rest: string, challenges: seq<Challenge>)
    requires t == SkipSeparators(s) && t != "" && rest == SkipBlanks(t[TokenLength(t)..])
    requires !(rest != "" && rest[0] == '=' && challenges != [])
    ensures ParseHeader(s, challenges) == ParseHeader(rest, challenges + [Challenge(ToLower(t[..TokenLength(t)]), map[])])
  {
  }

  /** The value of a parameter, from its equals sign on. */
  method TakeParam(scanner: ChallengeScanner, name: string, challenges: seq<Challenge>) returns (next: seq<Challenge>)
    requires scanner.Rest() != "" && challenges != []
    modifies scanner
    ensures var value := ValueOf(SkipBlanks(old(scanner.Rest())[1..]));
            scanner.Rest() == value.rest && next == AddParam(challenges, name, value.text)
    ensures |scanner.Rest()| < |old(scanner.Rest())|
  {
    ghost var before := scanner.Rest();
    scanner.at := scanner.at + 1;
    assert scanner.Rest() == before[1..];
    scanner.SkipBlanksHere();
    var value := scanner.ReadValue();
    next := AddParam(challenges, name, value);
  }

  /** One round of the scanner's loop. Either text is used up, or the first challenge appears. */
  method ParseRound(scanner: ChallengeScanner, challenges: seq<Challenge>) returns (more: bool, next: seq<Challenge>)
    modifies scanner
    ensures !more ==> next == ParseHeader(old(scanner.Rest()), challenges)
    ensures more ==>
              && ParseHeader(scanner.Rest(), next) == ParseHeader(old(scanner.Rest()), challenges)
              && next != [] && |scanner.Rest()| <= |old(scanner.Rest())|
              && (challenges != [] ==> |scanner.Rest()| < |old(scanner.Rest())|)
  {
    scanner.SkipSeparatorsHere();
    ghost var t := scanner.Rest();
    if scanner.at >= |scanner.text| {
      return false, challenges;
    }
    var name := scanner.Token();
    scanner.SkipBlanksHere();
    ghost var rest := scanner.Rest();
    assert rest == SkipBlanks(t[TokenLength(t)..]);
    if scanner.at < |scanner.text| && scanner.text[scanner.at] == '=' && challenges != [] {
      next := TakeParam(scanner, name, challenges);
      ParamStep(old(scanner.Rest()), t, rest, challenges);
    } else {
      next := challenges + [Challenge(ToLower(name), map[])];
      SchemeStep(old(scanner.Rest()), t, rest, challenges);
    }
    more := true;
  }

  // Printing challenges, as section 11.6.1 of RFC 9110 writes them, with quoted strings of section 5.6.4.

  datatype Param = Param(name: string, value: string)

  datatype Printable = Printable(scheme: string, params: seq<Param>)

  /** Token characters of section 5.6.2 of RFC 9110, upper-case letters aside. */
  predicate IsTokenChar(c: char) {
    'a' <= c <= 'z' || '0' <= c <= '9' || c in {'!', '#', '$', '%', '&', '\'', '*', '+', '-', '.', '^', '_', '`', '|', '~'}
  }

  predicate IsLowerToken(s: string) {
    s != "" && forall i :: 0 <= i < |s| ==> IsTokenChar(s[i])
  }

  function EscapeQuoted(value: string): string {
    if value == "" then ""
    else EscapeChar(value[0]) + EscapeQuoted(value[1..])
  }

  function EscapeChar(c: char): string {
    if c == '\\' || c == '"' then ['\\', c] else [c]
  }

  function QuoteAuth(value: string): string {
    "\"" + EscapeQuoted(value) + "\""
  }

  function PrintParam(p: Param): string {
    p.name + "=" + QuoteAuth(p.value)
  }

  /** The parameters, with `first` before the first and a comma before each other. */
  function PrintParams(params: seq<Param>, first: string): string {
    if params == [] then "" else first + PrintParam(params[0]) + PrintParams(params[1..], ", ")
  }

  function PrintChallenges(list: seq<Printable>, first: string): string {
    if list == [] then ""
    else first + list[0].scheme + PrintParams(list[0].params, " ") + PrintChallenges(list[1..], ", ")
  }

  function PrintHeader(list: seq<Printable>): string {
    PrintChallenges(list, "")
  }

  ghost predicate IsPrintable(p: Printable) {
    && IsLowerToken(p.scheme)
    && (forall i :: 0 <= i < |p.params| ==> IsLowerToken(p.params[i].name))
    && (forall i, j :: 0 <= i < j < |p.params| ==> p.params[i].name != p.params[j].name)
  }

  function ParamMap(params: seq<Param>): map<string, string> {
    if params == [] then map[] else ParamMap(params[..|params| - 1])[params[|params| - 1].name := params[|params| - 1].value]
  }

  function Challenged(p: Printable): Challenge {
    Challenge(p.scheme, ParamMap(p.params))
  }

  function AllChallenged(list: seq<Printable>): seq<Challenge> {
    if list == [] then [] else [Challenged(list[0])] + AllChallenged(list[1..])
  }

  /** Distinct names: the map has every parameter and nothing else. */
  lemma {:induction false} ParamMapIsExact(params: seq<Param>)
    requires forall i, j :: 0 <= i < j < |params| ==> params[i].name != params[j].name
    ensures forall i :: 0 <= i < |params| ==> params[i].name in ParamMap(params) && ParamMap(params)[params[i].name] == params[i].value
    ensures forall name :: name in ParamMap(params) ==> exists i :: 0 <= i < |params| && params[i].name == name
  {
    if params != [] {
      var init := params[..|params| - 1];
      assert forall i :: 0 <= i < |init| ==> init[i] == params[i];
      ParamMapIsExact(init);
    }
  }

  lemma {:induction false} LowerTokenIsLower(s: string)
    requires IsLowerToken(s)
    ensures ToLower(s) == s
  {
    assert forall i :: 0 <= i < |s| ==> IsTokenChar(s[i]) && LowerChar(s[i]) == s[i];
  }

  lemma {:induction false} TokenReads(name: string, rest: string)
    requires forall i :: 0 <= i < |name| ==> IsTokenChar(name[i])
    requires rest != "" ==> EndsToken(rest[0])
    ensures TokenLength(name + rest) == |name|
  {
    if name == "" {
      assert name + rest == rest;
    } else {
      assert IsTokenChar(name[0]);
      TokenStep(name[0], name[1..] + rest);
      FirstApart(name, rest);
      TokenReads(name[1..], rest);
    }
  }

  lemma FirstApart(s: string, rest: string)
    requires s != ""
    ensures s + rest == [s[0]] + (s[1..] + rest)
  {
  }

  lemma TokenStep(c: char, rest: string)
    requires IsTokenChar(c)
    ensures TokenLength([c] + rest) == 1 + TokenLength(rest)
  {
    assert ([c] + rest)[1..] == rest;
  }

  lemma {:induction false} QuotedReads(value: string, rest: string)
    ensures Quoted(EscapeQuoted(value) + ("\"" + rest)) == Value(value, rest)
  {
    if value == "" {
      assert EscapeQuoted(value) + ("\"" + rest) == "\"" + rest && ("\"" + rest)[1..] == rest;
    } else {
      Join(EscapeChar(value[0]), EscapeQuoted(value[1..]), "\"" + rest);
      CharReads(value[0], EscapeQuoted(value[1..]) + ("\"" + rest));
      QuotedReads(value[1..], rest);
      assert [value[0]] + value[1..] == value;
    }
  }

  lemma CharReads(c: char, more: string)
    ensures Quoted(EscapeChar(c) + more) == Prefixed([c], Quoted(more))
  {
    Parted(EscapeChar(c), more);
    QuotedTakes(EscapeChar(c) + more);
  }

  lemma Join(a: string, b: string, c: string)
    ensures a + b + c == a + (b + c)
  {
  }

  lemma QuoteAuthReads(value: string, rest: string)
    ensures ValueOf(QuoteAuth(value) + rest) == Value(value, rest)
  {
    QuotedReads(value, rest);
    var inside := EscapeQuoted(value) + ("\"" + rest);
    assert QuoteAuth(value) + rest == "\"" + inside;
    assert ("\"" + inside)[1..] == inside;
  }

  ghost predicate IsGap(first: string) {
    forall i :: 0 <= i < |first| ==> IsSeparator(first[i])
  }

  lemma {:induction false} GapIsSkipped(first: string, rest: string)
    requires IsGap(first) && rest != "" && !IsSeparator(rest[0])
    ensures SkipSeparators(first + rest) == rest
  {
    if first == "" {
      assert first + rest == rest;
    } else {
      assert IsSeparator(first[0]);
      assert (first + rest)[1..] == first[1..] + rest;
      GapIsSkipped(first[1..], rest);
    }
  }

  lemma StartsWithToken(name: string, rest: string)
    requires IsLowerToken(name)
    ensures name + rest != "" && !IsSeparator((name + rest)[0]) && !EndsToken((name + rest)[0])
  {
    assert IsTokenChar(name[0]);
  }

  lemma PrintedParam(first: string, p: Param, rest: string)
    ensures first + PrintParam(p) + rest == first + (p.name + ("=" + (QuoteAuth(p.value) + rest)))
  {
  }

  lemma Parted(a: string, b: string)
    ensures (a + b)[..|a|] == a && (a + b)[|a|..] == b
  {
  }

  /** One round of the scanner on the text of a parameter. */
  lemma ParamRound(s: string, name: string, valued: string, challenges: seq<Challenge>)
    requires challenges != [] && SkipSeparators(s) == name + ("=" + valued) && name != ""
    requires TokenLength(name + ("=" + valued)) == |name|
    requires valued != "" && !IsBlankChar(valued[0])
    ensures ParseHeader(s, challenges) == ParseHeader(ValueOf(valued).rest, AddParam(challenges, name, ValueOf(valued).text))
  {
    Parted(name, "=" + valued);
    Parted("=", valued);
    var rest := "=" + valued;
    assert SkipBlanks(rest) == rest && rest[1..] == valued && SkipBlanks(valued) == valued;
  }

  /** One parameter is read back, and what follows it is left. */
  lemma ParamReads(first: string, p: Param, rest: string, challenges: seq<Challenge>)
    requires IsGap(first) && IsLowerToken(p.name) && challenges != []
    ensures ParseHeader(first + PrintParam(p) + rest, challenges) == ParseHeader(rest, AddParam(challenges, p.name, p.value))
  {
    var valued := QuoteAuth(p.value) + rest;
    PrintedParam(first, p, rest);
    StartsWithToken(p.name, "=" + valued);
    GapIsSkipped(first, p.name + ("=" + valued));
    TokenReads(p.name, "=" + valued);
    QuoteAuthReads(p.value, rest);
    ParamRound(first + PrintParam(p) + rest, p.name, valued, challenges);
  }

  /** Blanks at the start make no difference to the scanner. */
  lemma {:induction false} BlanksAreSkipped(s: string)
    ensures SkipSeparators(SkipBlanks(s)) == SkipSeparators(s)
  {
    if s != "" && IsBlankChar(s[0]) {
      BlanksAreSkipped(s[1..]);
    }
  }

  lemma HeaderIgnoresBlanks(s: string, challenges: seq<Challenge>)
    ensures ParseHeader(SkipBlanks(s), challenges) == ParseHeader(s, challenges)
  {
    BlanksAreSkipped(s);
  }

  /** A scheme starts a challenge, unless an equals sign follows. */
  lemma SchemeReads(first: string, scheme: string, rest: string, challenges: seq<Challenge>)
    requires IsGap(first) && IsLowerToken(scheme)
    requires FollowsScheme(rest)
    ensures ParseHeader(first + scheme + rest, challenges) == ParseHeader(rest, challenges + [Challenge(scheme, map[])])
  {
    var t := scheme + rest;
    Join(first, scheme, rest);
    StartsWithToken(scheme, rest);
    GapIsSkipped(first, t);
    TokenReads(scheme, rest);
    assert t[..|scheme|] == scheme && t[|scheme|..] == rest;
    LowerTokenIsLower(scheme);
    HeaderIgnoresBlanks(rest, challenges + [Challenge(scheme, map[])]);
  }

  lemma AddParamLast(before: seq<Challenge>, scheme: string, params: map<string, string>, p: Param)
    requires IsLowerToken(p.name)
    ensures AddParam(before + [Challenge(scheme, params)], p.name, p.value) == before + [Challenge(scheme, params[p.name := p.value])]
  {
    LowerTokenIsLower(p.name);
  }

  /** The parameters of a challenge, after the first `n` of them. */
  lemma {:induction false} ParamsRead(first: string, params: seq<Param>, n: nat, rest: string, before: seq<Challenge>, scheme: string)
    requires IsGap(first) && n <= |params| && forall i :: 0 <= i < |params| ==> IsLowerToken(params[i].name)
    ensures ParseHeader(PrintParams(params[n..], first) + rest, before + [Challenge(scheme, ParamMap(params[..n]))])
         == ParseHeader(rest, before + [Challenge(scheme, ParamMap(params))])
    decreases |params| - n
  {
    if n == |params| {
      assert params[n..] == [] && params[..n] == params;
      assert PrintParams([], first) + rest == rest;
    } else {
      var p := params[n];
      var more := PrintParams(params[n + 1..], ", ");
      assert params[n..][1..] == params[n + 1..] && params[n..][0] == p;
      Join(first + PrintParam(p), more, rest);
      ParamReads(first, p, more + rest, before + [Challenge(scheme, ParamMap(params[..n]))]);
      AddParamLast(before, scheme, ParamMap(params[..n]), p);
      assert params[..n + 1][..n] == params[..n];
      assert ParamMap(params[..n + 1]) == ParamMap(params[..n])[p.name := p.value];
      ParamsRead(", ", params, n + 1, rest, before, scheme);
    }
  }

  predicate FollowsScheme(after: string) {
    (after != "" ==> IsSeparator(after[0])) && (SkipBlanks(after) != "" ==> SkipBlanks(after)[0] != '=')
  }

  lemma ParamsStart(params: seq<Param>, rest: string)
    requires params != []
    ensures PrintParams(params, " ") + rest
         == " " + (params[0].name + ("=" + (QuoteAuth(params[0].value) + (PrintParams(params[1..], ", ") + rest))))
  {
    Join(" " + PrintParam(params[0]), PrintParams(params[1..], ", "), rest);
    PrintedParam(" ", params[0], PrintParams(params[1..], ", ") + rest);
  }

  lemma SpaceThenToken(name: string, rest: string)
    requires IsLowerToken(name)
    ensures FollowsScheme(" " + (name + rest))
  {
    StartsWithToken(name, rest);
    Parted(" ", name + rest);
    assert (" " + (name + rest))[1..] == name + rest;
  }

  /** What follows a scheme starts with a separator, and no equals sign comes first. */
  lemma AfterScheme(params: seq<Param>, rest: string)
    requires forall i :: 0 <= i < |params| ==> IsLowerToken(params[i].name)
    requires rest != "" ==> rest[0] == ','
    ensures FollowsScheme(PrintParams(params, " ") + rest)
  {
    if params == [] {
      CommaFollowsScheme(rest);
      assert PrintParams(params, " ") + rest == rest;
    } else {
      ParamsStart(params, rest);
      SpaceThenToken(params[0].name, "=" + (QuoteAuth(params[0].value) + (PrintParams(params[1..], ", ") + rest)));
    }
  }

  lemma CommaFollowsScheme(rest: string)
    requires rest != "" ==> rest[0] == ','
    ensures FollowsScheme(rest)
  {
  }

  lemma PrintedChallenge(list: seq<Printable>, first: string)
    requires list != []
    ensures PrintChallenges(list, first)
         == first + list[0].scheme + (PrintParams(list[0].params, " ") + PrintChallenges(list[1..], ", "))
  {
    Join(first + list[0].scheme, PrintParams(list[0].params, " "), PrintChallenges(list[1..], ", "));
  }

  /** One challenge with its parameters. */
  lemma ChallengeReads(first: string, c: Printable, rest: string, before: seq<Challenge>)
    requires IsGap(first) && IsPrintable(c)
    requires rest != "" ==> rest[0] == ','
    ensures ParseHeader(first + c.scheme + (PrintParams(c.params, " ") + rest), before)
         == ParseHeader(rest, before + [Challenged(c)])
  {
    AfterScheme(c.params, rest);
    SchemeReads(first, c.scheme, PrintParams(c.params, " ") + rest, before);
    assert c.params[0..] == c.params && c.params[..0] == [];
    ParamsRead(" ", c.params, 0, rest, before, c.scheme);
  }

  lemma {:induction false} ChallengesRead(first: string, list: seq<Printable>, before: seq<Challenge>)
    requires IsGap(first) && forall i :: 0 <= i < |list| ==> IsPrintable(list[i])
    ensures ParseHeader(PrintChallenges(list, first), before) == before + AllChallenged(list)
    decreases |list|
  {
    if list == [] {
      assert before + [] == before;
    } else {
      var rest := PrintChallenges(list[1..], ", ");
      StartsWithComma(list[1..]);
      PrintedChallenge(list, first);
      ChallengeReads(first, list[0], rest, before);
      ChallengesRead(", ", list[1..], before + [Challenged(list[0])]);
      JoinChallenges(before, Challenged(list[0]), AllChallenged(list[1..]));
    }
  }

  lemma JoinChallenges(before: seq<Challenge>, c: Challenge, more: seq<Challenge>)
    ensures before + [c] + more == before + ([c] + more)
  {
  }

  lemma StartsWithComma(list: seq<Printable>)
    ensures PrintChallenges(list, ", ") != "" ==> PrintChallenges(list, ", ")[0] == ','
  {
  }

  function AllHeaders(lists: seq<seq<Printable>>): seq<string> {
    if lists == [] then [] else AllHeaders(lists[..|lists| - 1]) + [PrintHeader(lists[|lists| - 1])]
  }

  function AllOf(lists: seq<seq<Printable>>): seq<Challenge> {
    if lists == [] then [] else AllOf(lists[..|lists| - 1]) + AllChallenged(lists[|lists| - 1])
  }

  /** Every list of challenges, printed over any number of headers, is read back. */
  lemma {:induction false} HeadersRoundTrip(lists: seq<seq<Printable>>)
    requires forall i, k :: 0 <= i < |lists| && 0 <= k < |lists[i]| ==> IsPrintable(lists[i][k])
    ensures Parse(AllHeaders(lists)) == AllOf(lists)
    decreases |lists|
  {
    if lists != [] {
      var init, last := lists[..|lists| - 1], lists[|lists| - 1];
      assert forall i :: 0 <= i < |init| ==> init[i] == lists[i];
      HeadersRoundTrip(init);
      var headers := AllHeaders(lists);
      assert headers[..|headers| - 1] == AllHeaders(init);
      ChallengesRead("", last, AllOf(init));
    }
  }

  // Choosing a digest challenge.

  const DIGEST_SCHEME := "digest"
  const DIGEST_SESSION_TAG := "-SESS"
  const DIGEST_DEFAULT_ALGORITHM := "MD5"

  function ParamOr(params: map<string, string>, name: string): string {
    if name in params then params[name] else ""
  }

  function AlgorithmOf(params: map<string, string>): string {
    var algorithm := ToUpper(ParamOr(params, "algorithm"));
    if algorithm == "" then DIGEST_DEFAULT_ALGORITHM else algorithm
  }

  function TrimSuffix(s: string, suffix: string): string {
    if HasSuffix(s, suffix) then s[..|s| - |suffix|] else s
  }

  /** The size of the hash a challenge asks for, in bytes, if it is a supported digest challenge. */
  function Strength(c: Challenge): Option<nat> {
    if c.scheme != DIGEST_SCHEME then None
    else
      var hash := TrimSuffix(AlgorithmOf(c.params), DIGEST_SESSION_TAG);
      if hash == "MD5" then Some(16) else if hash == "SHA-256" || hash == "SHA-512-256" then Some(32) else None
  }

  function Strengths(challenges: seq<Challenge>): seq<Option<nat>> {
    seq(|challenges|, i requires 0 <= i < |challenges| => Strength(challenges[i]))
  }

  /** The earliest of the strongest. */
  ghost predicate IsBest(strengths: seq<Option<nat>>, best: nat) {
    && best < |strengths| && strengths[best].Some?
    && forall i :: 0 <= i < |strengths| && strengths[i].Some? ==>
         && strengths[i].value <= strengths[best].value
         && (i < best ==> strengths[i].value < strengths[best].value)
  }

  ghost predicate IsPick(strengths: seq<Option<nat>>, picked: Option<nat>) {
    match picked
    case None => forall i :: 0 <= i < |strengths| ==> strengths[i].None?
    case Some(best) => IsBest(strengths, best)
  }

  method PickDigestChallenge(headers: seq<string>) returns (picked: Option<Challenge>)
    ensures exists index: Option<nat> ::
              IsPick(Strengths(Parse(headers)), index) && picked == ChallengeAt(Parse(headers), index)
  {
    var challenges := ParseChallenges(headers);
    picked := None;
    ghost var strengths := Strengths(challenges);
    ghost var best: Option<nat> := None;
    for i := 0 to |challenges|
      invariant best.Some? ==> best.value < i
      invariant IsPick(strengths[..i], best) && picked == ChallengeAt(challenges, best)
    {
      var strength := Strength(challenges[i]);
      PickOneMore(strengths, i, best);
      assert picked.Some? ==> Strength(picked.value) == strengths[best.value];
      if strength.Some? && (picked.None? || strength.value > Strength(picked.value).value) {
        picked, best := Some(challenges[i]), Some(i);
      }
    }
    assert strengths[..|challenges|] == strengths;
  }

  lemma PickOneMore(strengths: seq<Option<nat>>, i: nat, best: Option<nat>)
    requires i < |strengths| && IsPick(strengths[..i], best)
    ensures best.Some? ==> best.value < i && strengths[best.value].Some?
    ensures IsPick(strengths[..i + 1],
              if strengths[i].Some? && (best.None? || strengths[i].value > strengths[best.value].value) then Some(i) else best)
  {
    assert forall k :: 0 <= k < i ==> strengths[..i][k] == strengths[k];
    assert forall k :: 0 <= k <= i ==> strengths[..i + 1][k] == strengths[k];
  }

  function ChallengeAt(challenges: seq<Challenge>, index: Option<nat>): Option<Challenge> {
    if index.Some? && index.value < |challenges| then Some(challenges[index.value]) else None
  }

  lemma BestIsUnique(strengths: seq<Option<nat>>, a: Option<nat>, b: Option<nat>)
    requires IsPick(strengths, a) && IsPick(strengths, b)
    ensures a == b
  {
    if a.Some? && b.Some? {
      assert strengths[a.value] == strengths[b.value];
    }
  }
}
