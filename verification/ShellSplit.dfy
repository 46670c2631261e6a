/** The POSIX tokeniser of `engine/curl.go`: `shellSplit`, with `ansiEscape`. Here a character is a
Unicode code point. */
module ShellSplit {
  import opened Text

  datatype Quote = Bare | Single | Double | Ansi

  /** The finished tokens and the one being read. */
  datatype Lexed = Lexed(tokens: seq<string>, current: string, inToken: bool) {
    function Add(text: string): Lexed {
      Lexed(tokens, current + text, true)
    }

    function Flush(): Lexed {
      if inToken then Lexed(tokens + [current], "", false) else this
    }
  }

  const START := Lexed([], "", false)

  predicate IsBlank(c: char) {
    c == ' ' || c == '\t' || c == '\n'
  }

  /** The characters a backslash escapes inside double quotes. */
  predicate IsSpecial(c: char) {
    c == '"' || c == '\\' || c == '$' || c == '`'
  }

  // The escapes of $'...'.

  function DigitIn(c: char, base: nat): Option<nat> {
    if '0' <= c <= '9' && c as int - '0' as int < base then Some(c as int - '0' as int)
    else if base == 16 && 'a' <= c <= 'f' then Some(c as int - 'a' as int + 10)
    else if base == 16 && 'A' <= c <= 'F' then Some(c as int - 'A' as int + 10)
    else None
  }

  /** How many of the next characters, at most `most`, are digits. */
  function DigitRun(s: string, base: nat, most: nat): (n: nat)
    ensures n <= |s| && n <= most
    decreases most
  {
    if most == 0 || s == [] || DigitIn(s[0], base).None? then 0 else 1 + DigitRun(s[1..], base, most - 1)
  }

  function NumberOf(digits: string, base: nat): nat {
    if digits == [] then 0
    else
      NumberOf(digits[..|digits| - 1], base) * base
      + match DigitIn(digits[|digits| - 1], base) case Some(v) => v case None => 0
  }

  /** `string(rune(value))`: what is no code point becomes the replacement character. */
  function RuneText(value: nat): string {
    if value < 0xD800 || 0xE000 <= value <= 0x10FFFF then [value as char] else [0xFFFD as char]
  }

  datatype Escape = Escape(text: string, used: nat)

  function AnsiNumber(s: string, base: nat, most: nat): Option<Escape> {
    var n := DigitRun(s, base, most);
    if n == 0 then None else Some(Escape(RuneText(NumberOf(s[..n], base)), n))
  }

  function AnsiCharacter(c: char): Option<string> {
    match c
    case 'n' => Some("\n")
    case 't' => Some("\t")
    case 'r' => Some("\r")
    case 'a' => Some([7 as char])
    case 'b' => Some([8 as char])
    case 'f' => Some([12 as char])
    case 'v' => Some([11 as char])
    case 'e' => Some([27 as char])
    case 'E' => Some([27 as char])
    case _ => None
  }

  /** What follows the backslash, and how many characters of it are used. */
  function AnsiEscape(s: string): (e: Escape)
    requires s != []
    ensures 1 <= e.used <= |s|
  {
    var c := s[0];
    if AnsiCharacter(c).Some? then Escape(AnsiCharacter(c).value, 1)
    else if c in "xuU" then
      match AnsiNumber(s[1..], 16, if c == 'x' then 2 else if c == 'u' then 4 else 8)
      case Some(number) => Escape(number.text, number.used + 1)
      case None => Escape("\\" + [c], 1)
    else
      match AnsiNumber(s, 8, 3)
      case Some(number) => number
      case None => Escape([c], 1)
  }

  /** What the next characters do: how many are used, the quote afterwards, the text they add, whether
      they start or continue a token, and whether they end one. */
  datatype Move = Move(used: nat, quote: Quote, text: string, enters: bool, ends: bool)

  function AnsiMove(s: string): (m: Move)
    requires |s| > 1 && s[0] == '\\'
    ensures 2 <= m.used <= |s| && m.quote == Ansi && m.enters && !m.ends
  {
    var escape := AnsiEscape(s[1..]);
    Move(1 + escape.used, Ansi, escape.text, true, false)
  }

  function NextMove(s: string, quote: Quote): (m: Move)
    requires s != []
    ensures 1 <= m.used <= |s|
  {
    var c := s[0];
    match quote
    case Single => if c == '\'' then Move(1, Bare, "", true, false) else Move(1, Single, [c], true, false)
    case Ansi =>
      if c == '\'' then Move(1, Bare, "", true, false)
      else if c == '\\' && |s| > 1 then AnsiMove(s)
      else Move(1, Ansi, [c], true, false)
    case Double =>
      if c == '"' then Move(1, Bare, "", true, false)
      else if c == '\\' && |s| > 1 && IsSpecial(s[1]) then Move(2, Double, [s[1]], true, false)
      else if c == '\\' && |s| > 1 && s[1] == '\n' then Move(2, Double, "", true, false)
      else Move(1, Double, [c], true, false)
    case Bare =>
      if c == '\'' then Move(1, Single, "", true, false)
      else if c == '"' then Move(1, Double, "", true, false)
      else if c == '$' && |s| > 1 && s[1] == '\'' then Move(2, Ansi, "", true, false)
      else if c == '\\' && |s| > 1 then (if s[1] == '\n' then Move(2, Bare, "", false, false) else Move(2, Bare, [s[1]], true, false))
      else if c == '`' && |s| > 1 && s[1] == '\n' then Move(2, Bare, "", false, false)
      else if IsBlank(c) then Move(1, Bare, "", false, true)
      else Move(1, Bare, [c], true, false)
  }

  function Take(lexed: Lexed, move: Move): Lexed {
    if move.ends then lexed.Flush() else if move.enters then lexed.Add(move.text) else lexed
  }

  function Lex(s: string, quote: Quote, lexed: Lexed): (Quote, Lexed)
    decreases |s|
  {
    if s == [] then (quote, lexed)
    else
      var move := NextMove(s, quote);
      Lex(s[move.used..], move.quote, Take(lexed, move))
  }

  function Split(command: string): Option<seq<string>> {
    var read := Lex(command, Bare, START);
    if read.0 != Bare then None else Some(read.1.Flush().tokens)
  }

  method ShellSplit(command: string) returns (tokens: Option<seq<string>>)
    ensures tokens == Split(command)
  {
    var lexed, quote, i := START, Bare, 0;
    assert command[0..] == command;
    while i < |command|
      invariant i <= |command|
      invariant Lex(command[i..], quote, lexed) == Lex(command, Bare, START)
    {
      ghost var move := NextMove(command[i..], quote);
      var from := i;
      var c := command[i];
      var hasNext := i + 1 < |command|;
      match quote {
        case Single =>
          if c == '\'' {
            quote := Bare;
            lexed := lexed.Add("");
          } else {
            lexed := lexed.Add([c]);
          }
        case Ansi =>
          if c == '\'' {
            quote := Bare;
            lexed := lexed.Add("");
          } else if c == '\\' && hasNext {
            assert command[i..][1..] == command[i + 1..];
            var escape := AnsiEscape(command[i + 1..]);
            i := i + escape.used;
            lexed := lexed.Add(escape.text);
          } else {
            lexed := lexed.Add([c]);
          }
        case Double =>
          if c == '"' {
            quote := Bare;
            lexed := lexed.Add("");
          } else if c == '\\' && hasNext && (IsSpecial(command[i + 1]) || command[i + 1] == '\n') {
            i := i + 1;
            lexed := lexed.Add(if command[i] != '\n' then [command[i]] else "");
          } else {
            lexed := lexed.Add([c]);
          }
        case Bare =>
          if c == '\'' || c == '"' {
            quote := if c == '"' then Double else Single;
            lexed := lexed.Add("");
          } else if c == '$' && hasNext && command[i + 1] == '\'' {
            i := i + 1;
            quote := Ansi;
            lexed := lexed.Add("");
          } else if c == '\\' && hasNext {
            i := i + 1;
            if command[i] != '\n' {
              lexed := lexed.Add([command[i]]);
            }
          } else if c == '`' && hasNext && command[i + 1] == '\n' {
            i := i + 1;
          } else if IsBlank(c) {
            lexed := lexed.Flush();
          } else {
            lexed := lexed.Add([c]);
          }
      }
      i := i + 1;
      assert i == from + move.used;
      assert command[from..][move.used..] == command[i..];
    }
    assert command[i..] == "";
    tokens := if quote != Bare then None else Some(lexed.Flush().tokens);
  }

  /** The quote left open at the end of a command. */
  function OpenQuote(s: string, quote: Quote): Quote
    decreases |s|
  {
    if s == [] then quote else OpenQuote(s[NextMove(s, quote).used..], NextMove(s, quote).quote)
  }

  lemma {:induction false} LexQuote(s: string, quote: Quote, lexed: Lexed)
    ensures Lex(s, quote, lexed).0 == OpenQuote(s, quote)
    decreases |s|
  {
    if s != [] {
      var move := NextMove(s, quote);
      LexQuote(s[move.used..], move.quote, Take(lexed, move));
    }
  }

  /** Splitting fails exactly when the moves through the command end inside quotes. */
  lemma FailsWhenMovesEndQuoted(command: string)
    ensures Split(command).None? <==> OpenQuote(command, Bare) != Bare
  {
    LexQuote(command, Bare, START);
  }

  /** The ways of quoting of sections 2.2.1 to 2.2.3 of the POSIX Shell Command Language. */
  datatype Fragment =
    | Plain(text: string)
    | Escaped(c: char)
    | SingleQuoted(text: string)
    | DoubleQuoted(text: string)

  predicate IsPlain(c: char) {
    !IsBlank(c) && !IsSpecial(c) && c != '\''
  }

  ghost predicate IsFragment(f: Fragment) {
    match f
    case Plain(text) => text != [] && forall i :: 0 <= i < |text| ==> IsPlain(text[i])
    case Escaped(c) => c != '\n'
    case SingleQuoted(text) => '\'' !in text
    case DoubleQuoted(text) => true
  }

  function Escapes(text: string): string {
    if text == [] then "" else (if IsSpecial(text[0]) then ['\\', text[0]] else [text[0]]) + Escapes(text[1..])
  }

  function PrintFragment(f: Fragment): string {
    match f
    case Plain(text) => text
    case Escaped(c) => ['\\', c]
    case SingleQuoted(text) => "'" + text + "'"
    case DoubleQuoted(text) => "\"" + Escapes(text) + "\""
  }

  function FragmentText(f: Fragment): string {
    match f
    case Escaped(c) => [c]
    case _ => f.text
  }

  function PrintWord(word: seq<Fragment>): string {
    if word == [] then "" else PrintFragment(word[0]) + PrintWord(word[1..])
  }

  function WordText(word: seq<Fragment>): string {
    if word == [] then "" else FragmentText(word[0]) + WordText(word[1..])
  }

  ghost predicate IsWord(word: seq<Fragment>) {
    word != [] && forall i :: 0 <= i < |word| ==> IsFragment(word[i])
  }

  /** The words with a gap before each, and one after the last. */
  function PrintCommand(words: seq<seq<Fragment>>, gaps: seq<string>): string
    requires |gaps| == |words| + 1
  {
    if words == [] then gaps[0] else gaps[0] + (PrintWord(words[0]) + PrintCommand(words[1..], gaps[1..]))
  }

  /** Every gap is of blanks; only the first and the last may be empty. */
  ghost predicate AreGaps(gaps: seq<string>) {
    && (forall i, k :: 0 <= i < |gaps| && 0 <= k < |gaps[i]| ==> IsBlank(gaps[i][k]))
    && (forall i :: 0 < i < |gaps| - 1 ==> gaps[i] != [])
  }

  ghost predicate AreWords(words: seq<seq<Fragment>>) {
    forall i :: 0 <= i < |words| ==> IsWord(words[i])
  }

  function Texts(words: seq<seq<Fragment>>): seq<string> {
    if words == [] then [] else [WordText(words[0])] + Texts(words[1..])
  }

  lemma AddAdd(lexed: Lexed, a: string, b: string)
    ensures lexed.Add(a).Add(b) == lexed.Add(a + b)
  {
    assert lexed.current + a + b == lexed.current + (a + b);
  }

  lemma LexOne(s: string, rest: string, quote: Quote, lexed: Lexed)
    requires s != [] && NextMove(s + rest, quote).used == |s|
    ensures Lex(s + rest, quote, lexed) == Lex(rest, NextMove(s + rest, quote).quote, Take(lexed, NextMove(s + rest, quote)))
  {
    assert (s + rest)[|s|..] == rest;
  }

  lemma {:induction false} LexSingle(text: string, rest: string, lexed: Lexed)
    requires '\'' !in text
    ensures Lex(text + "'" + rest, Single, lexed) == Lex(rest, Bare, lexed.Add(text))
  {
    if text == [] {
      assert text + "'" + rest == "'" + rest;
      LexOne("'", rest, Single, lexed);
    } else {
      assert text + "'" + rest == [text[0]] + (text[1..] + "'" + rest);
      LexOne([text[0]], text[1..] + "'" + rest, Single, lexed);
      LexSingle(text[1..], rest, lexed.Add([text[0]]));
      AddAdd(lexed, [text[0]], text[1..]);
      assert [text[0]] + text[1..] == text;
    }
  }

  lemma {:induction false} LexDouble(text: string, rest: string, lexed: Lexed)
    ensures Lex(Escapes(text) + "\"" + rest, Double, lexed) == Lex(rest, Bare, lexed.Add(text))
  {
    if text == [] {
      assert Escapes(text) + "\"" + rest == "\"" + rest;
      LexOne("\"", rest, Double, lexed);
    } else {
      var first := if IsSpecial(text[0]) then ['\\', text[0]] else [text[0]];
      var more := Escapes(text[1..]) + "\"" + rest;
      assert Escapes(text) + "\"" + rest == first + more;
      LexOne(first, more, Double, lexed);
      LexDouble(text[1..], rest, lexed.Add([text[0]]));
      AddAdd(lexed, [text[0]], text[1..]);
      assert [text[0]] + text[1..] == text;
    }
  }

  lemma {:induction false} LexPlain(text: string, rest: string, lexed: Lexed)
    requires text != [] && forall i :: 0 <= i < |text| ==> IsPlain(text[i])
    ensures Lex(text + rest, Bare, lexed) == Lex(rest, Bare, lexed.Add(text))
  {
    assert IsPlain(text[0]);
    assert text + rest == [text[0]] + (text[1..] + rest);
    LexOne([text[0]], text[1..] + rest, Bare, lexed);
    if |text| == 1 {
      assert text[1..] + rest == rest && [text[0]] == text;
    } else {
      LexPlain(text[1..], rest, lexed.Add([text[0]]));
      AddAdd(lexed, [text[0]], text[1..]);
      assert [text[0]] + text[1..] == text;
    }
  }

  lemma LexSingleQuoted(text: string, rest: string, lexed: Lexed)
    requires '\'' !in text
    ensures Lex("'" + (text + "'" + rest), Bare, lexed) == Lex(rest, Bare, lexed.Add(text))
  {
    LexOne("'", text + "'" + rest, Bare, lexed);
    LexSingle(text, rest, lexed.Add(""));
    AddAdd(lexed, "", text);
    assert "" + text == text;
  }

  lemma LexDoubleQuoted(text: string, rest: string, lexed: Lexed)
    ensures Lex("\"" + (Escapes(text) + "\"" + rest), Bare, lexed) == Lex(rest, Bare, lexed.Add(text))
  {
    LexOne("\"", Escapes(text) + "\"" + rest, Bare, lexed);
    LexDouble(text, rest, lexed.Add(""));
    AddAdd(lexed, "", text);
    assert "" + text == text;
  }

  lemma Regroup<T>(a: seq<T>, b: seq<T>, c: seq<T>, d: seq<T>)
    ensures a + b + c + d == a + (b + c + d)
  {
  }

  lemma Prepend<T>(a: seq<T>, b: T, c: seq<T>)
    ensures a + [b] + c == a + ([b] + c)
  {
  }

  lemma LexFragment(f: Fragment, rest: string, lexed: Lexed)
    requires IsFragment(f)
    ensures Lex(PrintFragment(f) + rest, Bare, lexed) == Lex(rest, Bare, lexed.Add(FragmentText(f)))
  {
    match f
    case Plain(text) => LexPlain(text, rest, lexed);
    case Escaped(c) => LexOne(['\\', c], rest, Bare, lexed);
    case SingleQuoted(text) =>
      Regroup("'", text, "'", rest);
      LexSingleQuoted(text, rest, lexed);
    case DoubleQuoted(text) =>
      Regroup("\"", Escapes(text), "\"", rest);
      LexDoubleQuoted(text, rest, lexed);
  }

  lemma {:induction false} LexWord(word: seq<Fragment>, rest: string, lexed: Lexed)
    requires IsWord(word)
    ensures Lex(PrintWord(word) + rest, Bare, lexed) == Lex(rest, Bare, lexed.Add(WordText(word)))
    decreases |word|
  {
    var f, more := word[0], word[1..];
    assert PrintWord(word) + rest == PrintFragment(f) + (PrintWord(more) + rest);
    LexFragment(f, PrintWord(more) + rest, lexed);
    if more == [] {
      assert PrintWord(more) + rest == rest && FragmentText(f) + "" == FragmentText(f);
    } else {
      LexWord(more, rest, lexed.Add(FragmentText(f)));
      AddAdd(lexed, FragmentText(f), WordText(more));
    }
  }

  /** A gap ends the token before it; without a gap the token goes on. */
  function AfterGap(gap: string, lexed: Lexed): Lexed {
    if gap == [] then lexed else lexed.Flush()
  }

  lemma {:induction false} LexGap(gap: string, rest: string, lexed: Lexed)
    requires forall i :: 0 <= i < |gap| ==> IsBlank(gap[i])
    ensures Lex(gap + rest, Bare, lexed) == Lex(rest, Bare, AfterGap(gap, lexed))
  {
    if gap == [] {
      assert gap + rest == rest;
    } else {
      assert IsBlank(gap[0]);
      assert gap + rest == [gap[0]] + (gap[1..] + rest);
      LexOne([gap[0]], gap[1..] + rest, Bare, lexed);
      LexGap(gap[1..], rest, lexed.Flush());
    }
  }

  /** What has been read once these words are: the last one is finished only by a gap. */
  function Reading(words: seq<seq<Fragment>>, gaps: seq<string>, lexed: Lexed): Lexed
    requires |gaps| == |words| + 1
  {
    if words == [] then AfterGap(gaps[0], lexed)
    else Reading(words[1..], gaps[1..], AfterGap(gaps[0], lexed).Add(WordText(words[0])))
  }

  lemma RegroupTwo<T>(a: seq<T>, b: seq<T>, c: seq<T>, d: seq<T>)
    ensures a + (b + c) + d == a + (b + (c + d))
  {
  }

  lemma {:induction false} LexCommand(words: seq<seq<Fragment>>, gaps: seq<string>, rest: string, lexed: Lexed)
    requires |gaps| == |words| + 1 && AreWords(words)
    requires forall i, k :: 0 <= i < |gaps| && 0 <= k < |gaps[i]| ==> IsBlank(gaps[i][k])
    ensures Lex(PrintCommand(words, gaps) + rest, Bare, lexed) == Lex(rest, Bare, Reading(words, gaps, lexed))
    decreases |words|
  {
    if words == [] {
      LexGap(gaps[0], rest, lexed);
    } else {
      var more := PrintCommand(words[1..], gaps[1..]);
      assert IsWord(words[0]);
      RegroupTwo(gaps[0], PrintWord(words[0]), more, rest);
      LexGap(gaps[0], PrintWord(words[0]) + (more + rest), lexed);
      LexWord(words[0], more + rest, AfterGap(gaps[0], lexed));
      LexCommand(words[1..], gaps[1..], rest, AfterGap(gaps[0], lexed).Add(WordText(words[0])));
    }
  }

  /** With a gap between any two words, each word is a token. */
  lemma {:induction false} ReadingTokens(words: seq<seq<Fragment>>, gaps: seq<string>, lexed: Lexed)
    requires |gaps| == |words| + 1 && (lexed.inToken ==> words == [] || gaps[0] != [])
    requires !lexed.inToken ==> lexed.current == []
    requires forall i :: 0 < i < |gaps| - 1 ==> gaps[i] != []
    ensures Reading(words, gaps, lexed).Flush().tokens == lexed.Flush().tokens + Texts(words)
    decreases |words|
  {
    if words == [] {
      assert lexed.Flush().tokens + [] == lexed.Flush().tokens;
    } else {
      var text := WordText(words[0]);
      var before := AfterGap(gaps[0], lexed);
      assert "" + text == text;
      ReadingTokens(words[1..], gaps[1..], before.Add(text));
      Prepend(before.tokens, text, Texts(words[1..]));
    }
  }

  /** Splitting undoes quoting: however each word is put together from quoted fragments, and whatever blanks
      separate the words and stand before and after them, the words come back. */
  lemma SplitUndoesQuoting(words: seq<seq<Fragment>>, gaps: seq<string>)
    requires |gaps| == |words| + 1 && AreWords(words) && AreGaps(gaps)
    ensures Split(PrintCommand(words, gaps)) == Some(Texts(words))
  {
    LexCommand(words, gaps, "", START);
    ReadingTokens(words, gaps, START);
    assert PrintCommand(words, gaps) + "" == PrintCommand(words, gaps);
    assert [] + Texts(words) == Texts(words);
  }

  /** Any token, the empty one included, quoted by single quotes with `\'` between them. */
  function InSingleQuotes(token: string): (word: seq<Fragment>)
    ensures IsWord(word) && WordText(word) == token
  {
    if token == [] then [SingleQuoted("")]
    else
      var rest := InSingleQuotes(token[1..]);
      var first := if token[0] == '\'' then Escaped('\'') else SingleQuoted([token[0]]);
      assert ([first] + rest)[1..] == rest;
      [first] + rest
  }

  function Quoted(tokens: seq<string>, double: bool): (words: seq<seq<Fragment>>)
    ensures |words| == |tokens| && AreWords(words)
    ensures Texts(words) == tokens
  {
    if tokens == [] then []
    else
      var word := if double then [DoubleQuoted(tokens[0])] else InSingleQuotes(tokens[0]);
      assert double ==> word[1..] == [] && tokens[0] + "" == tokens[0];
      var rest := Quoted(tokens[1..], double);
      assert ([word] + rest)[1..] == rest && [WordText(word)] + tokens[1..] == tokens;
      [word] + rest
  }

  /** Every list of tokens can be quoted either way, and splitting gives it back, whatever the gaps. */
  lemma EveryTokenListRoundTrips(tokens: seq<string>, double: bool, gaps: seq<string>)
    requires |gaps| == |tokens| + 1 && AreGaps(gaps)
    ensures Split(PrintCommand(Quoted(tokens, double), gaps)) == Some(tokens)
  {
    SplitUndoesQuoting(Quoted(tokens, double), gaps);
  }
}
