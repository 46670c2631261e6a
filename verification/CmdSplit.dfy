/** The cmd.exe tokeniser of `engine/curl.go`: `cmdUnescape` and `crtSplit`, and the choice
`splitCommand` makes between it and the POSIX one. */
module CmdSplit {
  import opened Text
  import opened ShellSplit

  /** `strings.ReplaceAll(command, "\r\n", "\n")`. */
  function ReplaceCrLf(s: string): string {
    if s == [] then ""
    else if s[0] == '\r' && |s| > 1 && s[1] == '\n' then "\n" + ReplaceCrLf(s[2..])
    else [s[0]] + ReplaceCrLf(s[1..])
  }

  predicate ContainsCaretQuote(s: string) {
    exists i :: 0 <= i < |s| - 1 && s[i] == '^' && s[i + 1] == '"'
  }

  /** Some line ends in a caret, blanks aside. */
  predicate LineEndsInCaret(s: string) {
    exists i, j :: 0 <= i < j <= |s| && EndsLine(s, i, j)
  }

  predicate EndsLine(s: string, i: nat, j: nat)
    requires i < j <= |s|
  {
    s[i] == '^' && (j == |s| || s[j] == '\n') && forall k :: i < k < j ==> s[k] == ' ' || s[k] == '\t'
  }

  predicate IsCmdCommand(s: string) {
    ContainsCaretQuote(s) || LineEndsInCaret(s)
  }

  /** A caret outside quotes takes the next character as it is, and drops a line break. */
  function CmdUnescape(s: string, quoted: bool): string {
    if s == [] then ""
    else if s[0] == '"' then "\"" + CmdUnescape(s[1..], !quoted)
    else if s[0] == '^' && !quoted then
      (if |s| == 1 then "" else (if s[1] == '\n' then "" else [s[1]]) + CmdUnescape(s[2..], quoted))
    else [s[0]] + CmdUnescape(s[1..], quoted)
  }

  lemma Group(a: string, b: string, c: string)
    ensures a + b + c == a + (b + c)
  {
  }

  lemma SliceOfSlice(s: string, i: nat, j: nat)
    requires i <= j <= |s|
    ensures s[i..][j - i..] == s[j..]
  {
  }

  method Unescape(command: string) returns (out: string)
    ensures out == CmdUnescape(command, false)
  {
    out := "";
    var quoted, i := false, 0;
    assert command[0..] == command;
    while i < |command|
      invariant i <= |command|
      invariant CmdUnescape(command, false) == out + CmdUnescape(command[i..], quoted)
    {
      var c := command[i];
      ghost var rest, at := command[i..], i;
      var piece := [c];
      if c == '"' {
        quoted := !quoted;
      } else if c == '^' && !quoted {
        i := i + 1;
        piece := if i < |command| && command[i] != '\n' then [command[i]] else "";
      }
      i := if i < |command| then i + 1 else i;
      SliceOfSlice(command, at, i);
      Group(out, piece, CmdUnescape(command[i..], quoted));
      out := out + piece;
    }
    assert command[i..] == "";
  }

  /** How many backslashes a text starts with. */
  function Backslashes(s: string): (n: nat)
    ensures n <= |s|
    ensures forall i :: 0 <= i < n ==> s[i] == '\\'
    ensures n < |s| ==> s[n] != '\\'
  {
    if s == [] || s[0] != '\\' then 0 else 1 + Backslashes(s[1..])
  }

  function Repeat(n: nat): (s: string)
    ensures |s| == n
    ensures forall i :: 0 <= i < n ==> s[i] == '\\'
  {
    seq(n, _ => '\\')
  }

  /** `crtSplit`: before a quote, backslashes count in pairs and an odd one escapes the quote. */
  function Crt(s: string, quoted: bool, lexed: Lexed): Lexed
    decreases |s|
  {
    if s == [] then lexed
    else if s[0] == '\\' then
      var n := Backslashes(s);
      if n < |s| && s[n] == '"' then
        (if n % 2 == 1 then Crt(s[n + 1..], quoted, lexed.Add(Repeat(n / 2)).Add("\""))
         else Crt(s[n..], quoted, lexed.Add(Repeat(n / 2))))
      else Crt(s[n..], quoted, lexed.Add(Repeat((n + 1) / 2)))
    else if s[0] == '"' then
      (if quoted && |s| > 1 && s[1] == '"' then Crt(s[2..], quoted, lexed.Add("\""))
       else Crt(s[1..], !quoted, lexed.Add("")))
    else if !quoted && IsBlank(s[0]) then Crt(s[1..], quoted, lexed.Flush())
    else Crt(s[1..], quoted, lexed.Add([s[0]]))
  }

  method CrtSplit(command: string) returns (tokens: seq<string>)
    ensures tokens == Crt(command, false, START).Flush().tokens
  {
    var lexed, quoted, i := START, false, 0;
    assert command[0..] == command;
    while i < |command|
      invariant i <= |command|
      invariant Crt(command[i..], quoted, lexed) == Crt(command, false, START)
    {
      if command[i] == '\\' {
        i, lexed := CrtBackslashes(command, i, quoted, lexed);
      } else {
        i, quoted, lexed := CrtOther(command, i, quoted, lexed);
      }
    }
    assert command[i..] == "";
    tokens := lexed.Flush().tokens;
  }

  /** The case of the loop that starts at a backslash. */
  method CrtBackslashes(command: string, at: nat, quoted: bool, before: Lexed) returns (i: nat, lexed: Lexed)
    requires at < |command| && command[at] == '\\'
    ensures at < i <= |command| && Crt(command[i..], quoted, lexed) == Crt(command[at..], quoted, before)
  {
    ghost var rest := command[at..];
    var count := 1;
    while at + count < |command| && command[at + count] == '\\'
      invariant 1 <= count && at + count <= |command|
      invariant forall k :: 0 <= k < count ==> rest[k] == '\\'
    {
      count := count + 1;
    }
    BackslashesExact(rest, count);
    i := at + count - 1;
    if i + 1 < |command| && command[i + 1] == '"' {
      lexed := before.Add(Repeat(count / 2));
      if count % 2 == 1 {
        i := i + 1;
        lexed := lexed.Add("\"");
      }
    } else {
      lexed := before.Add(Repeat((count + 1) / 2));
    }
    i := i + 1;
    assert command[i..] == rest[i - at..];
  }

  /** Every other case. */
  method CrtOther(command: string, at: nat, open: bool, before: Lexed) returns (i: nat, quoted: bool, lexed: Lexed)
    requires at < |command| && command[at] != '\\'
    ensures at < i <= |command| && Crt(command[i..], quoted, lexed) == Crt(command[at..], open, before)
  {
    i, quoted := at, open;
    var c := command[at];
    if c == '"' {
      if quoted && i + 1 < |command| && command[i + 1] == '"' {
        i := i + 1;
        lexed := before.Add("\"");
      } else {
        quoted := !quoted;
        lexed := before.Add("");
      }
    } else if !quoted && IsBlank(c) {
      lexed := before.Flush();
    } else {
      lexed := before.Add([c]);
    }
    i := i + 1;
    assert command[i..] == command[at..][i - at..];
  }

  lemma {:induction false} BackslashesExact(s: string, n: nat)
    requires n <= |s| && (forall i :: 0 <= i < n ==> s[i] == '\\') && (n < |s| ==> s[n] != '\\')
    ensures Backslashes(s) == n
  {
  }

  /** `splitCommand`. */
  function SplitCommand(command: string): Option<seq<string>> {
    var text := ReplaceCrLf(command);
    if IsCmdCommand(text) then Some(Crt(CmdUnescape(text, false), false, START).Flush().tokens) else Split(text)
  }

  // Quoting for cmd.exe, as browsers copy a request: backslashes are doubled, a quote is escaped by a
  // backslash, and each quote and caret by a caret; a line break is written caret, break, break.

  function CmdChar(c: char): string {
    if c == '\\' then "\\\\" else if c == '"' then "\\^\"" else if c == '^' then "^^" else if c == '\n' then "^\n\n" else [c]
  }

  function CmdBody(token: string): string {
    if token == [] then "" else CmdChar(token[0]) + CmdBody(token[1..])
  }

  function CmdQuote(token: string): string {
    "^\"" + CmdBody(token) + "^\""
  }

  function CmdCommand(tokens: seq<string>): string {
    if tokens == [] then ""
    else if |tokens| == 1 then CmdQuote(tokens[0])
    else CmdQuote(tokens[0]) + " " + CmdCommand(tokens[1..])
  }

  // The same once the carets are gone.

  function CrtChar(c: char): string {
    if c == '\\' then "\\\\" else if c == '"' then "\\\"" else [c]
  }

  function CrtBody(token: string): string {
    if token == [] then "" else CrtChar(token[0]) + CrtBody(token[1..])
  }

  function CrtQuote(token: string): string {
    "\"" + CrtBody(token) + "\""
  }

  function CrtCommand(tokens: seq<string>): string {
    if tokens == [] then ""
    else if |tokens| == 1 then CrtQuote(tokens[0])
    else CrtQuote(tokens[0]) + " " + CrtCommand(tokens[1..])
  }

  lemma UnescapePlain(c: char, rest: string)
    requires c != '"' && c != '^'
    ensures CmdUnescape([c] + rest, false) == [c] + CmdUnescape(rest, false)
  {
    assert ([c] + rest)[1..] == rest;
  }

  lemma UnescapeCaret(c: char, rest: string)
    ensures CmdUnescape("^" + ([c] + rest), false) == (if c == '\n' then "" else [c]) + CmdUnescape(rest, false)
  {
    CaretParts(c, rest);
    var s := "^" + ([c] + rest);
    assert CmdUnescape(s, false) == (if s[1] == '\n' then "" else [s[1]]) + CmdUnescape(s[2..], false);
  }

  lemma CaretParts(c: char, rest: string)
    ensures var s := "^" + ([c] + rest);
            |s| >= 2 && s[0] == '^' && s[1] == c && s[2..] == rest
  {
  }

  lemma UnescapeChar(c: char, rest: string)
    ensures CmdUnescape(CmdChar(c) + rest, false) == CrtChar(c) + CmdUnescape(rest, false)
  {
    if c == '\\' {
      Group("\\", "\\", rest);
      UnescapePlain('\\', "\\" + rest);
      UnescapePlain('\\', rest);
      Group("\\", "\\", CmdUnescape(rest, false));
    } else if c == '"' {
      Group("\\", "^\"", rest);
      Group("^", "\"", rest);
      UnescapePlain('\\', "^" + ("\"" + rest));
      UnescapeCaret('"', rest);
      Group("\\", "\"", CmdUnescape(rest, false));
    } else if c == '^' {
      Group("^", "^", rest);
      UnescapeCaret('^', rest);
    } else if c == '\n' {
      Group("^\n", "\n", rest);
      Group("^", "\n", "\n" + rest);
      UnescapeCaret('\n', "\n" + rest);
      UnescapePlain('\n', rest);
      assert "" + CmdUnescape("\n" + rest, false) == CmdUnescape("\n" + rest, false);
    } else {
      UnescapePlain(c, rest);
    }
  }

  lemma {:induction false} UnescapeBody(token: string, rest: string)
    ensures CmdUnescape(CmdBody(token) + rest, false) == CrtBody(token) + CmdUnescape(rest, false)
  {
    if token == [] {
      assert CmdBody(token) + rest == rest && CrtBody(token) + CmdUnescape(rest, false) == CmdUnescape(rest, false);
    } else {
      Group(CmdChar(token[0]), CmdBody(token[1..]), rest);
      UnescapeChar(token[0], CmdBody(token[1..]) + rest);
      UnescapeBody(token[1..], rest);
      Group(CrtChar(token[0]), CrtBody(token[1..]), CmdUnescape(rest, false));
    }
  }

  lemma UnescapeMark(rest: string)
    ensures CmdUnescape("^\"" + rest, false) == "\"" + CmdUnescape(rest, false)
  {
    assert ("^\"" + rest)[2..] == rest;
  }

  lemma UnescapeQuote(token: string, rest: string)
    ensures CmdUnescape(CmdQuote(token) + rest, false) == CrtQuote(token) + CmdUnescape(rest, false)
  {
    Regroup("^\"", CmdBody(token), "^\"", rest);
    Group(CmdBody(token), "^\"", rest);
    UnescapeMark(CmdBody(token) + ("^\"" + rest));
    UnescapeBody(token, "^\"" + rest);
    UnescapeMark(rest);
    Regroup("\"", CrtBody(token), "\"", CmdUnescape(rest, false));
    Group(CrtBody(token), "\"", CmdUnescape(rest, false));
  }

  lemma {:induction false} UnescapeCommand(tokens: seq<string>)
    ensures CmdUnescape(CmdCommand(tokens), false) == CrtCommand(tokens)
    decreases |tokens|
  {
    if |tokens| == 1 {
      UnescapeQuote(tokens[0], "");
      assert CmdQuote(tokens[0]) + "" == CmdQuote(tokens[0]) && CrtQuote(tokens[0]) + "" == CrtQuote(tokens[0]);
    } else if |tokens| > 1 {
      var more := CmdCommand(tokens[1..]);
      Group(CmdQuote(tokens[0]), " ", more);
      UnescapeQuote(tokens[0], " " + more);
      assert (" " + more)[1..] == more;
      UnescapeCommand(tokens[1..]);
      Group(CrtQuote(tokens[0]), " ", CrtCommand(tokens[1..]));
    }
  }

  // Reading the quoted form back.

  lemma LeadingBackslashes(n: nat, rest: string)
    requires rest == [] || rest[0] != '\\'
    ensures Backslashes(Repeat(n) + rest) == n && (Repeat(n) + rest)[n..] == rest
  {
    BackslashesExact(Repeat(n) + rest, n);
  }

  /** Backslashes come out in pairs. */
  lemma {:induction false} CrtBodyBackslashes(token: string)
    ensures var n := Backslashes(token);
            CrtBody(token) == Repeat(2 * n) + CrtBody(token[n..])
  {
    if token != [] && token[0] == '\\' {
      CrtBodyBackslashes(token[1..]);
      var n := Backslashes(token);
      assert token[1..][n - 1..] == token[n..];
      TwoMore(2 * n - 2, CrtBody(token[n..]));
    } else {
      NoneMore(CrtBody(token));
    }
  }

  lemma TwoMore(n: nat, rest: string)
    ensures "\\\\" + (Repeat(n) + rest) == Repeat(n + 2) + rest
  {
  }

  lemma NoneMore(rest: string)
    ensures Repeat(0) + rest == rest
  {
  }

  predicate EndsToken(rest: string) {
    rest == [] || rest[0] == ' '
  }

  /** The closing quote. */
  lemma CrtClose(rest: string, lexed: Lexed)
    requires EndsToken(rest)
    ensures Crt("\"" + rest, true, lexed) == Crt(rest, false, lexed.Add(""))
  {
    assert ("\"" + rest)[1..] == rest;
  }

  /** Backslashes right before the closing quote. */
  lemma CrtBackslashesThenClose(n: nat, rest: string, lexed: Lexed)
    requires EndsToken(rest) && n > 0
    ensures Crt(Repeat(2 * n) + ("\"" + rest), true, lexed) == Crt(rest, false, lexed.Add(Repeat(n)))
  {
    LeadingBackslashes(2 * n, "\"" + rest);
    CrtClose(rest, lexed.Add(Repeat(n)));
    AddAdd(lexed, Repeat(n), "");
    assert Repeat(n) + "" == Repeat(n);
  }

  lemma OneMore(n: nat, rest: string)
    ensures Repeat(n) + ("\\\"" + rest) == Repeat(n + 1) + ("\"" + rest)
  {
  }

  lemma CrtOddBackslashes(n: nat, rest: string, lexed: Lexed)
    ensures Crt(Repeat(2 * n + 1) + ("\"" + rest), true, lexed) == Crt(rest, true, lexed.Add(Repeat(n)).Add("\""))
  {
    var s := Repeat(2 * n + 1) + ("\"" + rest);
    LeadingBackslashes(2 * n + 1, "\"" + rest);
    assert s[0] == '\\' && s[2 * n + 1] == '"';
    assert s[2 * n + 2..] == rest;
    assert (2 * n + 1) / 2 == n;
  }

  /** Backslashes right before an escaped quote. */
  lemma CrtBackslashesThenQuote(n: nat, rest: string, lexed: Lexed)
    ensures Crt(Repeat(2 * n) + ("\\\"" + rest), true, lexed) == Crt(rest, true, lexed.Add(Repeat(n) + "\""))
  {
    OneMore(2 * n, rest);
    CrtOddBackslashes(n, rest, lexed);
    AddAdd(lexed, Repeat(n), "\"");
  }

  /** Backslashes before any other character, and the character. */
  lemma CrtBackslashesThenChar(n: nat, c: char, rest: string, lexed: Lexed)
    requires c != '\\' && c != '"'
    ensures Crt(Repeat(2 * n) + ([c] + rest), true, lexed) == Crt(rest, true, lexed.Add(Repeat(n) + [c]))
  {
    LeadingBackslashes(2 * n, [c] + rest);
    assert ([c] + rest)[1..] == rest;
    if n == 0 {
      assert Repeat(0) + ([c] + rest) == [c] + rest && Repeat(0) + [c] == [c];
    } else {
      AddAdd(lexed, Repeat(n), [c]);
    }
  }

  lemma SplitToken(token: string, n: nat)
    requires n == Backslashes(token)
    ensures token[..n] == Repeat(n)
    ensures n < |token| ==> token == Repeat(n) + [token[n]] + token[n + 1..]
  {
    assert token[..n] == Repeat(n);
    if n < |token| {
      SplitAround(token, n);
    }
  }

  lemma SplitAround(s: string, n: nat)
    requires n < |s|
    ensures s == s[..n] + [s[n]] + s[n + 1..]
  {
  }

  /** Inside the quotes: the token is read back up to its closing quote. */
  lemma {:induction false} CrtReadsBody(token: string, rest: string, lexed: Lexed)
    requires EndsToken(rest)
    ensures Crt(CrtBody(token) + ("\"" + rest), true, lexed) == Crt(rest, false, lexed.Add(token))
    decreases |token|
  {
    var n := Backslashes(token);
    var after := token[n..];
    CrtBodyBackslashes(token);
    SplitToken(token, n);
    Group(Repeat(2 * n), CrtBody(after), "\"" + rest);
    if after == [] {
      assert CrtBody(after) + ("\"" + rest) == "\"" + rest && token == Repeat(n);
      if n == 0 {
        assert Repeat(0) + ("\"" + rest) == "\"" + rest;
        CrtClose(rest, lexed);
      } else {
        CrtBackslashesThenClose(n, rest, lexed);
      }
    } else {
      var c, more := after[0], CrtBody(after[1..]) + ("\"" + rest);
      Group(CrtChar(c), CrtBody(after[1..]), "\"" + rest);
      if c == '"' {
        CrtBackslashesThenQuote(n, more, lexed);
      } else {
        CrtBackslashesThenChar(n, c, more, lexed);
      }
      CrtReadsBody(after[1..], rest, lexed.Add(Repeat(n) + [c]));
      AddAdd(lexed, Repeat(n) + [c], after[1..]);
      assert after[1..] == token[n + 1..];
    }
  }

  lemma CrtReadsQuote(token: string, rest: string, tokens: seq<string>)
    requires EndsToken(rest)
    ensures Crt(CrtQuote(token) + rest, false, Lexed(tokens, "", false)) == Crt(rest, false, Lexed(tokens, token, true))
  {
    var start := Lexed(tokens, "", false);
    Regroup("\"", CrtBody(token), "\"", rest);
    Group(CrtBody(token), "\"", rest);
    var body := CrtBody(token) + ("\"" + rest);
    assert CrtQuote(token) + rest == "\"" + body;
    assert ("\"" + body)[1..] == body;
    CrtReadsBody(token, rest, start.Add(""));
    AddAdd(start, "", token);
    assert "" + token == token;
  }

  lemma CrtReadsGap(rest: string, tokens: seq<string>, token: string)
    ensures Crt(" " + rest, false, Lexed(tokens, token, true)) == Crt(rest, false, Lexed(tokens + [token], "", false))
  {
    assert (" " + rest)[1..] == rest;
  }

  lemma {:induction false} CrtReadsCommand(tokens: seq<string>, before: seq<string>)
    requires tokens != []
    ensures Crt(CrtCommand(tokens), false, Lexed(before, "", false)).Flush().tokens == before + tokens
    decreases |tokens|
  {
    var token := tokens[0];
    if |tokens| == 1 {
      CrtReadsQuote(token, "", before);
      assert CrtQuote(token) + "" == CrtQuote(token);
      assert tokens == [token];
    } else {
      var more := CrtCommand(tokens[1..]);
      Group(CrtQuote(token), " ", more);
      CrtReadsQuote(token, " " + more, before);
      CrtReadsGap(more, before, token);
      CrtReadsCommand(tokens[1..], before + [token]);
      Prepend(before, token, tokens[1..]);
      assert [token] + tokens[1..] == tokens;
    }
  }

  /** No line break follows a carriage return, so nothing is replaced. */
  ghost predicate HasNoCrLf(s: string) {
    (s != [] ==> s[0] != '\n') && forall i :: 0 < i < |s| && s[i] == '\n' ==> s[i - 1] != '\r'
  }

  lemma NoCrLfJoin(a: string, b: string)
    requires HasNoCrLf(a) && HasNoCrLf(b)
    ensures HasNoCrLf(a + b)
  {
  }

  lemma {:induction false} BodyHasNoCrLf(token: string)
    ensures HasNoCrLf(CmdBody(token))
  {
    if token != [] {
      BodyHasNoCrLf(token[1..]);
      NoCrLfJoin(CmdChar(token[0]), CmdBody(token[1..]));
    }
  }

  lemma {:induction false} CommandHasNoCrLf(tokens: seq<string>)
    ensures HasNoCrLf(CmdCommand(tokens))
    decreases |tokens|
  {
    if tokens != [] {
      BodyHasNoCrLf(tokens[0]);
      NoCrLfJoin("^\"", CmdBody(tokens[0]));
      NoCrLfJoin("^\"" + CmdBody(tokens[0]), "^\"");
      if |tokens| > 1 {
        CommandHasNoCrLf(tokens[1..]);
        NoCrLfJoin(CmdQuote(tokens[0]), " ");
        NoCrLfJoin(CmdQuote(tokens[0]) + " ", CmdCommand(tokens[1..]));
      }
    }
  }

  lemma {:induction false} NothingToReplace(s: string)
    requires forall i :: 0 < i < |s| && s[i] == '\n' ==> s[i - 1] != '\r'
    ensures ReplaceCrLf(s) == s
  {
    if s != [] {
      assert forall i :: 0 <= i < |s[1..]| ==> s[1..][i] == s[i + 1];
      NothingToReplace(s[1..]);
    }
  }

  /** Every non-empty list of tokens, quoted for cmd.exe, is read back, whatever the tokens contain. */
  lemma SplitUndoesCmdQuoting(tokens: seq<string>)
    requires tokens != []
    ensures SplitCommand(CmdCommand(tokens)) == Some(tokens)
  {
    var command := CmdCommand(tokens);
    CommandHasNoCrLf(tokens);
    NothingToReplace(command);
    assert command[0] == '^' && command[1] == '"';
    assert ContainsCaretQuote(command);
    UnescapeCommand(tokens);
    CrtReadsCommand(tokens, []);
    assert [] + tokens == tokens;
  }

  // Commands quoted for a POSIX shell.

  predicate HasCrLf(s: string) {
    exists i :: 0 <= i < |s| - 1 && s[i] == '\r' && s[i + 1] == '\n'
  }

  lemma {:induction false} NoCrLfIsKept(s: string)
    requires !HasCrLf(s)
    ensures ReplaceCrLf(s) == s
  {
    if s != [] {
      var rest := s[1..];
      assert !HasCrLf(rest) by {
        assert forall i :: 0 <= i < |rest| ==> rest[i] == s[i + 1];
      }
      NoCrLfIsKept(rest);
      assert [s[0]] + rest == s;
    }
  }

  /** The whole of `splitCommand` undoes quoting as well, unless the text looks like a command for cmd.exe. */
  lemma CommandUndoesQuoting(words: seq<seq<Fragment>>, gaps: seq<string>)
    requires |gaps| == |words| + 1 && AreWords(words) && AreGaps(gaps)
    requires !IsCmdCommand(PrintCommand(words, gaps)) && !HasCrLf(PrintCommand(words, gaps))
    ensures SplitCommand(PrintCommand(words, gaps)) == Some(Texts(words))
  {
    NoCrLfIsKept(PrintCommand(words, gaps));
    SplitUndoesQuoting(words, gaps);
  }

  /** It is not undone for the token `^"` in single quotes: the text is split as a command for cmd.exe. */
  lemma CaretQuoteIsMisread(text: string)
    requires text == PrintCommand([[SingleQuoted("^\"")]], ["", ""])
    ensures Split(text) == Some(["^\""]) && SplitCommand(text) == Some(["''"])
  {
    CaretQuotePrinted(text);
    assert text[1] == '^' && text[2] == '"';
    NoCrLfIsKept(text);
    CaretQuoteUnescaped();
    QuoteInQuotes("'\"'");
  }

  lemma CaretQuotePrinted(text: string)
    requires text == PrintCommand([[SingleQuoted("^\"")]], ["", ""])
    ensures text == "'^\"'" && Split(text) == Some(["^\""])
  {
    var word := [SingleQuoted("^\"")];
    assert word[1..] == [] && WordText(word) == "^\"" + "" && PrintWord(word) == "'^\"'" + "";
    assert "^\"" + "" == "^\"";
    OneWord(word);
  }

  lemma OneWord(word: seq<Fragment>)
    requires IsWord(word)
    ensures PrintCommand([word], ["", ""]) == PrintWord(word) && Split(PrintCommand([word], ["", ""])) == Some([WordText(word)])
  {
    var words: seq<seq<Fragment>>, gaps := [word], ["", ""];
    assert words[1..] == [] && gaps[1..] == [""];
    SplitUndoesQuoting(words, gaps);
    assert [WordText(word)] + [] == [WordText(word)];
    assert "" + (PrintWord(word) + "") == PrintWord(word);
  }

  lemma CaretQuoteUnescaped()
    ensures CmdUnescape("'^\"'", false) == "'\"'"
  {
    assert "'^\"'" == ['\''] + ("^\"" + "'");
    UnescapePlain('\'', "^\"" + "'");
    UnescapeMark("'");
    assert "'" == ['\''] + "";
    UnescapePlain('\'', "");
  }

  lemma QuoteInQuotes(text: string)
    requires text == "'\"'"
    ensures Crt(text, false, START).Flush().tokens == ["''"]
  {
    assert text[1..] == "\"'" && "\"'"[1..] == "'" && "'"[1..] == "";
    var first := START.Add("'");
    var second := first.Add("").Add("'");
    assert Crt(text, false, START) == Crt("\"'", false, first);
    assert Crt("\"'", false, first) == Crt("'", true, first.Add(""));
    assert Crt("'", true, first.Add("")) == second && second.current == "''";
  }

  /** Every caret and carriage return is followed by a single quote. */
  predicate IsCalm(s: string) {
    forall i :: 0 <= i < |s| && (s[i] == '^' || s[i] == '\r') ==> i + 1 < |s| && s[i + 1] == '\''
  }

  lemma CalmJoins(a: string, b: string)
    requires IsCalm(a) && IsCalm(b)
    ensures IsCalm(a + b)
  {
  }

  lemma CalmIsPosix(s: string)
    requires IsCalm(s)
    ensures !IsCmdCommand(s) && !HasCrLf(s)
  {
    forall i: nat, j: nat | i < j <= |s| ensures !EndsLine(s, i, j) {
      if s[i] == '^' {
        assert s[i + 1] == '\'';
      }
    }
  }

  lemma {:induction false} SingleQuotesAreCalm(token: string)
    ensures IsCalm(PrintWord(InSingleQuotes(token)))
  {
    if token != [] {
      var first := InSingleQuotes(token)[0];
      assert InSingleQuotes(token)[1..] == InSingleQuotes(token[1..]);
      SingleQuotesAreCalm(token[1..]);
      CalmJoins(PrintFragment(first), PrintWord(InSingleQuotes(token[1..])));
    }
  }

  /** One blank between the tokens. */
  function Spaces(n: nat): (gaps: seq<string>)
    ensures |gaps| == n + 1 && AreGaps(gaps)
  {
    seq(n + 1, i => if 0 < i < n then " " else "")
  }

  lemma {:induction false} CalmCommand(tokens: seq<string>, gaps: seq<string>)
    requires |gaps| == |tokens| + 1 && forall i :: 0 <= i < |gaps| ==> gaps[i] == " " || gaps[i] == ""
    ensures IsCalm(PrintCommand(Quoted(tokens, false), gaps))
    decreases |tokens|
  {
    assert gaps[0] == " " || gaps[0] == "";
    if tokens != [] {
      var words := Quoted(tokens, false);
      assert words[0] == InSingleQuotes(tokens[0]) && words[1..] == Quoted(tokens[1..], false);
      SingleQuotesAreCalm(tokens[0]);
      CalmCommand(tokens[1..], gaps[1..]);
      var more := PrintCommand(words[1..], gaps[1..]);
      CalmJoins(PrintWord(words[0]), more);
      CalmJoins(gaps[0], PrintWord(words[0]) + more);
    }
  }

  /** Any tokens at all can be quoted so that `splitCommand` gives them back: each character on its own. */
  lemma EveryTokenListIsSplit(tokens: seq<string>)
    ensures SplitCommand(PrintCommand(Quoted(tokens, false), Spaces(|tokens|))) == Some(tokens)
  {
    CalmCommand(tokens, Spaces(|tokens|));
    CalmIsPosix(PrintCommand(Quoted(tokens, false), Spaces(|tokens|)));
    CommandUndoesQuoting(Quoted(tokens, false), Spaces(|tokens|));
  }
}
