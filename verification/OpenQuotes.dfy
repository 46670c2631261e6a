/** When a command has an unclosed quote, said without the lexer's states: some quote opens outside quotes,
and nothing after it closes it. The POSIX tokeniser of `engine/curl.go` fails on exactly these commands. */
module OpenQuotes {
  import opened Text
  import opened ShellSplit

  /** How many backslashes a text ends with. */
  function Trailing(s: string): (n: nat)
    ensures n <= |s|
  {
    if s == "" || s[|s| - 1] != '\\' then 0 else 1 + Trailing(s[..|s| - 1])
  }

  /** An odd number of backslashes right before a character escapes it. */
  predicate IsEscaped(s: string, k: nat)
    requires k <= |s|
  {
    Trailing(s[..k]) % 2 == 1
  }

  function Closer(quote: Quote): char {
    if quote == Double then '"' else '\''
  }

  function OpenerLength(quote: Quote): nat {
    if quote == Ansi then 2 else 1
  }

  /** A quote that would open here, outside quotes: an unescaped `'`, `"` or `$'`. */
  predicate OpensAt(command: string, i: nat, quote: Quote) {
    && i < |command| && !IsEscaped(command, i)
    && match quote
       case Single => command[i] == '\'' && !(i > 0 && command[i - 1] == '$' && !IsEscaped(command, i - 1))
       case Double => command[i] == '"'
       case Ansi => command[i] == '$' && i + 1 < |command| && command[i + 1] == '\''
       case Bare => false
  }

  /** No closing quote in what follows: inside `"` and `$'` an escaped one does not count. */
  predicate IsUnclosed(inside: string, quote: Quote) {
    forall k :: 0 <= k < |inside| && inside[k] == Closer(quote) ==> quote != Single && IsEscaped(inside, k)
  }

  ghost predicate HasUnclosedQuote(command: string) {
    exists i: nat, quote ::
      && OpensAt(command, i, quote) && i + OpenerLength(quote) <= |command|
      && Split(command[..i]).Some? && IsUnclosed(command[i + OpenerLength(quote)..], quote)
  }

  /** How far a move goes, and the state after it. */
  function Jump(s: string, quote: Quote): (nat, Quote) {
    if s == "" then (0, quote) else (NextMove(s, quote).used, NextMove(s, quote).quote)
  }

  type Jumps = (string, Quote) -> (nat, Quote)

  /** The state after exactly the first `i` characters, if a jump ends there. */
  function LandsBy(jump: Jumps, s: string, quote: Quote, i: nat): Option<Quote>
    requires i <= |s|
    decreases i
  {
    if i == 0 then Some(quote)
    else
      var next := jump(s, quote);
      if next.0 == 0 || next.0 > i then None else LandsBy(jump, s[next.0..], next.1, i - next.0)
  }

  function OpenBy(jump: Jumps, s: string, quote: Quote): Quote
    decreases |s|
  {
    var next := jump(s, quote);
    if next.0 == 0 || next.0 > |s| then quote else OpenBy(jump, s[next.0..], next.1)
  }

  function Lands(s: string, quote: Quote, i: nat): Option<Quote>
    requires i <= |s|
  {
    LandsBy(Jump, s, quote, i)
  }

  lemma LandsStep(s: string, quote: Quote, i: nat)
    requires 0 < i <= |s|
    ensures var move := NextMove(s, quote);
            Lands(s, quote, i) == if move.used > i then None else Lands(s[move.used..], move.quote, i - move.used)
  {
  }

  lemma {:induction false} OpenIsOpen(s: string, quote: Quote)
    ensures OpenQuote(s, quote) == OpenBy(Jump, s, quote)
    decreases |s|
  {
    if s != "" {
      OpenIsOpen(s[NextMove(s, quote).used..], NextMove(s, quote).quote);
    }
  }

  lemma SliceTail(s: string, a: nat, b: nat)
    requires a <= b <= |s|
    ensures s[..b][a..] == s[a..][..b - a] && s[a..][b - a..] == s[b..] && s[..b] == s[..a] + s[a..b] && s[..b][..a] == s[..a]
  {
  }

  lemma TailOfTail(s: string, a: nat, b: nat)
    requires a <= b <= |s|
    ensures s[a..][b - a..] == s[b..]
  {
  }

  lemma {:induction false} LandsThen(jump: Jumps, s: string, quote: Quote, i: nat, j: nat)
    requires i + j <= |s| && LandsBy(jump, s, quote, i).Some?
    ensures LandsBy(jump, s, quote, i + j) == LandsBy(jump, s[i..], LandsBy(jump, s, quote, i).value, j)
    decreases i
  {
    if i == 0 {
      assert s[0..] == s;
    } else {
      var next := jump(s, quote);
      TailOfTail(s, next.0, i);
      LandsThen(jump, s[next.0..], next.1, i - next.0, j);
    }
  }

  lemma {:induction false} OpenThen(jump: Jumps, s: string, quote: Quote, i: nat)
    requires i <= |s| && LandsBy(jump, s, quote, i).Some?
    ensures OpenBy(jump, s, quote) == OpenBy(jump, s[i..], LandsBy(jump, s, quote, i).value)
    decreases i
  {
    if i == 0 {
      assert s[0..] == s;
    } else {
      var next := jump(s, quote);
      TailOfTail(s, next.0, i);
      OpenThen(jump, s[next.0..], next.1, i - next.0);
    }
  }

  /** The jump that lands outside quotes. */
  lemma {:induction false} LastJump(jump: Jumps, s: string, quote: Quote, i: nat) returns (j: nat, before: Quote)
    requires 0 < i <= |s| && LandsBy(jump, s, quote, i) == Some(Bare)
    ensures j < i && LandsBy(jump, s, quote, j) == Some(before)
    ensures jump(s[j..], before) == (i - j, Bare)
    decreases i
  {
    var next := jump(s, quote);
    if next.0 == i {
      assert s[0..] == s;
      j, before := 0, quote;
    } else {
      j, before := LastJump(jump, s[next.0..], next.1, i - next.0);
      TailOfTail(s, next.0, next.0 + j);
      j := next.0 + j;
    }
  }

  // What the lexer looks at: never more than the next character beyond a move.

  lemma {:induction false} DigitRunOfPrefix(s: string, base: nat, most: nat, n: nat)
    requires DigitRun(s, base, most) <= n <= |s|
    ensures DigitRun(s[..n], base, most) == DigitRun(s, base, most)
    decreases most
  {
    if n > 0 && most > 0 && DigitIn(s[0], base).Some? {
      assert s[..n][1..] == s[1..][..n - 1];
      DigitRunOfPrefix(s[1..], base, most - 1, n - 1);
    }
  }

  function EscapeDigits(s: string): nat
    requires s != []
  {
    var c := s[0];
    if AnsiCharacter(c).Some? then 0
    else if c in "xuU" then DigitRun(s[1..], 16, if c == 'x' then 2 else if c == 'u' then 4 else 8)
    else DigitRun(s, 8, 3)
  }

  lemma EscapeUses(s: string)
    requires s != []
    ensures AnsiEscape(s).used == if s[0] !in "xuU" && AnsiCharacter(s[0]).None? && EscapeDigits(s) > 0 then EscapeDigits(s) else EscapeDigits(s) + 1
  {
  }

  lemma EscapeOfPrefix(s: string, n: nat)
    requires s != [] && 1 <= n <= |s| && AnsiEscape(s).used <= n
    ensures AnsiEscape(s[..n]).used == AnsiEscape(s).used
  {
    EscapeUses(s);
    EscapeUses(s[..n]);
    if AnsiCharacter(s[0]).None? {
      if s[0] in "xuU" {
        assert s[..n][1..] == s[1..][..n - 1];
        DigitRunOfPrefix(s[1..], 16, if s[0] == 'x' then 2 else if s[0] == 'u' then 4 else 8, n - 1);
      } else {
        DigitRunOfPrefix(s, 8, 3, n);
      }
    }
  }

  lemma AnsiMoveOfPrefix(s: string, n: nat)
    requires |s| > 1 && s[0] == '\\' && AnsiMove(s).used <= n <= |s|
    ensures AnsiMove(s[..n]).used == AnsiMove(s).used
  {
    assert s[..n][1..] == s[1..][..n - 1];
    EscapeOfPrefix(s[1..], n - 1);
  }

  lemma MoveOfPrefix(s: string, quote: Quote, n: nat)
    requires s != [] && NextMove(s, quote).used <= n <= |s|
    ensures var move, same := NextMove(s, quote), NextMove(s[..n], quote);
            same.used == move.used && same.quote == move.quote
  {
    if quote == Ansi && s[0] == '\\' && |s| > 1 {
      AnsiMoveOfPrefix(s, n);
    }
  }

  lemma {:induction false} DigitRunExtends(s: string, more: string, base: nat, most: nat)
    requires DigitRun(s, base, most) < |s|
    ensures DigitRun(s + more, base, most) == DigitRun(s, base, most)
    decreases most
  {
    if most > 0 && DigitIn(s[0], base).Some? {
      assert (s + more)[1..] == s[1..] + more;
      DigitRunExtends(s[1..], more, base, most - 1);
    }
  }

  lemma EscapeExtends(s: string, more: string)
    requires s != [] && AnsiEscape(s).used < |s|
    ensures AnsiEscape(s + more).used == AnsiEscape(s).used
  {
    EscapeUses(s);
    EscapeUses(s + more);
    if AnsiCharacter(s[0]).None? {
      if s[0] in "xuU" {
        assert (s + more)[1..] == s[1..] + more;
        DigitRunExtends(s[1..], more, 16, if s[0] == 'x' then 2 else if s[0] == 'u' then 4 else 8);
      } else {
        DigitRunExtends(s, more, 8, 3);
      }
    }
  }

  lemma MoveExtends(s: string, more: string, quote: Quote)
    requires s != [] && NextMove(s, quote).used < |s|
    ensures var move, same := NextMove(s, quote), NextMove(s + more, quote);
            same.used == move.used && same.quote == move.quote
  {
    if quote == Ansi && s[0] == '\\' && |s| > 1 {
      assert (s + more)[1..] == s[1..] + more;
      EscapeExtends(s[1..], more);
    }
  }

  lemma {:induction false} LandsOfPrefix(s: string, quote: Quote, i: nat)
    requires i <= |s| && Lands(s, quote, i).Some?
    ensures OpenQuote(s[..i], quote) == Lands(s, quote, i).value
    decreases i
  {
    if i > 0 {
      var move := NextMove(s, quote);
      LandsStep(s, quote, i);
      MoveOfPrefix(s, quote, i);
      SliceTail(s, move.used, i);
      LandsOfPrefix(s[move.used..], move.quote, i - move.used);
    }
  }

  // Counting backslashes.

  lemma {:induction false} TrailingJoins(a: string, b: string)
    ensures Trailing(a + b) == if Trailing(b) == |b| then |b| + Trailing(a) else Trailing(b)
    decreases |b|
  {
    if b == "" {
      assert a + b == a;
    } else {
      assert (a + b)[..|a + b| - 1] == a + b[..|b| - 1];
      if b[|b| - 1] == '\\' {
        TrailingJoins(a, b[..|b| - 1]);
      }
    }
  }

  lemma {:induction false} AllTrailing(s: string)
    ensures Trailing(s) == |s| <==> forall k :: 0 <= k < |s| ==> s[k] == '\\'
  {
    if s != "" && s[|s| - 1] == '\\' {
      AllTrailing(s[..|s| - 1]);
    }
  }

  /** From inside quotes, backslashes alone never lead out. */
  lemma {:induction false} BackslashesStayInside(s: string, quote: Quote, i: nat)
    requires quote != Bare && i <= |s| && forall k :: 0 <= k < i ==> s[k] == '\\'
    ensures Lands(s, quote, i) != Some(Bare)
    decreases i
  {
    if i > 0 {
      var move := NextMove(s, quote);
      LandsStep(s, quote, i);
      if move.used <= i {
        assert forall k :: 0 <= k < i - move.used ==> s[move.used..][k] == s[move.used + k];
        BackslashesStayInside(s[move.used..], move.quote, i - move.used);
      }
    }
  }

  /** A move that ends outside quotes, with more to come, ends in an even number of backslashes. */
  lemma MoveEndsEven(s: string, quote: Quote)
    requires s != [] && NextMove(s, quote).used < |s| && NextMove(s, quote).quote == Bare
    ensures Trailing(s[..NextMove(s, quote).used]) % 2 == 0
  {
    var used := NextMove(s, quote).used;
    assert s[..used][..used - 1] == s[..used - 1];
    assert used == 2 ==> s[..2][..1] == [s[0]] && Trailing([s[0]][..0]) == 0;
  }

  lemma EvenJoins(a: string, b: string)
    requires Trailing(b) % 2 == 0 && (Trailing(b) == |b| ==> Trailing(a) % 2 == 0)
    ensures Trailing(a + b) % 2 == 0
  {
    TrailingJoins(a, b);
  }

  /** Outside quotes, with more to come, the character that follows is not escaped. */
  lemma {:induction false} LandsUnescaped(s: string, quote: Quote, i: nat)
    requires i < |s| && Lands(s, quote, i) == Some(Bare)
    ensures !IsEscaped(s, i)
    decreases i
  {
    if i > 0 {
      var move := NextMove(s, quote);
      LandsStep(s, quote, i);
      LandsUnescaped(s[move.used..], move.quote, i - move.used);
      MoveThenEven(s, quote, i);
    }
  }

  lemma MoveThenEven(s: string, quote: Quote, i: nat)
    requires 0 < i < |s| && NextMove(s, quote).used <= i
    requires var move := NextMove(s, quote);
             Lands(s[move.used..], move.quote, i - move.used) == Some(Bare) && !IsEscaped(s[move.used..], i - move.used)
    ensures !IsEscaped(s, i)
  {
    var move := NextMove(s, quote);
    SliceTail(s, move.used, i);
    if Trailing(s[move.used..i]) == i - move.used {
      AllTrailing(s[move.used..i]);
      if move.quote != Bare {
        BackslashesStayInside(s[move.used..], move.quote, i - move.used);
      } else {
        MoveEndsEven(s, quote);
      }
    }
    EvenJoins(s[..move.used], s[move.used..i]);
  }

  // Inside quotes.

  /** The first move inside quotes either closes them or changes nothing about what closes them later. */
  lemma FirstInside(s: string, quote: Quote)
    requires s != [] && quote != Bare
    ensures var move := NextMove(s, quote);
            && (move.quote == Bare <==> s[0] == Closer(quote))
            && (move.quote != Bare ==> move.quote == quote && (IsUnclosed(s, quote) <==> IsUnclosed(s[move.used..], quote)))
  {
    var move := NextMove(s, quote);
    if move.quote != Bare {
      forall k | move.used <= k < |s| && s[k] == Closer(quote) && quote != Single
        ensures IsEscaped(s, k) <==> IsEscaped(s[move.used..], k - move.used) {
        EscapedLater(s, quote, k);
      }
      forall k | 0 <= k < move.used && s[k] == Closer(quote) && quote != Single ensures IsEscaped(s, k) {
        EscapedInMove(s, quote, k);
      }
      assert forall k :: 0 <= k < |s| - move.used ==> s[move.used..][k] == s[move.used + k];
      if IsUnclosed(s[move.used..], quote) {
        forall k | 0 <= k < |s| && s[k] == Closer(quote) ensures quote != Single && IsEscaped(s, k) {
          if k >= move.used {
            assert s[move.used..][k - move.used] == s[k];
          }
        }
      }
    }
  }

  lemma {:induction false} DigitsAreDigits(s: string, base: nat, most: nat, k: nat)
    requires k < DigitRun(s, base, most)
    ensures DigitIn(s[k], base).Some?
    decreases most
  {
    if k > 0 {
      DigitsAreDigits(s[1..], base, most - 1, k - 1);
    }
  }

  /** Only the character right after a backslash can be a quote or a backslash. */
  lemma EscapeCharacters(s: string, k: nat)
    requires s != [] && 0 < k < AnsiEscape(s).used
    ensures s[k] != '\\' && s[k] != '\''
  {
    EscapeUses(s);
    if s[0] in "xuU" {
      DigitsAreDigits(s[1..], 16, if s[0] == 'x' then 2 else if s[0] == 'u' then 4 else 8, k - 1);
    } else {
      DigitsAreDigits(s, 8, 3, k);
    }
  }

  lemma EscapedInMove(s: string, quote: Quote, k: nat)
    requires s != [] && (quote == Double || quote == Ansi) && NextMove(s, quote).quote != Bare
    requires k < NextMove(s, quote).used && s[k] == Closer(quote)
    ensures IsEscaped(s, k)
  {
    if quote == Ansi && k > 1 {
      EscapeCharacters(s[1..], k - 1);
    }
    assert k == 1 && s[..1] == [s[0]] && [s[0]][..0] == "";
  }

  lemma MoveTrailing(s: string, quote: Quote)
    requires s != [] && (quote == Double || quote == Ansi) && NextMove(s, quote).quote != Bare
    ensures var used := NextMove(s, quote).used;
            Trailing(s[..used]) % 2 == 0 || (used == 1 && s[0] == '\\' && (|s| > 1 ==> s[1] != '\\' && s[1] != Closer(quote)))
  {
    var used := NextMove(s, quote).used;
    assert s[..used][..used - 1] == s[..used - 1];
    if quote == Ansi && s[0] == '\\' && |s| > 1 && used > 2 {
      EscapeCharacters(s[1..], used - 2);
    }
    assert used == 2 ==> s[..1] == [s[0]] && Trailing([s[0]][..0]) == 0;
  }

  lemma EscapedBeyond(s: string, used: nat, k: nat)
    requires used <= k < |s|
    requires Trailing(s[..used]) % 2 == 0 || (used < k && s[used] != '\\')
    ensures IsEscaped(s, k) <==> IsEscaped(s[used..], k - used)
  {
    SliceTail(s, used, k);
    TrailingJoins(s[..used], s[used..k]);
    AllTrailing(s[used..k]);
    assert used < k ==> s[used..k][0] == s[used];
  }

  lemma EscapedLater(s: string, quote: Quote, k: nat)
    requires s != [] && (quote == Double || quote == Ansi) && NextMove(s, quote).quote != Bare
    requires NextMove(s, quote).used <= k < |s| && s[k] == Closer(quote)
    ensures IsEscaped(s, k) <==> IsEscaped(s[NextMove(s, quote).used..], k - NextMove(s, quote).used)
  {
    MoveTrailing(s, quote);
    EscapedBeyond(s, NextMove(s, quote).used, k);
  }

  lemma {:induction false} UnclosedStaysOpen(s: string, quote: Quote)
    requires quote != Bare && IsUnclosed(s, quote)
    ensures OpenQuote(s, quote) == quote
    decreases |s|
  {
    if s != [] {
      FirstInside(s, quote);
      assert s[..0] == "";
      UnclosedStaysOpen(s[NextMove(s, quote).used..], quote);
    }
  }

  lemma {:induction false} ClosesSomewhere(s: string, quote: Quote) returns (n: nat)
    requires quote != Bare && !IsUnclosed(s, quote)
    ensures 0 < n <= |s| && Lands(s, quote, n) == Some(Bare)
    decreases |s|
  {
    FirstInside(s, quote);
    var move := NextMove(s, quote);
    n := move.used;
    if move.quote != Bare {
      var more := ClosesSomewhere(s[move.used..], quote);
      n := n + more;
    }
    LandsStep(s, quote, n);
  }

  // From an unclosed quote to the failure.

  /** The last character of a text, if it is read on its own outside quotes, does not reach on to what follows. */
  ghost predicate EndsSafely(p: string, rest: string, quote: Quote) {
    p != [] && Lands(p, quote, |p| - 1) == Some(Bare) ==>
      p[|p| - 1] != '\\' && !(p[|p| - 1] == '$' && rest != [] && rest[0] == '\'')
  }

  lemma TailEndsSafely(p: string, rest: string, quote: Quote)
    requires p != [] && NextMove(p, quote).used < |p| && EndsSafely(p, rest, quote)
    ensures EndsSafely(p[NextMove(p, quote).used..], rest, NextMove(p, quote).quote)
  {
    LandsStep(p, quote, |p| - 1);
  }

  lemma ExtendsOver(p: string, rest: string, quote: Quote)
    requires p != [] && NextMove(p, quote).used < |p|
    requires var move := NextMove(p, quote);
             Lands(p[move.used..] + rest, move.quote, |p| - move.used) == Some(Bare)
    ensures Lands(p + rest, quote, |p|) == Some(Bare)
  {
    MoveExtends(p, rest, quote);
    LandsStep(p + rest, quote, |p|);
    assert (p + rest)[NextMove(p, quote).used..] == p[NextMove(p, quote).used..] + rest;
  }

  /** Reading a text that splits is the same with more after it, if it ends safely. */
  lemma {:induction false} Extends(p: string, rest: string, quote: Quote)
    requires OpenQuote(p, quote) == Bare && rest != [] && rest[0] != '\n' && EndsSafely(p, rest, quote)
    ensures Lands(p + rest, quote, |p|) == Some(Bare)
    decreases |p|
  {
    if p != [] {
      var move := NextMove(p, quote);
      if move.used < |p| {
        TailEndsSafely(p, rest, quote);
        Extends(p[move.used..], rest, move.quote);
        ExtendsOver(p, rest, quote);
      } else {
        LastMoveExtends(p, rest, quote);
        LandsStep(p + rest, quote, |p|);
      }
    }
  }

  lemma LastMoveExtends(p: string, rest: string, quote: Quote)
    requires p != [] && NextMove(p, quote).used == |p| && OpenQuote(p, quote) == Bare && rest != [] && rest[0] != '\n'
    requires EndsSafely(p, rest, quote)
    ensures NextMove(p + rest, quote).used == |p| && NextMove(p + rest, quote).quote == Bare
  {
    assert p[|p|..] == "";
    assert (p + rest)[0] == p[0] && (|p| == 1 ==> (p + rest)[1] == rest[0]) && (|p| == 2 ==> (p + rest)[1] == p[1]);
  }

  lemma OpenedLands(command: string, i: nat, quote: Quote)
    requires OpensAt(command, i, quote) && Split(command[..i]).Some?
    ensures Lands(command, Bare, i) == Some(Bare)
  {
    var p, rest := command[..i], command[i..];
    assert p + rest == command;
    FailsWhenMovesEndQuoted(p);
    if p != [] && Lands(p, Bare, |p| - 1) == Some(Bare) {
      LandsUnescaped(p, Bare, |p| - 1);
      assert command[..i - 1] == p[..|p| - 1];
    }
    Extends(p, rest, Bare);
  }

  lemma UnclosedFails(command: string, i: nat, quote: Quote)
    requires OpensAt(command, i, quote) && i + OpenerLength(quote) <= |command|
    requires Split(command[..i]).Some? && IsUnclosed(command[i + OpenerLength(quote)..], quote)
    ensures Split(command).None?
  {
    OpenedLands(command, i, quote);
    OpenThen(Jump, command, Bare, i);
    OpenIsOpen(command, Bare);
    OpenIsOpen(command[i..], Bare);
    var rest := command[i..];
    assert NextMove(rest, Bare).quote == quote && NextMove(rest, Bare).used == OpenerLength(quote);
    assert rest[OpenerLength(quote)..] == command[i + OpenerLength(quote)..];
    UnclosedStaysOpen(rest[OpenerLength(quote)..], quote);
    FailsWhenMovesEndQuoted(command);
  }

  // And back.

  /** A move that ends in a dollar sign right before a single quote is an escaped dollar sign. */
  lemma DollarMove(s: string, quote: Quote, used: nat)
    requires 0 < used < |s| && Jump(s, quote) == (used, Bare) && s[used] == '\'' && s[used - 1] == '$'
    ensures quote == Bare && used == 2 && s[0] == '\\'
  {
  }

  lemma TrailingOneMore(s: string, j: nat)
    requires j < |s| && s[j] == '\\'
    ensures Trailing(s[..j + 1]) == Trailing(s[..j]) + 1
  {
    assert s[..j + 1][..j] == s[..j];
  }

  /** Before a single quote that opens, a dollar sign is escaped: otherwise both would open `$'`. */
  lemma NoDollarBefore(command: string, i: nat)
    requires 0 < i < |command| && Lands(command, Bare, i) == Some(Bare) && command[i] == '\'' && command[i - 1] == '$'
    ensures IsEscaped(command, i - 1)
  {
    var j, before := LastJump(Jump, command, Bare, i);
    DollarMove(command[j..], before, i - j);
    LandsUnescaped(command, Bare, j);
    TrailingOneMore(command, j);
  }

  /** A quote that opens here. */
  lemma QuoteOpens(command: string, at: nat, move: Move)
    requires at < |command| && Lands(command, Bare, at) == Some(Bare) && move == NextMove(command[at..], Bare)
    ensures move.quote != Bare ==> OpensAt(command, at, move.quote) && move.used == OpenerLength(move.quote)
  {
    LandsUnescaped(command, Bare, at);
    if at > 0 && command[at] == '\'' && command[at - 1] == '$' {
      NoDollarBefore(command, at);
    }
  }

  /** Reading on: one jump from a place outside quotes, and another if that opened quotes. */
  lemma LandsOn(jump: Jumps, s: string, at: nat, used: nat, quote: Quote, n: nat)
    requires at + used + n <= |s| && LandsBy(jump, s, Bare, at) == Some(Bare)
    requires LandsBy(jump, s[at..], Bare, used) == Some(quote) && LandsBy(jump, s[at + used..], quote, n) == Some(Bare)
    ensures LandsBy(jump, s, Bare, at + used + n) == Some(Bare)
  {
    LandsThen(jump, s, Bare, at, used);
    LandsThen(jump, s, Bare, at + used, n);
  }

  lemma OpenOn(jump: Jumps, s: string, at: nat, used: nat, quote: Quote, n: nat)
    requires at + used + n <= |s|
    requires LandsBy(jump, s[at..], Bare, used) == Some(quote) && LandsBy(jump, s[at + used..], quote, n) == Some(Bare)
    ensures OpenBy(jump, s[at..], Bare) == OpenBy(jump, s[at + used + n..], Bare)
  {
    OpenThen(jump, s[at..], Bare, used);
    TailOfTail(s, at, at + used);
    OpenThen(jump, s[at + used..], quote, n);
    TailOfTail(s, at + used, at + used + n);
  }

  // Finding the quote that stays open, for any way to jump and any notion of unclosed.

  ghost predicate AreJumps(jump: Jumps) {
    forall s, quote :: s != "" ==> 0 < jump(s, quote).0 <= |s|
  }

  ghost predicate ClosesIn(jump: Jumps, s: string, quote: Quote) {
    exists n: nat :: n <= |s| && LandsBy(jump, s, quote, n) == Some(Bare)
  }

  ghost predicate CloseUnless(jump: Jumps, unclosed: (string, Quote) -> bool) {
    forall s, quote :: quote == Bare || !unclosed(s, quote) ==> ClosesIn(jump, s, quote)
  }

  /** Here a quote opens and stays open. */
  ghost predicate StaysOpenAt(jump: Jumps, unclosed: (string, Quote) -> bool, s: string, i: nat) {
    && i < |s| && LandsBy(jump, s, Bare, i) == Some(Bare)
    && var next := jump(s[i..], Bare);
       next.1 != Bare && i + next.0 <= |s| && unclosed(s[i + next.0..], next.1)
  }

  lemma NextOutside(jump: Jumps, s: string, at: nat) returns (next: nat)
    requires AreJumps(jump) && at < |s| && LandsBy(jump, s, Bare, at) == Some(Bare)
    requires var first := jump(s[at..], Bare); ClosesIn(jump, s[at + first.0..], first.1)
    ensures at < next <= |s| && LandsBy(jump, s, Bare, next) == Some(Bare)
    ensures OpenBy(jump, s[at..], Bare) == OpenBy(jump, s[next..], Bare)
  {
    var first := jump(s[at..], Bare);
    assert LandsBy(jump, s[at..][first.0..], first.1, 0) == Some(first.1);
    var n: nat :| n <= |s[at + first.0..]| && LandsBy(jump, s[at + first.0..], first.1, n) == Some(Bare);
    next := at + first.0 + n;
    LandsOn(jump, s, at, first.0, first.1, n);
    OpenOn(jump, s, at, first.0, first.1, n);
  }

  lemma {:induction false} FindOpen(jump: Jumps, unclosed: (string, Quote) -> bool, s: string, at: nat) returns (i: nat)
    requires AreJumps(jump) && CloseUnless(jump, unclosed) && at <= |s| && LandsBy(jump, s, Bare, at) == Some(Bare)
    requires OpenBy(jump, s[at..], Bare) != Bare
    ensures StaysOpenAt(jump, unclosed, s, i)
    decreases |s| - at
  {
    i := at;
    if !StaysOpenAt(jump, unclosed, s, i) {
      var next := NextOutside(jump, s, at);
      i := FindOpen(jump, unclosed, s, next);
    }
  }

  lemma JumpsAreGood()
    ensures AreJumps(Jump) && CloseUnless(Jump, IsUnclosed)
  {
    forall s, quote | quote == Bare || !IsUnclosed(s, quote) ensures ClosesIn(Jump, s, quote) {
      if quote == Bare {
        assert LandsBy(Jump, s, quote, 0) == Some(Bare);
      } else {
        var n := ClosesSomewhere(s, quote);
      }
    }
  }

  lemma FindUnclosed(command: string) returns (i: nat, quote: Quote)
    requires OpenQuote(command, Bare) != Bare
    ensures OpensAt(command, i, quote) && i + OpenerLength(quote) <= |command|
    ensures Lands(command, Bare, i) == Some(Bare) && IsUnclosed(command[i + OpenerLength(quote)..], quote)
  {
    JumpsAreGood();
    OpenIsOpen(command, Bare);
    assert command[0..] == command;
    i := FindOpen(Jump, IsUnclosed, command, 0);
    quote := NextMove(command[i..], Bare).quote;
    QuoteOpens(command, i, NextMove(command[i..], Bare));
  }

  /** Splitting fails exactly on the commands with an unclosed quote. */
  lemma FailsExactlyOnUnclosedQuote(command: string)
    ensures Split(command).None? <==> HasUnclosedQuote(command)
  {
    FailsWhenMovesEndQuoted(command);
    if Split(command).None? {
      var i, quote := FindUnclosed(command);
      LandsOfPrefix(command, Bare, i);
      FailsWhenMovesEndQuoted(command[..i]);
    }
    if HasUnclosedQuote(command) {
      var i: nat, quote :|
        && OpensAt(command, i, quote) && i + OpenerLength(quote) <= |command|
        && Split(command[..i]).Some? && IsUnclosed(command[i + OpenerLength(quote)..], quote);
      UnclosedFails(command, i, quote);
    }
  }

  function Opener(quote: Quote): string {
    if quote == Ansi then "$'" else if quote == Double then "\"" else "'"
  }

  /** So words followed by a quote that is never closed cannot be split, whatever the quote holds. */
  lemma UnclosedQuoteFails(words: seq<seq<Fragment>>, gaps: seq<string>, quote: Quote, inside: string)
    requires |gaps| == |words| + 1 && AreWords(words) && AreGaps(gaps)
    requires quote != Bare && IsUnclosed(inside, quote)
    ensures Split(PrintCommand(words, gaps) + (Opener(quote) + inside)).None?
  {
    var rest := Opener(quote) + inside;
    LexCommand(words, gaps, rest, START);
    LexQuote(rest, Bare, Reading(words, gaps, START));
    assert NextMove(rest, Bare).quote == quote && rest[NextMove(rest, Bare).used..] == inside;
    UnclosedStaysOpen(inside, quote);
  }
}
