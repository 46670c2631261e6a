/** Helpers on text that several components share.

A Go string is a sequence of bytes: unless a module says otherwise, a `string`
here holds one character per byte. */
module Text {

  datatype Option<+T> = None | Some(value: T)

  /** No element occurs twice. */
  ghost predicate Distinct<T>(s: seq<T>) {
    forall i, j :: 0 <= i < j < |s| ==> s[i] != s[j]
  }

  predicate HasPrefix(text: string, prefix: string) {
    prefix <= text
  }

  predicate HasSuffix(text: string, suffix: string) {
    |suffix| <= |text| && text[|text| - |suffix|..] == suffix
  }

  /** The position of the first `c` at or after `from`, or the length of the text. */
  function IndexFrom(text: string, c: char, from: nat): (at: nat)
    requires from <= |text|
    ensures from <= at <= |text|
    ensures at < |text| ==> text[at] == c
    ensures c !in text[from..at]
    decreases |text| - from
  {
    if from == |text| || text[from] == c then from
    else
      var at := IndexFrom(text, c, from + 1);
      assert text[from..at] == [text[from]] + text[from + 1..at];
      at
  }

  lemma IndexIsFirst(text: string, c: char, from: nat, at: nat)
    requires from <= at <= |text| && c !in text[from..at] && (at < |text| ==> text[at] == c)
    ensures IndexFrom(text, c, from) == at
  {
    var found := IndexFrom(text, c, from);
    assert forall i :: from <= i < at ==> text[i] == text[from..at][i - from];
    assert forall i :: from <= i < found ==> text[i] == text[from..found][i - from];
  }

  datatype Cut = Cut(before: string, after: string, found: bool)

  /** `strings.Cut` on one character. */
  function CutAt(s: string, c: char): (r: Cut)
    ensures c !in r.before
    ensures s == if r.found then r.before + [c] + r.after else r.before
    ensures !r.found ==> r.after == ""
  {
    var at := IndexFrom(s, c, 0);
    assert s[0..at] == s[..at];
    if at == |s| then Cut(s, "", false) else Cut(s[..at], s[at + 1..], true)
  }

  function TrimPrefix(s: string, prefix: string): string {
    if prefix <= s then s[|prefix|..] else s
  }

  predicate IsDigit(c: char) {
    '0' <= c <= '9'
  }

  /** The value of a run of decimal digits. */
  function Decimal(s: string): nat
    requires forall i :: 0 <= i < |s| ==> IsDigit(s[i])
  {
    if s == [] then 0
    else
      assert IsDigit(s[|s| - 1]);
      Decimal(s[..|s| - 1]) * 10 + (s[|s| - 1] as int - '0' as int)
  }

  /** `strconv.ParseUint(s, 10, bits)` with `limit` values: one or more digits, and not too large. */
  function ParseUint(s: string, limit: nat): Option<nat> {
    if s != [] && (forall i :: 0 <= i < |s| ==> IsDigit(s[i])) && Decimal(s) < limit then Some(Decimal(s)) else None
  }

  predicate IsAsciiSpace(c: char) {
    c == ' ' || 9 <= c as int <= 13
  }

  /** The UTF-8 form of the white space outside ASCII that `unicode.IsSpace` accepts. */
  predicate IsWideSpace(s: string) {
    || (|s| == 2 && s[0] as int == 0xC2 && s[1] as int in {0x85, 0xA0})
    || (|s| == 3 && s[0] as int == 0xE1 && s[1] as int == 0x9A && s[2] as int == 0x80)
    || (|s| == 3 && s[0] as int == 0xE2 && s[1] as int == 0x80 && (0x80 <= s[2] as int <= 0x8A || s[2] as int in {0xA8, 0xA9, 0xAF}))
    || (|s| == 3 && s[0] as int == 0xE2 && s[1] as int == 0x81 && s[2] as int == 0x9F)
    || (|s| == 3 && s[0] as int == 0xE3 && s[1] as int == 0x80 && s[2] as int == 0x80)
  }

  /** How many bytes the white space character at the start of a text takes, 0 if there is none. */
  function LeadingSpace(s: string): (n: nat)
    ensures n <= |s|
  {
    if s != "" && IsAsciiSpace(s[0]) then 1
    else if |s| >= 2 && IsWideSpace(s[..2]) then 2
    else if |s| >= 3 && IsWideSpace(s[..3]) then 3
    else 0
  }

  function TrailingSpace(s: string): (n: nat)
    ensures n <= |s|
  {
    if s != "" && IsAsciiSpace(s[|s| - 1]) then 1
    else if |s| >= 2 && IsWideSpace(s[|s| - 2..]) then 2
    else if |s| >= 3 && IsWideSpace(s[|s| - 3..]) then 3
    else 0
  }

  function TrimLeft(s: string): string {
    if LeadingSpace(s) == 0 then s else TrimLeft(s[LeadingSpace(s)..])
  }

  function TrimRight(s: string): string {
    if TrailingSpace(s) == 0 then s else TrimRight(s[..|s| - TrailingSpace(s)])
  }

  /** `strings.TrimSpace`. */
  function TrimSpace(s: string): string {
    TrimRight(TrimLeft(s))
  }

  /** Nothing but white space. */
  predicate IsSpaces(s: string) {
    s == "" || (LeadingSpace(s) > 0 && IsSpaces(s[LeadingSpace(s)..]))
  }

  lemma LeadingSpaceOfStart(s: string, rest: string)
    requires LeadingSpace(s) > 0
    ensures LeadingSpace(s + rest) == LeadingSpace(s)
    ensures (s + rest)[LeadingSpace(s)..] == s[LeadingSpace(s)..] + rest
  {
    assert |s| >= 2 ==> (s + rest)[..2] == s[..2];
    assert |s| >= 3 ==> (s + rest)[..3] == s[..3];
  }

  lemma {:induction false} SpacesJoin(a: string, b: string)
    requires IsSpaces(a) && IsSpaces(b)
    ensures IsSpaces(a + b)
  {
    if a == "" {
      assert a + b == b;
    } else {
      LeadingSpaceOfStart(a, b);
      SpacesJoin(a[LeadingSpace(a)..], b);
    }
  }

  lemma OneSpace(s: string)
    requires s != "" && LeadingSpace(s) == |s|
    ensures IsSpaces(s)
  {
    assert s[|s|..] == "";
  }

  lemma TrailingIsSpace(s: string)
    requires TrailingSpace(s) > 0
    ensures IsSpaces(s[|s| - TrailingSpace(s)..])
  {
    var last := s[|s| - TrailingSpace(s)..];
    assert |last| >= 2 ==> last[..2] == if |last| == 2 then last else [last[0], last[1]];
    assert |last| == 3 ==> last[..3] == last && !IsWideSpace(last[1..]) && !IsAsciiSpace(last[2]);
    OneSpace(last);
  }

  lemma Regrouped(a: string, b: string, c: string)
    ensures a + (b + c) == a + b + c
  {
  }

  lemma {:induction false} TrimLeftTrims(s: string) returns (lead: string)
    ensures LeadingSpace(TrimLeft(s)) == 0 && IsSpaces(lead) && s == lead + TrimLeft(s)
  {
    lead := "";
    if LeadingSpace(s) != 0 {
      var more := TrimLeftTrims(s[LeadingSpace(s)..]);
      FirstIsSpace(s, more, TrimLeft(s));
      lead := s[..LeadingSpace(s)] + more;
    }
  }

  lemma FirstIsSpace(s: string, more: string, trimmed: string)
    requires LeadingSpace(s) > 0 && IsSpaces(more) && s[LeadingSpace(s)..] == more + trimmed
    ensures IsSpaces(s[..LeadingSpace(s)] + more) && s == s[..LeadingSpace(s)] + more + trimmed
  {
    var first := s[..LeadingSpace(s)];
    assert |first| == 2 ==> first[..2] == s[..2];
    assert |first| == 3 ==> first[..2] == s[..2] && first[..3] == s[..3];
    OneSpace(first);
    SpacesJoin(first, more);
  }

  lemma {:induction false} TrimRightTrims(s: string) returns (trail: string)
    ensures TrailingSpace(TrimRight(s)) == 0 && IsSpaces(trail) && s == TrimRight(s) + trail
  {
    trail := "";
    if TrailingSpace(s) != 0 {
      var more := TrimRightTrims(s[..|s| - TrailingSpace(s)]);
      LastIsSpace(s, more, TrimRight(s));
      trail := more + s[|s| - TrailingSpace(s)..];
    }
  }

  lemma LastIsSpace(s: string, more: string, trimmed: string)
    requires TrailingSpace(s) > 0 && IsSpaces(more) && s[..|s| - TrailingSpace(s)] == trimmed + more
    ensures var last := s[|s| - TrailingSpace(s)..];
            IsSpaces(more + last) && s == trimmed + (more + last)
  {
    var last := s[|s| - TrailingSpace(s)..];
    TrailingIsSpace(s);
    SpacesJoin(more, last);
    Regrouped(trimmed, more, last);
  }

  /** A text that keeps the start of a text not led by white space is not led by white space either. */
  lemma LeadingSpaceOfPrefix(s: string, prefix: string)
    requires LeadingSpace(s) == 0 && prefix <= s
    ensures LeadingSpace(prefix) == 0
  {
    assert |prefix| >= 2 ==> prefix[..2] == s[..2];
    assert |prefix| >= 3 ==> prefix[..3] == s[..3];
  }

  /** A text is white space, then the trimmed text, then white space; and the trimmed text neither starts
      nor ends with any. So trimming twice is trimming once. */
  lemma TrimSpaceTrims(s: string) returns (lead: string, trail: string)
    ensures s == lead + TrimSpace(s) + trail && IsSpaces(lead) && IsSpaces(trail)
    ensures LeadingSpace(TrimSpace(s)) == 0 && TrailingSpace(TrimSpace(s)) == 0
    ensures TrimSpace(TrimSpace(s)) == TrimSpace(s)
  {
    lead := TrimLeftTrims(s);
    trail := TrimRightTrims(TrimLeft(s));
    Regrouped(lead, TrimSpace(s), trail);
    LeadingSpaceOfPrefix(TrimLeft(s), TrimSpace(s));
  }

  lemma TrimSpaceKeepsCharacters(s: string)
    ensures TrimSpace(TrimSpace(s)) == TrimSpace(s)
    ensures forall c :: c in TrimSpace(s) ==> c in s
  {
    var lead, trail := TrimSpaceTrims(s);
    MiddleOf(lead, TrimSpace(s), trail, s);
  }

  lemma MiddleOf(a: string, b: string, c: string, whole: string)
    requires whole == a + b + c
    ensures forall ch :: ch in b ==> ch in whole
  {
    assert forall i :: 0 <= i < |b| ==> b[i] == whole[|a| + i];
  }

  function LowerChar(c: char): char {
    if 'A' <= c <= 'Z' then (c as int + 32) as char else c
  }

  function UpperChar(c: char): char {
    if 'a' <= c <= 'z' then (c as int - 32) as char else c
  }

  /** `strings.ToLower`, on ASCII letters. */
  function ToLower(s: string): (r: string)
    ensures |r| == |s|
  {
    seq(|s|, i requires 0 <= i < |s| => LowerChar(s[i]))
  }

  /** `strings.ToUpper`, on ASCII letters. */
  function ToUpper(s: string): (r: string)
    ensures |r| == |s|
  {
    seq(|s|, i requires 0 <= i < |s| => UpperChar(s[i]))
  }
}
