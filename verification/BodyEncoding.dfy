/** Bodies as text: `EncodeBody` and `trimPartialRune` of `engine/send.go`, and `decodedBody` of
`capture/hold.go`. Here a text is a sequence of bytes. */
module BodyEncoding {
  import opened Text

  type byte = b: int | 0 <= b < 256
  type bytes = seq<byte>

  const ENCODING_UTF8 := "utf8"
  const ENCODING_BASE64 := "base64"
  const UTF_MAX: nat := 4

  // Section 4 of RFC 4648.

  const PAD: byte := 61

  function Digit(v: nat): byte
    requires v < 64
  {
    if v < 26 then 65 + v else if v < 52 then 71 + v else if v < 62 then v - 4 else if v == 62 then 43 else 47
  }

  function DigitValue(c: byte): (v: Option<nat>)
    ensures v.Some? ==> v.value < 64
  {
    if 65 <= c <= 90 then Some(c - 65)
    else if 97 <= c <= 122 then Some(c - 71)
    else if 48 <= c <= 57 then Some(c + 4)
    else if c == 43 then Some(62)
    else if c == 47 then Some(63)
    else None
  }

  lemma DigitRoundTrip(v: nat)
    requires v < 64
    ensures DigitValue(Digit(v)) == Some(v) && Digit(v) != PAD && Digit(v) !in {10, 13}
  {
  }

  /** The four digits of three bytes. */
  datatype Quantum = Quantum(a: nat, b: nat, c: nat, d: nat)

  function Cut(x: byte, y: byte, z: byte): (q: Quantum)
    ensures q.a < 64 && q.b < 64 && q.c < 64 && q.d < 64
  {
    Quantum(x / 4, x % 4 * 16 + y / 16, y % 16 * 4 + z / 64, z % 64)
  }

  function First(a: nat, b: nat): byte
    requires a < 64 && b < 64
  {
    a * 4 + b / 16
  }

  function Second(b: nat, c: nat): byte
    requires b < 64 && c < 64
  {
    b % 16 * 16 + c / 4
  }

  function Third(c: nat, d: nat): byte
    requires c < 64 && d < 64
  {
    c % 4 * 64 + d
  }

  lemma CutRoundTrip(x: byte, y: byte, z: byte)
    ensures var q := Cut(x, y, z);
            First(q.a, q.b) == x && Second(q.b, q.c) == y && Third(q.c, q.d) == z
  {
    assert (x % 4 * 16 + y / 16) / 16 == x % 4 && (x % 4 * 16 + y / 16) % 16 == y / 16;
    assert (y % 16 * 4 + z / 64) / 4 == y % 16 && (y % 16 * 4 + z / 64) % 4 == z / 64;
  }

  function Encode(b: bytes): bytes {
    if |b| == 0 then []
    else if |b| == 1 then var q := Cut(b[0], 0, 0); [Digit(q.a), Digit(q.b), PAD, PAD]
    else if |b| == 2 then var q := Cut(b[0], b[1], 0); [Digit(q.a), Digit(q.b), Digit(q.c), PAD]
    else var q := Cut(b[0], b[1], b[2]); [Digit(q.a), Digit(q.b), Digit(q.c), Digit(q.d)] + Encode(b[3..])
  }

  /** The decoder ignores line breaks. */
  function WithoutBreaks(text: bytes): bytes {
    if text == [] then []
    else (if text[0] in {10, 13} then [] else [text[0]]) + WithoutBreaks(text[1..])
  }

  /** Four digits at a time; padding only at the very end. Leftover bits are not checked. */
  function DecodeQuanta(s: bytes): Option<bytes> {
    if s == [] then Some([])
    else if |s| < 4 || DigitValue(s[0]).None? || DigitValue(s[1]).None? then None
    else
      var a, b := DigitValue(s[0]).value, DigitValue(s[1]).value;
      if s[2] == PAD then (if s[3] == PAD && |s| == 4 then Some([First(a, b)]) else None)
      else if DigitValue(s[2]).None? then None
      else
        var c := DigitValue(s[2]).value;
        if s[3] == PAD then (if |s| == 4 then Some([First(a, b), Second(b, c)]) else None)
        else if DigitValue(s[3]).None? then None
        else
          match DecodeQuanta(s[4..])
          case None => None
          case Some(rest) => Some([First(a, b), Second(b, c), Third(c, DigitValue(s[3]).value)] + rest)
  }

  function Decode(text: bytes): Option<bytes> {
    DecodeQuanta(WithoutBreaks(text))
  }

  ghost predicate HasNoBreaks(text: bytes) {
    forall i :: 0 <= i < |text| ==> text[i] !in {10, 13}
  }

  lemma {:induction false} NoBreaksKept(text: bytes)
    requires HasNoBreaks(text)
    ensures WithoutBreaks(text) == text
  {
    if text != [] {
      NoBreaksKept(text[1..]);
    }
  }

  lemma {:induction false} EncodeHasNoBreaks(b: bytes)
    ensures HasNoBreaks(Encode(b))
  {
    if |b| >= 3 {
      EncodeHasNoBreaks(b[3..]);
    }
  }

  lemma DecodeTwo(a: nat, b: nat)
    requires a < 64 && b < 64
    ensures DecodeQuanta([Digit(a), Digit(b), PAD, PAD]) == Some([First(a, b)])
  {
    DigitRoundTrip(a);
    DigitRoundTrip(b);
  }

  lemma DecodeThree(a: nat, b: nat, c: nat)
    requires a < 64 && b < 64 && c < 64
    ensures DecodeQuanta([Digit(a), Digit(b), Digit(c), PAD]) == Some([First(a, b), Second(b, c)])
  {
    DigitRoundTrip(a);
    DigitRoundTrip(b);
    DigitRoundTrip(c);
  }

  lemma OneByteRoundTrip(b: bytes, x: byte)
    requires b == [x]
    ensures DecodeQuanta(Encode(b)) == Some(b)
  {
    var q := Cut(x, 0, 0);
    CutRoundTrip(x, 0, 0);
    DecodeTwo(q.a, q.b);
  }

  lemma TwoBytesRoundTrip(b: bytes, x: byte, y: byte)
    requires b == [x, y]
    ensures DecodeQuanta(Encode(b)) == Some(b)
  {
    var q := Cut(x, y, 0);
    CutRoundTrip(x, y, 0);
    DecodeThree(q.a, q.b, q.c);
  }

  lemma DecodeFour(a: nat, b: nat, c: nat, d: nat, more: bytes, rest: bytes)
    requires a < 64 && b < 64 && c < 64 && d < 64 && DecodeQuanta(more) == Some(rest)
    ensures DecodeQuanta([Digit(a), Digit(b), Digit(c), Digit(d)] + more) == Some([First(a, b), Second(b, c), Third(c, d)] + rest)
  {
    DigitRoundTrip(a);
    DigitRoundTrip(b);
    DigitRoundTrip(c);
    DigitRoundTrip(d);
    assert ([Digit(a), Digit(b), Digit(c), Digit(d)] + more)[4..] == more;
  }

  lemma ThreeBytesRoundTrip(b: bytes, x: byte, y: byte, z: byte, rest: bytes)
    requires b == [x, y, z] + rest && DecodeQuanta(Encode(rest)) == Some(rest)
    ensures DecodeQuanta(Encode(b)) == Some(b)
  {
    var q := Cut(x, y, z);
    CutRoundTrip(x, y, z);
    assert b[3..] == rest;
    DecodeFour(q.a, q.b, q.c, q.d, Encode(rest), rest);
  }

  lemma {:induction false} QuantaRoundTrip(b: bytes)
    ensures DecodeQuanta(Encode(b)) == Some(b)
  {
    if |b| == 1 {
      OneByteRoundTrip(b, b[0]);
    } else if |b| == 2 {
      TwoBytesRoundTrip(b, b[0], b[1]);
    } else if |b| >= 3 {
      QuantaRoundTrip(b[3..]);
      ThreeBytesRoundTrip(b, b[0], b[1], b[2], b[3..]);
    }
  }

  lemma Base64RoundTrip(b: bytes)
    ensures Decode(Encode(b)) == Some(b)
  {
    EncodeHasNoBreaks(b);
    NoBreaksKept(Encode(b));
    QuantaRoundTrip(b);
  }

  // Section 4 of RFC 3629.

  predicate IsTail(c: byte) {
    0x80 <= c <= 0xBF
  }

  predicate IsThree(a: byte, b: byte) {
    || (a == 0xE0 && 0xA0 <= b <= 0xBF) || (0xE1 <= a <= 0xEC && IsTail(b))
    || (a == 0xED && 0x80 <= b <= 0x9F) || (0xEE <= a <= 0xEF && IsTail(b))
  }

  predicate IsFour(a: byte, b: byte) {
    || (a == 0xF0 && 0x90 <= b <= 0xBF) || (0xF1 <= a <= 0xF3 && IsTail(b)) || (a == 0xF4 && 0x80 <= b <= 0x8F)
  }

  /** The length of the character the bytes start with, 0 if they start with none. */
  function RuneLength(s: bytes): (n: nat)
    ensures n <= UTF_MAX && n <= |s|
  {
    if s == [] then 0
    else if s[0] < 0x80 then 1
    else if |s| >= 2 && 0xC2 <= s[0] <= 0xDF && IsTail(s[1]) then 2
    else if |s| >= 3 && IsThree(s[0], s[1]) && IsTail(s[2]) then 3
    else if |s| >= 4 && IsFour(s[0], s[1]) && IsTail(s[2]) && IsTail(s[3]) then 4
    else 0
  }

  /** `utf8.Valid`. */
  predicate Utf8Valid(s: bytes) {
    s == [] || (RuneLength(s) > 0 && Utf8Valid(s[RuneLength(s)..]))
  }

  /** Where the last whole character of the first `n` bytes ends. */
  function LastBoundary(s: bytes, n: nat): (at: nat)
    requires Utf8Valid(s) && n <= |s|
    ensures at <= n
  {
    if n == 0 || RuneLength(s) > n then 0 else RuneLength(s) + LastBoundary(s[RuneLength(s)..], n - RuneLength(s))
  }

  lemma CutRune(s: bytes, k: nat)
    requires RuneLength(s) > 0 && k <= |s|
    ensures RuneLength(s[..k]) == if RuneLength(s) <= k then RuneLength(s) else 0
  {
  }

  /** The valid prefixes of a valid text end at character boundaries, so the last boundary gives the longest. */
  lemma {:induction false} BoundaryIsLongest(s: bytes, n: nat, k: nat)
    requires Utf8Valid(s) && k <= n <= |s| && LastBoundary(s, n) <= k
    ensures Utf8Valid(s[..k]) <==> k == LastBoundary(s, n)
    ensures n - LastBoundary(s, n) < UTF_MAX
    decreases |s|
  {
    var r := RuneLength(s);
    if n == 0 {
      assert s[..k] == [];
    } else if r > n {
      CutRune(s, k);
    } else {
      CutRune(s, k);
      assert s[..k][r..] == s[r..][..k - r];
      BoundaryIsLongest(s[r..], n - r, k - r);
    }
  }

  /** What the loop of `trimPartialRune` leaves: the longest valid prefix among the whole and the
      three next shorter ones that are not empty, and everything if none is valid. */
  ghost predicate IsTrimmed(body: bytes, kept: bytes) {
    && kept <= body && (kept == [] ==> body == [])
    && (Utf8Valid(kept) ==> |body| - |kept| < UTF_MAX && forall k :: |kept| < k <= |body| ==> !Utf8Valid(body[..k]))
    && (!Utf8Valid(kept) ==> kept == body && forall k :: 0 < k <= |body| && |body| - k < UTF_MAX ==> !Utf8Valid(body[..k]))
  }

  method TrimPartialRune(body: bytes) returns (kept: bytes)
    ensures IsTrimmed(body, kept)
  {
    var cut := 0;
    while cut < UTF_MAX && cut < |body|
      invariant cut <= UTF_MAX && cut <= |body|
      invariant forall k :: |body| - cut < k <= |body| ==> !Utf8Valid(body[..k])
    {
      if Utf8Valid(body[..|body| - cut]) {
        return body[..|body| - cut];
      }
      cut := cut + 1;
    }
    kept := body;
    assert body[..|body|] == body;
  }

  /** A valid text cut at any byte: the longest valid prefix is kept, exactly unless the cut falls
      inside the first character, where nothing is dropped. From byte 4 on it is always kept. */
  lemma TrimKeepsWholeRunes(text: bytes, n: nat, kept: bytes)
    requires Utf8Valid(text) && n <= |text| && IsTrimmed(text[..n], kept)
    ensures Utf8Valid(kept) <==> n == 0 || RuneLength(text) <= n
    ensures Utf8Valid(kept) ==> kept == text[..LastBoundary(text, n)] && n - |kept| <= 3
    ensures !Utf8Valid(kept) ==> kept == text[..n]
    ensures n >= UTF_MAX ==> Utf8Valid(kept)
  {
    var at := LastBoundary(text, n);
    BoundaryIsLongest(text, n, at);
    assert text[..n][..at] == text[..at];
    assert kept == text[..|kept|];
    if at <= |kept| {
      BoundaryIsLongest(text, n, |kept|);
    }
  }

  lemma {:induction false} LongestValidPrefix(text: bytes, n: nat, k: nat)
    requires Utf8Valid(text) && k <= n <= |text| && Utf8Valid(text[..k])
    ensures k <= LastBoundary(text, n)
  {
    if k > LastBoundary(text, n) {
      BoundaryIsLongest(text, n, k);
    }
  }

  function Encoded(body: bytes): (bytes, string) {
    if Utf8Valid(body) && 0 !in body then (body, ENCODING_UTF8) else (Encode(body), ENCODING_BASE64)
  }

  method EncodeBody(body: bytes, truncated: bool) returns (text: bytes, encoding: string)
    ensures !truncated ==> (text, encoding) == Encoded(body)
    ensures truncated ==> exists kept :: IsTrimmed(body, kept) && (text, encoding) == Encoded(kept)
  {
    var kept := body;
    if truncated {
      kept := TrimPartialRune(body);
    }
    text, encoding := Encoded(kept).0, Encoded(kept).1;
  }

  /** `decodedBody`. */
  function DecodedBody(text: bytes, encoding: string): Option<bytes> {
    if encoding == ENCODING_BASE64 then Decode(text) else Some(text)
  }

  /** What is shown of a held body can always be read back. */
  lemma BodyRoundTrip(body: bytes)
    ensures DecodedBody(Encoded(body).0, Encoded(body).1) == Some(body)
  {
    Base64RoundTrip(body);
  }
}
