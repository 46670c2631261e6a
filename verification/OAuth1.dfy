/** The OAuth 1 parameter text of `engine/auth_oauth1.go`, and `percentEncode` of `engine/auth_sigv4.go`. */
module OAuth1 {
  import opened Text
  import opened Sorting

  datatype Pair = Pair(key: string, value: string)

  /** A Go string: every character is a byte. */
  predicate IsBytes(s: string) {
    forall i :: 0 <= i < |s| ==> s[i] as int < 256
  }

  predicate AreBytes(pairs: seq<Pair>) {
    forall i :: 0 <= i < |pairs| ==> IsBytes(pairs[i].key) && IsBytes(pairs[i].value)
  }

  // Percent encoding, section 3.6 of RFC 5849.

  predicate IsUnreserved(c: char) {
    'A' <= c <= 'Z' || 'a' <= c <= 'z' || '0' <= c <= '9' || c == '-' || c == '_' || c == '.' || c == '~'
  }

  predicate IsEncodedChar(c: char) {
    IsUnreserved(c) || c == '%'
  }

  predicate IsEncoded(s: string) {
    forall i :: 0 <= i < |s| ==> IsEncodedChar(s[i])
  }

  function HexDigit(n: nat): (c: char)
    requires n < 16
    ensures IsUnreserved(c) && HexValue(c) == n
  {
    if n < 10 then '0' + n as char else 'A' + (n - 10) as char
  }

  function HexValue(c: char): nat {
    if '0' <= c <= '9' then (c - '0') as nat else if 'A' <= c <= 'F' then (c - 'A') as nat + 10 else 0
  }

  function EncodeChar(c: char): string
    requires c as int < 256
  {
    if IsUnreserved(c) then [c] else ['%', HexDigit(c as int / 16), HexDigit(c as int % 16)]
  }

  function PercentEncode(s: string): string
    requires IsBytes(s)
  {
    if s == "" then "" else EncodeChar(s[0]) + PercentEncode(s[1..])
  }

  function PercentDecode(s: string): string {
    if s == "" then ""
    else if s[0] == '%' && |s| >= 3 then
      [(HexValue(s[1]) * 16 + HexValue(s[2])) as char] + PercentDecode(s[3..])
    else [s[0]] + PercentDecode(s[1..])
  }

  /** Nothing is lost, and only unreserved characters and `%` are written. */
  lemma {:induction false} PercentRoundTrip(s: string)
    requires IsBytes(s)
    ensures PercentDecode(PercentEncode(s)) == s && IsEncoded(PercentEncode(s))
  {
    if s != "" {
      PercentRoundTrip(s[1..]);
      CharRoundTrip(s[0], PercentEncode(s[1..]));
      assert [s[0]] + s[1..] == s;
    }
  }

  lemma CharRoundTrip(c: char, more: string)
    requires c as int < 256
    ensures PercentDecode(EncodeChar(c) + more) == [c] + PercentDecode(more)
    ensures IsEncoded(more) ==> IsEncoded(EncodeChar(c) + more)
  {
    var first := EncodeChar(c);
    assert (first + more)[|first|..] == more;
  }

  lemma {:induction false} EncodeAppend(s: string, c: char)
    requires IsBytes(s) && c as int < 256
    ensures PercentEncode(s + [c]) == PercentEncode(s) + EncodeChar(c)
  {
    if s == "" {
      assert s + [c] == [c] && PercentEncode([c][1..]) == "";
    } else {
      assert (s + [c])[1..] == s[1..] + [c];
      EncodeAppend(s[1..], c);
    }
  }

  method EncodePercent(value: string) returns (encoded: string)
    requires IsBytes(value)
    ensures encoded == PercentEncode(value)
  {
    encoded := "";
    for i := 0 to |value|
      invariant encoded == PercentEncode(value[..i])
    {
      var c := value[i];
      if IsUnreserved(c) {
        encoded := encoded + [c];
      } else {
        encoded := encoded + ['%', HexDigit(c as int / 16), HexDigit(c as int % 16)];
      }
      EncodeAppend(value[..i], c);
      assert value[..i + 1] == value[..i] + [c];
    }
    assert value[..|value|] == value;
  }

  function EncodePair(p: Pair): Pair
    requires IsBytes(p.key) && IsBytes(p.value)
  {
    Pair(PercentEncode(p.key), PercentEncode(p.value))
  }

  function EncodePairs(pairs: seq<Pair>): (encoded: seq<Pair>)
    requires AreBytes(pairs)
    ensures |encoded| == |pairs|
    ensures forall i :: 0 <= i < |pairs| ==> encoded[i] == EncodePair(pairs[i])
  {
    seq(|pairs|, i requires 0 <= i < |pairs| => EncodePair(pairs[i]))
  }

  // The text of a list of pairs: the key, `=` and the value, which may be quoted.

  function PairText(p: Pair, quoted: bool): string {
    p.key + "=" + if quoted then "\"" + p.value + "\"" else p.value
  }

  function PairTexts(pairs: seq<Pair>, quoted: bool): seq<string> {
    seq(|pairs|, i requires 0 <= i < |pairs| => PairText(pairs[i], quoted))
  }

  function Join(parts: seq<string>, separator: string): string {
    if parts == [] then "" else if |parts| == 1 then parts[0] else parts[0] + separator + Join(parts[1..], separator)
  }

  method EncodeOAuth1Pairs(params: seq<Pair>, separator: string, quoted: bool) returns (text: string)
    requires AreBytes(params)
    ensures text == Join(PairTexts(EncodePairs(params), quoted), separator)
  {
    var parts: seq<string> := [];
    for i := 0 to |params|
      invariant |parts| == i && forall k :: 0 <= k < i ==> parts[k] == PairText(EncodePair(params[k]), quoted)
    {
      var encoded := EncodePercent(params[i].value);
      if quoted {
        encoded := "\"" + encoded + "\"";
      }
      var key := EncodePercent(params[i].key);
      parts := parts + [key + "=" + encoded];
    }
    assert parts == PairTexts(EncodePairs(params), quoted);
    text := Join(parts, separator);
  }

  // Reading a text of pairs back: where an encoded field ends is never in doubt.

  function FieldLength(s: string): (n: nat)
    ensures n <= |s|
  {
    if s == "" || !IsEncodedChar(s[0]) then 0 else 1 + FieldLength(s[1..])
  }

  lemma {:induction false} FieldIsFound(x: string, more: string)
    requires IsEncoded(x) && (more != "" ==> !IsEncodedChar(more[0]))
    ensures FieldLength(x + more) == |x|
  {
    if x == "" {
      assert x + more == more;
    } else {
      assert IsEncodedChar(x[0]);
      assert (x + more)[1..] == x[1..] + more;
      FieldIsFound(x[1..], more);
    }
  }

  lemma FieldEnds(x: string, more: string, y: string, rest: string)
    requires IsEncoded(x) && IsEncoded(y) && x + more == y + rest
    requires more != "" ==> !IsEncodedChar(more[0])
    requires rest != "" ==> !IsEncodedChar(rest[0])
    ensures x == y && more == rest
  {
    FieldIsFound(x, more);
    FieldIsFound(y, rest);
    assert x == (x + more)[..|x|] && y == (y + rest)[..|y|];
    assert more == (x + more)[|x|..] && rest == (y + rest)[|y|..];
  }

  predicate AreEncoded(pairs: seq<Pair>) {
    forall i :: 0 <= i < |pairs| ==> IsEncoded(pairs[i].key) && IsEncoded(pairs[i].value)
  }

  /** The first pair can be told from what follows it. */
  lemma FirstPairIsKnown(p: Pair, q: Pair, quoted: bool, more: string, rest: string)
    requires IsEncoded(p.key) && IsEncoded(p.value) && IsEncoded(q.key) && IsEncoded(q.value)
    requires more != "" ==> !IsEncodedChar(more[0])
    requires rest != "" ==> !IsEncodedChar(rest[0])
    requires PairText(p, quoted) + more == PairText(q, quoted) + rest
    ensures p == q && more == rest
  {
    var opening := if quoted then "=\"" else "=";
    var closing := if quoted then "\"" else "";
    var a, b := p.value + (closing + more), q.value + (closing + rest);
    PairIsFields(p, quoted, more);
    PairIsFields(q, quoted, rest);
    FieldEnds(p.key, opening + a, q.key, opening + b);
    Dropped(opening, a, b);
    assert more == "" ==> closing + more == closing;
    assert rest == "" ==> closing + rest == closing;
    FieldEnds(p.value, closing + more, q.value, closing + rest);
    Dropped(closing, more, rest);
  }

  lemma PairIsFields(p: Pair, quoted: bool, rest: string)
    ensures var opening, closing := if quoted then "=\"" else "=", if quoted then "\"" else "";
            PairText(p, quoted) + rest == p.key + (opening + (p.value + (closing + rest)))
  {
  }

  lemma Dropped(a: string, b: string, c: string)
    requires a + b == a + c
    ensures b == c
  {
    assert (a + b)[|a|..] == b && (a + c)[|a|..] == c;
  }

  function Following(parts: seq<string>, separator: string): string {
    if |parts| <= 1 then "" else separator + Join(parts[1..], separator)
  }

  lemma JoinIsFirst(parts: seq<string>, separator: string)
    requires parts != []
    ensures Join(parts, separator) == parts[0] + Following(parts, separator)
  {
    if |parts| > 1 {
      assert parts[0] + separator + Join(parts[1..], separator) == parts[0] + (separator + Join(parts[1..], separator));
    } else {
      assert parts[0] + "" == parts[0];
    }
  }

  lemma TextsTail(pairs: seq<Pair>, quoted: bool)
    requires pairs != []
    ensures PairTexts(pairs, quoted)[1..] == PairTexts(pairs[1..], quoted)
  {
  }

  lemma NotEmptyText(pairs: seq<Pair>, quoted: bool, separator: string)
    requires pairs != []
    ensures Join(PairTexts(pairs, quoted), separator) != ""
  {
    JoinIsFirst(PairTexts(pairs, quoted), separator);
  }

  /** Different lists of encoded pairs have different texts. */
  lemma {:induction false} TextIsInjective(a: seq<Pair>, b: seq<Pair>, quoted: bool, separator: string)
    requires AreEncoded(a) && AreEncoded(b)
    requires separator != "" && !IsEncodedChar(separator[0])
    requires Join(PairTexts(a, quoted), separator) == Join(PairTexts(b, quoted), separator)
    ensures a == b
    decreases |a|
  {
    if a == [] || b == [] {
      if a != [] {
        NotEmptyText(a, quoted, separator);
      }
      if b != [] {
        NotEmptyText(b, quoted, separator);
      }
    } else {
      var s, t := PairTexts(a, quoted), PairTexts(b, quoted);
      JoinIsFirst(s, separator);
      JoinIsFirst(t, separator);
      FirstPairIsKnown(a[0], b[0], quoted, Following(s, separator), Following(t, separator));
      if |a| > 1 && |b| > 1 {
        TextsTail(a, quoted);
        TextsTail(b, quoted);
        Dropped(separator, Join(s[1..], separator), Join(t[1..], separator));
        TextIsInjective(a[1..], b[1..], quoted, separator);
      }
      assert a == [a[0]] + a[1..] && b == [b[0]] + b[1..];
    }
  }

  // The order of section 3.4.1.3.2 of RFC 5849: by the bytes of the encoded name, then of the encoded value.

  predicate PairBelow(a: Pair, b: Pair) {
    if a.key != b.key then Below(a.key, b.key) else Below(a.value, b.value)
  }

  lemma PairsAreLinear()
    ensures IsLinear(PairBelow)
  {
    forall a, b ensures (PairBelow(a, b) || PairBelow(b, a) || a == b) && !(PairBelow(a, b) && PairBelow(b, a)) {
      BelowIsTotal(a.key, b.key);
      BelowIsTotal(a.value, b.value);
    }
    forall a, b, c | !PairBelow(b, a) && !PairBelow(c, b) ensures !PairBelow(c, a) {
      PairNotBelowTransitive(a, b, c);
    }
  }

  lemma PairNotBelowTransitive(a: Pair, b: Pair, c: Pair)
    requires !PairBelow(b, a) && !PairBelow(c, b)
    ensures !PairBelow(c, a)
  {
    BelowIsTotal(a.key, b.key);
    BelowIsTotal(b.key, c.key);
    BelowIsTotal(a.key, c.key);
    if a.key == b.key == c.key {
      NotBelowTransitive(a.value, b.value, c.value);
    } else {
      NotBelowTransitive(a.key, b.key, c.key);
    }
  }

  // The normalized parameters.

  function Normalized(params: seq<Pair>): string
    requires AreBytes(params)
  {
    Join(PairTexts(Sorted(PairBelow, EncodePairs(params)), false), "&")
  }

  method NormalizeOAuth1Params(params: seq<Pair>) returns (text: string)
    requires AreBytes(params)
    ensures text == Normalized(params)
    ensures exists sorted :: IsSorting(PairBelow, EncodePairs(params), sorted) && text == Join(PairTexts(sorted, false), "&")
  {
    var encoded: seq<Pair> := [];
    for i := 0 to |params|
      invariant |encoded| == i && forall k :: 0 <= k < i ==> encoded[k] == EncodePair(params[k])
    {
      var key := EncodePercent(params[i].key);
      var value := EncodePercent(params[i].value);
      encoded := encoded + [Pair(key, value)];
    }
    assert encoded == EncodePairs(params);
    encoded := Sorted(PairBelow, encoded);
    PairsAreLinear();
    SortedSorts(PairBelow, EncodePairs(params));
    var parts: seq<string> := [];
    for i := 0 to |encoded|
      invariant |parts| == i && forall k :: 0 <= k < i ==> parts[k] == PairText(encoded[k], false)
    {
      parts := parts + [encoded[i].key + "=" + encoded[i].value];
    }
    assert parts == PairTexts(encoded, false);
    text := Join(parts, "&");
  }

  // Two lists have the same text exactly when they hold the same pairs as often.

  function Without<T>(s: seq<T>, k: nat): seq<T>
    requires k < |s|
  {
    s[..k] + s[k + 1..]
  }

  lemma WithoutOne<T>(s: seq<T>, k: nat)
    requires k < |s|
    ensures multiset(s) == multiset(Without(s, k)) + multiset{s[k]}
  {
    assert s == s[..k] + [s[k]] + s[k + 1..];
  }

  lemma PermutationPicks<T>(a: seq<T>, b: seq<T>) returns (k: nat)
    requires a != [] && multiset(a) == multiset(b)
    ensures k < |b| && b[k] == a[0] && multiset(a[1..]) == multiset(Without(b, k))
  {
    assert a[0] in multiset(a);
    assert a[0] in multiset(b);
    k :| 0 <= k < |b| && b[k] == a[0];
    WithoutOne(a, 0);
    WithoutFirst(a);
    WithoutOne(b, k);
    assert multiset(a[1..]) == multiset(a) - multiset{a[0]};
    assert multiset(Without(b, k)) == multiset(b) - multiset{b[k]};
  }

  lemma EncodeWithout(pairs: seq<Pair>, k: nat)
    requires AreBytes(pairs) && k < |pairs|
    ensures Without(EncodePairs(pairs), k) == EncodePairs(Without(pairs, k))
  {
  }

  lemma WithoutFirst<T>(s: seq<T>)
    requires s != []
    ensures Without(s, 0) == s[1..]
  {
  }

  /** Encoding the pairs one by one keeps how often each occurs. */
  lemma {:induction false} EncodingPermutes(a: seq<Pair>, b: seq<Pair>)
    requires AreBytes(a) && AreBytes(b) && multiset(a) == multiset(b)
    ensures multiset(EncodePairs(a)) == multiset(EncodePairs(b))
    decreases |a|
  {
    assert |multiset(a)| == |a| && |multiset(b)| == |b|;
    if a == [] {
      assert b == [];
    } else {
      var k := PermutationPicks(a, b);
      EncodingPermutes(a[1..], Without(b, k));
      WithoutOne(EncodePairs(a), 0);
      WithoutOne(EncodePairs(b), k);
      WithoutFirst(a);
      EncodeWithout(a, 0);
      EncodeWithout(b, k);
    }
  }

  /** And no two different pairs are encoded alike. */
  lemma {:induction false} EncodingReflects(a: seq<Pair>, b: seq<Pair>)
    requires AreBytes(a) && AreBytes(b) && multiset(EncodePairs(a)) == multiset(EncodePairs(b))
    ensures multiset(a) == multiset(b)
    decreases |a|
  {
    var x, y := EncodePairs(a), EncodePairs(b);
    assert |multiset(x)| == |x| && |multiset(y)| == |y|;
    if a == [] {
      assert b == [];
    } else {
      var k := PermutationPicks(x, y);
      assert EncodePair(a[0]) == EncodePair(b[k]);
      PairRoundTrip(a[0]);
      PairRoundTrip(b[k]);
      WithoutFirst(a);
      WithoutFirst(x);
      EncodeWithout(a, 0);
      EncodeWithout(b, k);
      EncodingReflects(a[1..], Without(b, k));
      WithoutOne(a, 0);
      WithoutOne(b, k);
    }
  }

  lemma PairRoundTrip(p: Pair)
    requires IsBytes(p.key) && IsBytes(p.value)
    ensures Pair(PercentDecode(EncodePair(p).key), PercentDecode(EncodePair(p).value)) == p
  {
    PercentRoundTrip(p.key);
    PercentRoundTrip(p.value);
  }

  lemma SortedIsEncoded(pairs: seq<Pair>)
    requires AreBytes(pairs)
    ensures AreEncoded(Sorted(PairBelow, EncodePairs(pairs)))
  {
    var sorted := Sorted(PairBelow, EncodePairs(pairs));
    PairsAreLinear();
    SortedSorts(PairBelow, EncodePairs(pairs));
    forall i | 0 <= i < |sorted| ensures IsEncoded(sorted[i].key) && IsEncoded(sorted[i].value) {
      assert sorted[i] in multiset(sorted);
      assert sorted[i] in multiset(EncodePairs(pairs));
      var k :| 0 <= k < |pairs| && EncodePairs(pairs)[k] == sorted[i];
      PercentRoundTrip(pairs[k].key);
      PercentRoundTrip(pairs[k].value);
    }
  }

  lemma NormalizedIsExact(a: seq<Pair>, b: seq<Pair>)
    requires AreBytes(a) && AreBytes(b)
    ensures Normalized(a) == Normalized(b) <==> multiset(a) == multiset(b)
  {
    var x, y := EncodePairs(a), EncodePairs(b);
    PairsAreLinear();
    SortedSorts(PairBelow, x);
    SortedSorts(PairBelow, y);
    if multiset(a) == multiset(b) {
      EncodingPermutes(a, b);
      SortingIsUnique(PairBelow, Sorted(PairBelow, x), Sorted(PairBelow, y));
    }
    if Normalized(a) == Normalized(b) {
      SortedIsEncoded(a);
      SortedIsEncoded(b);
      TextIsInjective(Sorted(PairBelow, x), Sorted(PairBelow, y), false, "&");
      EncodingReflects(a, b);
    }
  }

  /** The text of the parameters in a header or a body, whose order is kept. */
  lemma EncodedTextIsExact(a: seq<Pair>, b: seq<Pair>, quoted: bool, separator: string)
    requires AreBytes(a) && AreBytes(b)
    requires separator != "" && !IsEncodedChar(separator[0])
    ensures Join(PairTexts(EncodePairs(a), quoted), separator) == Join(PairTexts(EncodePairs(b), quoted), separator) <==> a == b
  {
    var x, y := EncodePairs(a), EncodePairs(b);
    if Join(PairTexts(x, quoted), separator) == Join(PairTexts(y, quoted), separator) {
      AllEncoded(a);
      AllEncoded(b);
      TextIsInjective(x, y, quoted, separator);
      forall i | 0 <= i < |a| ensures a[i] == b[i] {
        assert x[i] == y[i];
        PairRoundTrip(a[i]);
        PairRoundTrip(b[i]);
      }
    }
  }

  lemma AllEncoded(pairs: seq<Pair>)
    requires AreBytes(pairs)
    ensures AreEncoded(EncodePairs(pairs))
  {
    forall i | 0 <= i < |pairs| ensures IsEncoded(EncodePairs(pairs)[i].key) && IsEncoded(EncodePairs(pairs)[i].value) {
      PercentRoundTrip(pairs[i].key);
      PercentRoundTrip(pairs[i].value);
    }
  }

  // The signed parameters, for any order in which the maps are walked.

  type Values = map<string, seq<string>>

  ghost predicate Enumerates(order: seq<string>, values: Values) {
    Distinct(order) && forall key :: key in order <==> key in values
  }

  function PairsOf(key: string, list: seq<string>): seq<Pair> {
    seq(|list|, i requires 0 <= i < |list| => Pair(key, list[i]))
  }

  function PairsInOrder(values: Values, order: seq<string>): seq<Pair>
    requires forall i :: 0 <= i < |order| ==> order[i] in values
  {
    if order == [] then []
    else PairsInOrder(values, order[..|order| - 1]) + PairsOf(order[|order| - 1], values[order[|order| - 1]])
  }

  /** `order` is the order in which the map happens to be walked. */
  method QueryPairs(values: Values, order: seq<string>) returns (pairs: seq<Pair>)
    requires Enumerates(order, values)
    ensures pairs == PairsInOrder(values, order)
  {
    pairs := [];
    for i := 0 to |order|
      invariant pairs == PairsInOrder(values, order[..i])
    {
      var list := values[order[i]];
      ghost var before := pairs;
      for k := 0 to |list|
        invariant pairs == before + PairsOf(order[i], list[..k])
      {
        pairs := pairs + [Pair(order[i], list[k])];
        assert PairsOf(order[i], list[..k + 1]) == PairsOf(order[i], list[..k]) + [Pair(order[i], list[k])];
      }
      assert list[..|list|] == list;
      assert order[..i + 1][..i] == order[..i];
    }
    assert order[..|order|] == order;
  }

  method SignedParams(oauth: seq<Pair>, query: Values, queryOrder: seq<string>, form: Option<Values>, formOrder: seq<string>)
      returns (signed: seq<Pair>)
    requires Enumerates(queryOrder, query) && (form.Some? ==> Enumerates(formOrder, form.value))
    ensures signed == Signed(oauth, query, queryOrder, form, formOrder)
  {
    var pairs := QueryPairs(query, queryOrder);
    signed := oauth + pairs;
    if form.Some? {
      pairs := QueryPairs(form.value, formOrder);
      signed := signed + pairs;
    }
  }

  ghost function Signed(oauth: seq<Pair>, query: Values, queryOrder: seq<string>, form: Option<Values>, formOrder: seq<string>): seq<Pair>
    requires Enumerates(queryOrder, query) && (form.Some? ==> Enumerates(formOrder, form.value))
  {
    oauth + PairsInOrder(query, queryOrder) + if form.Some? then PairsInOrder(form.value, formOrder) else []
  }

  /** How often a pair is sent: what no order can change. */
  function Times(values: Values, p: Pair): nat {
    if p.key in values then multiset(values[p.key])[p.value] else 0
  }

  lemma {:induction false} PairsOfCounts(key: string, list: seq<string>, p: Pair)
    ensures multiset(PairsOf(key, list))[p] == if p.key == key then multiset(list)[p.value] else 0
  {
    if list != [] {
      var init, last := list[..|list| - 1], list[|list| - 1];
      PairsOfCounts(key, init, p);
      assert list == init + [last];
      assert PairsOf(key, list) == PairsOf(key, init) + [Pair(key, last)];
    }
  }

  lemma {:induction false} PairsInOrderCount(values: Values, order: seq<string>, p: Pair)
    requires Distinct(order) && forall i :: 0 <= i < |order| ==> order[i] in values
    ensures multiset(PairsInOrder(values, order))[p] == if p.key in order then Times(values, p) else 0
  {
    if order != [] {
      var init, last := order[..|order| - 1], order[|order| - 1];
      assert order == init + [last];
      PairsInOrderCount(values, init, p);
      PairsOfCounts(last, values[last], p);
    }
  }

  /** Each pair is signed as often as the OAuth parameters, the query and the form hold it, whatever the order. */
  lemma SignedCounts(oauth: seq<Pair>, query: Values, queryOrder: seq<string>, form: Option<Values>, formOrder: seq<string>, p: Pair)
    requires Enumerates(queryOrder, query) && (form.Some? ==> Enumerates(formOrder, form.value))
    ensures multiset(Signed(oauth, query, queryOrder, form, formOrder))[p]
         == multiset(oauth)[p] + Times(query, p) + if form.Some? then Times(form.value, p) else 0
  {
    PairsInOrderCount(query, queryOrder, p);
    if form.Some? {
      PairsInOrderCount(form.value, formOrder, p);
    }
  }

  /** So the signature base does not depend on the order in which Go walks its maps. */
  lemma MapOrderDoesNotMatter(oauth: seq<Pair>, query: Values, form: Option<Values>,
                              queryOrder: seq<string>, formOrder: seq<string>, otherQuery: seq<string>, otherForm: seq<string>)
    requires Enumerates(queryOrder, query) && (form.Some? ==> Enumerates(formOrder, form.value))
    requires Enumerates(otherQuery, query) && (form.Some? ==> Enumerates(otherForm, form.value))
    requires AreBytes(Signed(oauth, query, queryOrder, form, formOrder))
    ensures AreBytes(Signed(oauth, query, otherQuery, form, otherForm))
    ensures Normalized(Signed(oauth, query, queryOrder, form, formOrder)) == Normalized(Signed(oauth, query, otherQuery, form, otherForm))
  {
    var a, b := Signed(oauth, query, queryOrder, form, formOrder), Signed(oauth, query, otherQuery, form, otherForm);
    forall p ensures multiset(a)[p] == multiset(b)[p] {
      SignedCounts(oauth, query, queryOrder, form, formOrder, p);
      SignedCounts(oauth, query, otherQuery, form, otherForm, p);
    }
    BytesPermute(a, b);
    NormalizedIsExact(a, b);
  }

  lemma BytesPermute(a: seq<Pair>, b: seq<Pair>)
    requires AreBytes(a) && multiset(a) == multiset(b)
    ensures AreBytes(b)
  {
    forall i | 0 <= i < |b| ensures IsBytes(b[i].key) && IsBytes(b[i].value) {
      assert b[i] in multiset(b);
      assert b[i] in multiset(a);
    }
  }
}
