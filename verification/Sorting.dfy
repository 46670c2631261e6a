/** Sorting by a linear order: `sort.Slice` and `slices.Sort` as the program uses them. */
module Sorting {
  ghost predicate IsLinear<T(!new)>(less: (T, T) -> bool) {
    && (forall a, b :: less(a, b) || less(b, a) || a == b)
    && (forall a, b :: !(less(a, b) && less(b, a)))
    && (forall a, b, c :: !less(b, a) && !less(c, b) ==> !less(c, a))
  }

  predicate InOrder<T>(less: (T, T) -> bool, s: seq<T>) {
    forall i, j :: 0 <= i < j < |s| ==> !less(s[j], s[i])
  }

  ghost predicate IsSorting<T>(less: (T, T) -> bool, s: seq<T>, sorted: seq<T>) {
    InOrder(less, sorted) && multiset(sorted) == multiset(s)
  }

  function Insert<T>(less: (T, T) -> bool, x: T, s: seq<T>): seq<T> {
    if s == [] || !less(s[0], x) then [x] + s else [s[0]] + Insert(less, x, s[1..])
  }

  /** One sorting of a list; by SortingIsUnique, the one that every sorting algorithm finds. */
  function Sorted<T>(less: (T, T) -> bool, s: seq<T>): seq<T>
    decreases |s|
  {
    if s == [] then [] else Insert(less, s[0], Sorted(less, s[1..]))
  }

  lemma {:induction false} InsertPermutes<T>(less: (T, T) -> bool, x: T, s: seq<T>)
    ensures multiset(Insert(less, x, s)) == multiset{x} + multiset(s)
  {
    if s != [] && less(s[0], x) {
      InsertPermutes(less, x, s[1..]);
      assert s == [s[0]] + s[1..];
    }
  }

  lemma OrderPrepends<T>(less: (T, T) -> bool, x: T, s: seq<T>)
    requires InOrder(less, s) && forall j :: 0 <= j < |s| ==> !less(s[j], x)
    ensures InOrder(less, [x] + s)
  {
  }

  lemma {:induction false} InsertSorts<T(!new)>(less: (T, T) -> bool, x: T, s: seq<T>)
    requires IsLinear(less) && InOrder(less, s)
    ensures InOrder(less, Insert(less, x, s))
  {
    if s == [] || !less(s[0], x) {
      assert forall j :: 0 < j < |s| ==> !less(s[j], s[0]);
      OrderPrepends(less, x, s);
    } else {
      var inserted := Insert(less, x, s[1..]);
      InsertSorts(less, x, s[1..]);
      InsertPermutes(less, x, s[1..]);
      forall j | 0 <= j < |inserted| ensures !less(inserted[j], s[0]) {
        assert inserted[j] in multiset(inserted);
        assert inserted[j] == x || inserted[j] in s[1..];
      }
      OrderPrepends(less, s[0], inserted);
    }
  }

  lemma {:induction false} SortedSorts<T(!new)>(less: (T, T) -> bool, s: seq<T>)
    requires IsLinear(less)
    ensures IsSorting(less, s, Sorted(less, s))
    decreases |s|
  {
    if s != [] {
      SortedSorts(less, s[1..]);
      InsertSorts(less, s[0], Sorted(less, s[1..]));
      InsertPermutes(less, s[0], Sorted(less, s[1..]));
      assert s == [s[0]] + s[1..];
    }
  }

  /** A sorting is unique, so which algorithm sorts makes no difference. */
  lemma {:induction false} SortingIsUnique<T(!new)>(less: (T, T) -> bool, a: seq<T>, b: seq<T>)
    requires IsLinear(less) && InOrder(less, a) && InOrder(less, b) && multiset(a) == multiset(b)
    ensures a == b
    decreases |a|
  {
    assert |a| == |multiset(a)| == |b|;
    if a != [] {
      FirstIsLowest(less, a, b);
      FirstIsLowest(less, b, a);
      assert a == [a[0]] + a[1..] && b == [b[0]] + b[1..];
      assert multiset(a[1..]) == multiset(a) - multiset{a[0]};
      assert multiset(b[1..]) == multiset(b) - multiset{b[0]};
      SortingIsUnique(less, a[1..], b[1..]);
    }
  }

  lemma FirstIsLowest<T(!new)>(less: (T, T) -> bool, a: seq<T>, b: seq<T>)
    requires IsLinear(less) && InOrder(less, a) && multiset(a) == multiset(b) && b != [] && a != []
    ensures !less(b[0], a[0])
  {
    assert b[0] in multiset(b);
    assert b[0] in multiset(a);
    var k :| 0 <= k < |a| && a[k] == b[0];
  }

  // The order of Go strings, by their bytes.

  predicate Below(a: string, b: string)
    decreases |a|
  {
    b != "" && (a == "" || a[0] < b[0] || (a[0] == b[0] && Below(a[1..], b[1..])))
  }

  lemma {:induction false} BelowIsTotal(a: string, b: string)
    ensures Below(a, b) || Below(b, a) || a == b
    ensures !(Below(a, b) && Below(b, a)) && !Below(a, a)
    decreases |a|
  {
    if a != "" {
      BelowIsTotal(a[1..], if b != "" then b[1..] else "");
    }
    if a != "" && b != "" && a[0] == b[0] && a[1..] == b[1..] {
      assert a == [a[0]] + a[1..] && b == [b[0]] + b[1..];
    }
  }

  lemma {:induction false} NotBelowTransitive(a: string, b: string, c: string)
    requires !Below(b, a) && !Below(c, b)
    ensures !Below(c, a)
    decreases |a|
  {
    if a != "" && b != "" && c != "" && a[0] == b[0] == c[0] {
      NotBelowTransitive(a[1..], b[1..], c[1..]);
    }
  }

  lemma StringsAreLinear()
    ensures IsLinear(Below)
  {
    forall a, b ensures (Below(a, b) || Below(b, a) || a == b) && !(Below(a, b) && Below(b, a)) {
      BelowIsTotal(a, b);
    }
    forall a, b, c | !Below(b, a) && !Below(c, b) ensures !Below(c, a) {
      NotBelowTransitive(a, b, c);
    }
  }
}
