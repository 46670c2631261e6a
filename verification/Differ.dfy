/** The comparison of a response with a saved example: `differ`, `compareBodies` and `compareWith` of
`agent/responses.go`. */
module Differ {
  import opened Text
  import opened Sorting

  /** A decoded document. A number keeps the text it was written with. */
  datatype Json =
    | Null
    | Bool(value: bool)
    | Number(written: string)
    | String(text: string)
    | Array(items: seq<Json>)
    | Object(members: map<string, Json>)

  datatype Kind = NullKind | ObjectKind | ArrayKind | StringKind | BoolKind | NumberKind

  function KindOf(j: Json): Kind {
    match j
    case Null => NullKind
    case Object(_) => ObjectKind
    case Array(_) => ArrayKind
    case String(_) => StringKind
    case Bool(_) => BoolKind
    case Number(_) => NumberKind
  }

  function KindName(kind: Kind): string {
    match kind
    case NullKind => "null"
    case ObjectKind => "object"
    case ArrayKind => "array"
    case StringKind => "string"
    case BoolKind => "boolean"
    case NumberKind => "number"
  }

  datatype Step = Member(name: string) | Item(index: nat)

  datatype Change = Missing | Unexpected | OtherType | OtherValue | OtherText

  datatype Part = Part(change: Change, expected: Json, actual: Json)

  /** A difference and where it is. */
  datatype Spot = Spot(at: seq<Step>, part: Part)

  function Child(j: Json, step: Step): (child: Option<Json>)
    ensures child.Some? ==> child.value < j
  {
    match step
    case Member(name) => if j.Object? && name in j.members then Some(j.members[name]) else None
    case Item(index) => if j.Array? && index < |j.items| then Some(j.items[index]) else None
  }

  // The differences of two documents.

  lemma SetWithout(names: set<string>, name: string)
    requires name in names
    ensures multiset(names) == multiset{name} + multiset(names - {name})
  {
  }

  /** The names in the order of their bytes. */
  ghost function SortedNames(names: set<string>): (s: seq<string>)
    ensures InOrder(Below, s) && multiset(s) == multiset(names)
  {
    if names == {} then []
    else
      var name :| name in names;
      var more := SortedNames(names - {name});
      StringsAreLinear();
      InsertSorts(Below, name, more);
      InsertPermutes(Below, name, more);
      SetWithout(names, name);
      Insert(Below, name, more)
  }

  ghost function Members(names: set<string>): (steps: seq<Step>)
    ensures forall step :: step in steps <==> step.Member? && step.name in names
  {
    var s := SortedNames(names);
    assert forall name :: name in s <==> name in multiset(s);
    assert forall name :: name in multiset(names) <==> name in names;
    var steps := seq(|s|, i requires 0 <= i < |s| => Member(s[i]));
    assert forall i :: 0 <= i < |s| ==> steps[i] == Member(s[i]);
    steps
  }

  function Items(count: nat): (steps: seq<Step>)
    ensures |steps| == count && forall i :: 0 <= i < count ==> steps[i] == Item(i)
  {
    seq(count, i requires 0 <= i < count => Item(i))
  }

  function Max(a: nat, b: nat): nat {
    if a < b then b else a
  }

  /** Where two documents of one kind are compared further. Only the first items give an array its shape. */
  ghost function Steps(e: Json, a: Json, shapeOnly: bool): seq<Step> {
    if e.Object? && a.Object? then Members(e.members.Keys + a.members.Keys)
    else if e.Array? && a.Array? then
      if !shapeOnly then Items(Max(|e.items|, |a.items|))
      else if e.items != [] && a.items != [] then Items(1) else []
    else []
  }

  predicate IsPlain(j: Json) {
    !j.Object? && !j.Array?
  }

  ghost function Diffs(at: seq<Step>, e: Json, a: Json, shapeOnly: bool): seq<Spot>
    decreases e, 1, 0
  {
    if KindOf(e) != KindOf(a) then [Spot(at, TypePart(e, a))]
    else if IsPlain(e) then
      if !shapeOnly && e != a then [Spot(at, Part(OtherValue, e, a))] else []
    else DiffsAlong(at, e, a, Steps(e, a, shapeOnly), shapeOnly)
  }

  function TypePart(e: Json, a: Json): Part {
    Part(OtherType, String(KindName(KindOf(e))), String(KindName(KindOf(a))))
  }

  ghost function DiffsAlong(at: seq<Step>, e: Json, a: Json, steps: seq<Step>, shapeOnly: bool): seq<Spot>
    decreases e, 0, |steps|
  {
    if steps == [] then []
    else DiffsAt(at, e, a, steps[0], shapeOnly) + DiffsAlong(at, e, a, steps[1..], shapeOnly)
  }

  ghost function DiffsAt(at: seq<Step>, e: Json, a: Json, step: Step, shapeOnly: bool): seq<Spot>
    decreases e, 0, 0
  {
    match (Child(e, step), Child(a, step))
    case (None, None) => []
    case (Some(x), None) => [Spot(at + [step], Part(Missing, x, Null))]
    case (None, Some(y)) => [Spot(at + [step], Part(Unexpected, Null, y))]
    case (Some(x), Some(y)) => Diffs(at + [step], x, y, shapeOnly)
  }

  // The same differences, asked place by place.

  /** Whether two documents of one kind are compared at a step. */
  ghost predicate IsCompared(e: Json, a: Json, step: Step, shapeOnly: bool) {
    step.Item? && shapeOnly ==> step.index == 0 && Child(e, step).Some? && Child(a, step).Some?
  }

  /** What differs at a place, if the documents agree in kind all the way there. */
  ghost function PartAt(e: Json, a: Json, place: seq<Step>, shapeOnly: bool): Option<Part>
    decreases |place|
  {
    if place == [] then
      if KindOf(e) != KindOf(a) then Some(TypePart(e, a))
      else if IsPlain(e) && !shapeOnly && e != a then Some(Part(OtherValue, e, a))
      else None
    else if KindOf(e) != KindOf(a) || !IsCompared(e, a, place[0], shapeOnly) then None
    else
      match (Child(e, place[0]), Child(a, place[0]))
      case (None, None) => None
      case (Some(x), None) => if |place| == 1 then Some(Part(Missing, x, Null)) else None
      case (None, Some(y)) => if |place| == 1 then Some(Part(Unexpected, Null, y)) else None
      case (Some(x), Some(y)) => PartAt(x, y, place[1..], shapeOnly)
  }

  ghost predicate IsUnder(at: seq<Step>, place: seq<Step>) {
    |at| <= |place| && place[..|at|] == at
  }

  ghost predicate IsPart(at: seq<Step>, e: Json, a: Json, spot: Spot, shapeOnly: bool) {
    IsUnder(at, spot.at) && PartAt(e, a, spot.at[|at|..], shapeOnly) == Some(spot.part)
  }

  ghost predicate IsPartAlong(at: seq<Step>, e: Json, a: Json, spot: Spot, steps: seq<Step>, shapeOnly: bool) {
    IsPart(at, e, a, spot, shapeOnly) && |spot.at| > |at| && spot.at[|at|] in steps
  }

  lemma {:induction false} StepsAreCompared(e: Json, a: Json, step: Step, shapeOnly: bool)
    requires KindOf(e) == KindOf(a)
    ensures step in Steps(e, a, shapeOnly) <==>
              IsCompared(e, a, step, shapeOnly) && (Child(e, step).Some? || Child(a, step).Some?)
  {
    if e.Array? {
      var steps := Steps(e, a, shapeOnly);
      if step.Item? && step.index < |steps| {
        assert steps[step.index] == step;
      }
    }
  }

  /** The differences listed are exactly the places where the documents part. */
  lemma {:induction false} DiffsAreExact(at: seq<Step>, e: Json, a: Json, spot: Spot, shapeOnly: bool)
    ensures spot in Diffs(at, e, a, shapeOnly) <==> IsPart(at, e, a, spot, shapeOnly)
    decreases e, 1, 0
  {
    if KindOf(e) == KindOf(a) && !IsPlain(e) {
      var steps := Steps(e, a, shapeOnly);
      forall i | 0 <= i < |steps| ensures IsCompared(e, a, steps[i], shapeOnly) {
        StepsAreCompared(e, a, steps[i], shapeOnly);
      }
      DiffsAlongAreExact(at, e, a, spot, steps, shapeOnly);
      if IsPart(at, e, a, spot, shapeOnly) && |spot.at| > |at| {
        StepsAreCompared(e, a, spot.at[|at|], shapeOnly);
      }
    } else if IsUnder(at, spot.at) && |spot.at| > |at| {
      assert IsPlain(e) ==> Child(e, spot.at[|at|]).None?;
    } else if IsUnder(at, spot.at) {
      assert spot.at == at;
    }
  }

  lemma {:induction false} DiffsAlongAreExact(at: seq<Step>, e: Json, a: Json, spot: Spot, steps: seq<Step>, shapeOnly: bool)
    requires KindOf(e) == KindOf(a) && forall i :: 0 <= i < |steps| ==> IsCompared(e, a, steps[i], shapeOnly)
    ensures spot in DiffsAlong(at, e, a, steps, shapeOnly) <==> IsPartAlong(at, e, a, spot, steps, shapeOnly)
    decreases e, 0, |steps|
  {
    if steps != [] {
      DiffsAtAreExact(at, e, a, spot, steps[0], shapeOnly);
      DiffsAlongAreExact(at, e, a, spot, steps[1..], shapeOnly);
      assert steps == [steps[0]] + steps[1..];
    }
  }

  lemma {:induction false} DiffsAtAreExact(at: seq<Step>, e: Json, a: Json, spot: Spot, step: Step, shapeOnly: bool)
    requires KindOf(e) == KindOf(a) && IsCompared(e, a, step, shapeOnly)
    ensures spot in DiffsAt(at, e, a, step, shapeOnly) <==> IsPartAlong(at, e, a, spot, [step], shapeOnly)
    decreases e, 0, 0
  {
    var x, y := Child(e, step), Child(a, step);
    if x.Some? && y.Some? {
      DiffsAreExact(at + [step], x.value, y.value, spot, shapeOnly);
    }
    UnderStep(at, step, spot.at);
  }

  lemma UnderStep(at: seq<Step>, step: Step, place: seq<Step>)
    ensures IsUnder(at + [step], place) <==> IsUnder(at, place) && |place| > |at| && place[|at|] == step
    ensures IsUnder(at + [step], place) ==>
              && place[|at|..][0] == step && place[|at|..][1..] == place[|at + [step]|..]
              && (|place| == |at| + 1 ==> place == at + [step])
  {
  }

  // The documents are equal, or of one shape, exactly when no difference is listed.

  /** The steps where nothing differs. */
  ghost function Clean(at: seq<Step>, e: Json, a: Json, shapeOnly: bool): iset<Step> {
    iset step | DiffsAt(at, e, a, step, shapeOnly) == []
  }

  ghost predicate AllIn(steps: seq<Step>, among: iset<Step>) {
    forall i :: 0 <= i < |steps| ==> steps[i] in among
  }

  lemma AllInTail(steps: seq<Step>, among: iset<Step>)
    requires steps != []
    ensures AllIn(steps, among) <==> steps[0] in among && AllIn(steps[1..], among)
  {
    forall i | 1 <= i < |steps| ensures steps[i] == steps[1..][i - 1] {
    }
  }

  lemma {:induction false} DiffsAlongEmpty(at: seq<Step>, e: Json, a: Json, steps: seq<Step>, shapeOnly: bool)
    ensures DiffsAlong(at, e, a, steps, shapeOnly) == [] <==> AllIn(steps, Clean(at, e, a, shapeOnly))
    decreases |steps|
  {
    if steps != [] {
      DiffsAlongEmpty(at, e, a, steps[1..], shapeOnly);
      AllInTail(steps, Clean(at, e, a, shapeOnly));
    }
  }

  ghost predicate ChildrenAgree(e: Json, a: Json) {
    forall step :: Child(e, step) == Child(a, step)
  }

  lemma AgreeingChildren(e: Json, a: Json)
    requires KindOf(e) == KindOf(a) && !IsPlain(e) && ChildrenAgree(e, a)
    ensures e == a
  {
    if e.Object? {
      forall name ensures (name in e.members <==> name in a.members) && (name in e.members ==> e.members[name] == a.members[name]) {
        assert Child(e, Member(name)) == Child(a, Member(name));
      }
      assert e.members == a.members;
    } else {
      assert Child(e, Item(|a.items|)) == Child(a, Item(|a.items|));
      assert Child(e, Item(|e.items|)) == Child(a, Item(|e.items|));
      forall i | 0 <= i < |e.items| ensures e.items[i] == a.items[i] {
        assert Child(e, Item(i)) == Child(a, Item(i));
      }
      assert e.items == a.items;
    }
  }

  lemma {:induction false} NoDiffsWhenEqual(at: seq<Step>, e: Json, a: Json)
    ensures Diffs(at, e, a, false) == [] <==> e == a
    decreases e
  {
    if KindOf(e) == KindOf(a) && !IsPlain(e) {
      DiffsAlongEmpty(at, e, a, Steps(e, a, false), false);
      forall step ensures DiffsAt(at, e, a, step, false) == [] <==> Child(e, step) == Child(a, step) {
        if Child(e, step).Some? && Child(a, step).Some? {
          NoDiffsWhenEqual(at + [step], Child(e, step).value, Child(a, step).value);
        }
      }
      if Diffs(at, e, a, false) == [] {
        forall step ensures Child(e, step) == Child(a, step) {
          StepsAreCompared(e, a, step, false);
        }
        AgreeingChildren(e, a);
      }
    }
  }

  /** One shape: the same kinds, the same names, and for items only the first of each array. */
  ghost predicate SameShape(e: Json, a: Json)
    decreases e
  {
    && KindOf(e) == KindOf(a)
    && (e.Object? ==>
          && e.members.Keys == a.members.Keys
          && forall name :: name in e.members ==> SameShape(e.members[name], a.members[name]))
    && (e.Array? && e.items != [] && a.items != [] ==> SameShape(e.items[0], a.items[0]))
  }

  ghost predicate SameShapeAt(e: Json, a: Json, step: Step) {
    match (Child(e, step), Child(a, step))
    case (Some(x), Some(y)) => SameShape(x, y)
    case (None, None) => true
    case _ => false
  }

  ghost predicate SameShapeAlong(e: Json, a: Json, steps: seq<Step>) {
    forall i :: 0 <= i < |steps| ==> SameShapeAt(e, a, steps[i])
  }

  lemma {:induction false} SameShapeByStep(e: Json, a: Json)
    requires KindOf(e) == KindOf(a) && !IsPlain(e)
    ensures SameShape(e, a) <==> SameShapeAlong(e, a, Steps(e, a, true))
  {
    var steps := Steps(e, a, true);
    if e.Object? {
      if SameShapeAlong(e, a, steps) {
        forall name | name in e.members || name in a.members
          ensures name in e.members && name in a.members && SameShape(e.members[name], a.members[name]) {
          StepsAreCompared(e, a, Member(name), true);
          assert SameShapeAt(e, a, Member(name));
        }
      }
      if SameShape(e, a) {
        forall i | 0 <= i < |steps| ensures SameShapeAt(e, a, steps[i]) {
          assert steps[i] in steps;
        }
      }
    } else if e.items != [] && a.items != [] {
      assert steps == [Item(0)] && SameShapeAlong(e, a, steps) == SameShapeAt(e, a, steps[0]);
    }
  }

  lemma {:induction false} NoDiffsWhenSameShape(at: seq<Step>, e: Json, a: Json)
    ensures Diffs(at, e, a, true) == [] <==> SameShape(e, a)
    decreases e
  {
    if KindOf(e) == KindOf(a) && !IsPlain(e) {
      var steps := Steps(e, a, true);
      DiffsAlongEmpty(at, e, a, steps, true);
      SameShapeByStep(e, a);
      forall i | 0 <= i < |steps| ensures DiffsAt(at, e, a, steps[i], true) == [] <==> SameShapeAt(e, a, steps[i]) {
        var x, y := Child(e, steps[i]), Child(a, steps[i]);
        if x.Some? && y.Some? {
          NoDiffsWhenSameShape(at + [steps[i]], x.value, y.value);
        }
      }
    }
  }

  // Exchanging the documents.

  function SwappedChange(change: Change): Change {
    match change
    case Missing => Unexpected
    case Unexpected => Missing
    case _ => change
  }

  function Swapped(spots: seq<Spot>): seq<Spot> {
    seq(|spots|, i requires 0 <= i < |spots| =>
      Spot(spots[i].at, Part(SwappedChange(spots[i].part.change), spots[i].part.actual, spots[i].part.expected)))
  }

  lemma SwappedJoins(a: seq<Spot>, b: seq<Spot>)
    ensures Swapped(a + b) == Swapped(a) + Swapped(b)
  {
  }

  lemma StepsSwap(e: Json, a: Json, shapeOnly: bool)
    ensures Steps(e, a, shapeOnly) == Steps(a, e, shapeOnly)
  {
    if e.Object? && a.Object? {
      assert e.members.Keys + a.members.Keys == a.members.Keys + e.members.Keys;
    }
  }

  /** Only what is missing and what is unexpected change places. */
  lemma {:induction false} DiffsSwap(at: seq<Step>, e: Json, a: Json, shapeOnly: bool)
    ensures Diffs(at, a, e, shapeOnly) == Swapped(Diffs(at, e, a, shapeOnly))
    decreases e, 1, 0
  {
    if KindOf(e) == KindOf(a) && !IsPlain(e) {
      StepsSwap(e, a, shapeOnly);
      DiffsAlongSwap(at, e, a, Steps(e, a, shapeOnly), shapeOnly);
    }
  }

  lemma {:induction false} DiffsAlongSwap(at: seq<Step>, e: Json, a: Json, steps: seq<Step>, shapeOnly: bool)
    ensures DiffsAlong(at, a, e, steps, shapeOnly) == Swapped(DiffsAlong(at, e, a, steps, shapeOnly))
    decreases e, 0, |steps|
  {
    if steps != [] {
      var x, y := Child(e, steps[0]), Child(a, steps[0]);
      if x.Some? && y.Some? {
        DiffsSwap(at + [steps[0]], x.value, y.value, shapeOnly);
      }
      DiffsAlongSwap(at, e, a, steps[1..], shapeOnly);
      SwappedJoins(DiffsAt(at, e, a, steps[0], shapeOnly), DiffsAlong(at, e, a, steps[1..], shapeOnly));
    }
  }

  // Places in the order they are listed.

  ghost predicate StepBelow(s: Step, t: Step) {
    if s.Member? && t.Member? then Below(s.name, t.name) else s.Item? && t.Item? && s.index < t.index
  }

  ghost predicate PlaceBelow(s: seq<Step>, t: seq<Step>) {
    exists k :: 0 <= k < |s| && k < |t| && s[..k] == t[..k] && StepBelow(s[k], t[k])
  }

  ghost predicate Ascends(steps: seq<Step>) {
    forall i, j :: 0 <= i < j < |steps| ==> StepBelow(steps[i], steps[j])
  }

  ghost predicate InPathOrder(spots: seq<Spot>) {
    forall i, j :: 0 <= i < j < |spots| ==> PlaceBelow(spots[i].at, spots[j].at)
  }

  lemma CountedOnce<T>(s: seq<T>, i: nat, j: nat)
    requires i < j < |s| && multiset(s)[s[i]] <= 1
    ensures s[i] != s[j]
  {
    var front, back := s[..j], s[j..];
    assert s == front + back && front[i] == s[i] && back[0] == s[j];
    assert s[i] in multiset(front) && s[j] in multiset(back);
  }

  lemma SortedNamesAscend(names: set<string>, i: nat, j: nat)
    requires i < j < |SortedNames(names)|
    ensures Below(SortedNames(names)[i], SortedNames(names)[j])
  {
    var s := SortedNames(names);
    assert multiset(names)[s[i]] <= 1;
    CountedOnce(s, i, j);
    BelowIsTotal(s[i], s[j]);
  }

  lemma StepsAscend(e: Json, a: Json, shapeOnly: bool)
    ensures Ascends(Steps(e, a, shapeOnly))
  {
    if e.Object? && a.Object? {
      var names := e.members.Keys + a.members.Keys;
      var steps := Members(names);
      forall i, j | 0 <= i < j < |steps| ensures StepBelow(steps[i], steps[j]) {
        SortedNamesAscend(names, i, j);
      }
    }
  }

  /** The differences come in the order of their places, so no place is listed twice. */
  lemma {:induction false} DiffsAreInOrder(at: seq<Step>, e: Json, a: Json, shapeOnly: bool)
    ensures InPathOrder(Diffs(at, e, a, shapeOnly))
    decreases e, 1, 0
  {
    if KindOf(e) == KindOf(a) && !IsPlain(e) {
      var steps := Steps(e, a, shapeOnly);
      StepsAscend(e, a, shapeOnly);
      forall i | 0 <= i < |steps| ensures IsCompared(e, a, steps[i], shapeOnly) {
        StepsAreCompared(e, a, steps[i], shapeOnly);
      }
      DiffsAlongAreInOrder(at, e, a, steps, shapeOnly);
    }
  }

  lemma {:induction false} DiffsAlongAreInOrder(at: seq<Step>, e: Json, a: Json, steps: seq<Step>, shapeOnly: bool)
    requires KindOf(e) == KindOf(a) && Ascends(steps)
    requires forall i :: 0 <= i < |steps| ==> IsCompared(e, a, steps[i], shapeOnly)
    ensures InPathOrder(DiffsAlong(at, e, a, steps, shapeOnly))
    decreases e, 0, |steps|
  {
    if steps != [] {
      var x, y := Child(e, steps[0]), Child(a, steps[0]);
      if x.Some? && y.Some? {
        DiffsAreInOrder(at + [steps[0]], x.value, y.value, shapeOnly);
      }
      var first, more := DiffsAt(at, e, a, steps[0], shapeOnly), DiffsAlong(at, e, a, steps[1..], shapeOnly);
      DiffsAlongAreInOrder(at, e, a, steps[1..], shapeOnly);
      forall s, t | s in first && t in more ensures PlaceBelow(s.at, t.at) {
        DiffsAtAreExact(at, e, a, s, steps[0], shapeOnly);
        DiffsAlongAreExact(at, e, a, t, steps[1..], shapeOnly);
        assert StepBelow(s.at[|at|], t.at[|at|]);
      }
      OrderJoins(first, more);
    }
  }

  lemma OrderJoins(a: seq<Spot>, b: seq<Spot>)
    requires InPathOrder(a) && InPathOrder(b) && forall s, t :: s in a && t in b ==> PlaceBelow(s.at, t.at)
    ensures InPathOrder(a + b)
  {
    forall i, j | 0 <= i < j < |a + b| ensures PlaceBelow((a + b)[i].at, (a + b)[j].at) {
      if j < |a| {
        assert (a + b)[i] == a[i] && (a + b)[j] == a[j];
      } else if i < |a| {
        assert a[i] in a && b[j - |a|] in b;
      } else {
        assert PlaceBelow(b[i - |a|].at, b[j - |a|].at);
      }
    }
  }

  lemma NoPlaceTwice(at: seq<Step>, e: Json, a: Json, shapeOnly: bool, i: nat, j: nat)
    requires i < j < |Diffs(at, e, a, shapeOnly)|
    ensures Diffs(at, e, a, shapeOnly)[i].at != Diffs(at, e, a, shapeOnly)[j].at
  {
    var diffs := Diffs(at, e, a, shapeOnly);
    DiffsAreInOrder(at, e, a, shapeOnly);
    var s, t := diffs[i].at, diffs[j].at;
    assert PlaceBelow(s, t);
    var k :| 0 <= k < |s| && k < |t| && s[..k] == t[..k] && StepBelow(s[k], t[k]);
    if s[k].Member? {
      BelowIsTotal(s[k].name, s[k].name);
    }
  }

  // What is shown: the first differences, with long texts cut and documents left out.

  const SHOWN_DIFFERENCE: nat := 50
  const SHOWN_VALUE: nat := 120
  const ROOT_PATH := "$"

  datatype Shown = Shown(path: string, change: Change, expected: Json, actual: Json)

  function Clipped(clean: string -> string, j: Json): Json {
    match j
    case String(text) =>
      var cleaned := clean(text);
      if |cleaned| > SHOWN_VALUE then String(cleaned[..SHOWN_VALUE] + "...") else String(cleaned)
    case Object(_) => Null
    case Array(_) => Null
    case _ => j
  }

  function Digits(n: nat): (s: string)
    ensures s != "" && (forall i :: 0 <= i < |s| ==> IsDigit(s[i])) && Decimal(s) == n
  {
    var last := ['0' + (n % 10) as char];
    if n < 10 then last
    else
      var more := Digits(n / 10);
      assert (more + last)[..|more|] == more;
      more + last
  }

  function StepText(step: Step): string {
    match step
    case Member(name) => "." + name
    case Item(index) => "[" + Digits(index) + "]"
  }

  function PathText(at: seq<Step>): string {
    if at == [] then ROOT_PATH else PathText(at[..|at| - 1]) + StepText(at[|at| - 1])
  }

  lemma PathGrows(at: seq<Step>, step: Step)
    ensures PathText(at + [step]) == PathText(at) + StepText(step)
  {
    assert (at + [step])[..|at|] == at;
  }

  function ShownSpot(clean: string -> string, spot: Spot): Shown {
    Shown(PathText(spot.at), spot.part.change, Clipped(clean, spot.part.expected), Clipped(clean, spot.part.actual))
  }

  function ShownSpots(clean: string -> string, spots: seq<Spot>): seq<Shown> {
    var count := if |spots| < SHOWN_DIFFERENCE then |spots| else SHOWN_DIFFERENCE;
    seq(count, i requires 0 <= i < count => ShownSpot(clean, spots[i]))
  }

  class Differ {
    const shapeOnly: bool
    const clean: string -> string
    var found: seq<Shown>
    var more: nat
    ghost var noted: seq<Spot>

    ghost predicate Valid()
      reads this
    {
      found == ShownSpots(clean, noted) && |found| + more == |noted|
    }

    constructor (shapeOnly: bool, clean: string -> string)
      ensures Valid() && noted == [] && this.shapeOnly == shapeOnly && this.clean == clean
    {
      this.shapeOnly, this.clean := shapeOnly, clean;
      found, more, noted := [], 0, [];
    }

    method Note(path: string, change: Change, expected: Json, actual: Json, ghost at: seq<Step>)
      requires Valid() && path == PathText(at)
      modifies this
      ensures Valid() && noted == old(noted) + [Spot(at, Part(change, expected, actual))]
    {
      noted := noted + [Spot(at, Part(change, expected, actual))];
      if |found| >= SHOWN_DIFFERENCE {
        more := more + 1;
      } else {
        found := found + [Shown(path, change, Clipped(clean, expected), Clipped(clean, actual))];
      }
    }

    method Compare(path: string, expected: Json, actual: Json, ghost at: seq<Step>)
      requires Valid() && path == PathText(at)
      modifies this
      ensures Valid() && noted == old(noted) + Diffs(at, expected, actual, shapeOnly)
      decreases expected, 2
    {
      if KindOf(expected) != KindOf(actual) {
        Note(path, OtherType, String(KindName(KindOf(expected))), String(KindName(KindOf(actual))), at);
        return;
      }
      if expected.Object? {
        Objects(path, expected, actual, at);
      } else if expected.Array? {
        Arrays(path, expected, actual, at);
      } else if !shapeOnly && expected != actual {
        Note(path, OtherValue, expected, actual, at);
      }
    }

    method Bodies(expected: string, actual: string, decode: string -> Option<Json>)
      requires Valid() && noted == []
      modifies this
      ensures Valid() && noted == BodyDiffs(expected, actual, decode, shapeOnly)
    {
      var wanted, got := decode(expected), decode(actual);
      if wanted.Some? && got.Some? {
        Compare(ROOT_PATH, wanted.value, got.value, []);
      } else {
        Texts(expected, actual, TrimSpace(expected) == TrimSpace(actual), wanted.Some?, got.Some?);
      }
    }

    /** Two bodies that are not both documents. */
    method Texts(expected: string, actual: string, sameText: bool, wanted: bool, got: bool)
      requires Valid()
      modifies this
      ensures Valid() && noted == old(noted) + TextDiffs(expected, actual, sameText, wanted, got, shapeOnly)
    {
      if !shapeOnly && !sameText {
        Note(ROOT_PATH, OtherText, String(expected), String(actual), []);
      } else if shapeOnly && wanted != got {
        Note(ROOT_PATH, OtherType, String(BodyKind(wanted)), String(BodyKind(got)), []);
      }
    }

    /** One name or one index, in either document or in both. */
    method CompareAt(path: string, expected: Json, actual: Json, step: Step, ghost at: seq<Step>)
      requires Valid() && path == PathText(at)
      modifies this
      ensures Valid() && noted == old(noted) + DiffsAt(at, expected, actual, step, shapeOnly)
      decreases expected, 0
    {
      var part := path + StepText(step);
      PathGrows(at, step);
      match (Child(expected, step), Child(actual, step))
      case (Some(wanted), None) => Note(part, Missing, wanted, Null, at + [step]);
      case (None, Some(got)) => Note(part, Unexpected, Null, got, at + [step]);
      case (Some(wanted), Some(got)) => Compare(part, wanted, got, at + [step]);
      case (None, None) =>
    }

    method Objects(path: string, expected: Json, actual: Json, ghost at: seq<Step>)
      requires Valid() && path == PathText(at) && expected.Object? && actual.Object?
      modifies this
      ensures Valid() && noted == old(noted) + Diffs(at, expected, actual, shapeOnly)
      decreases expected, 1
    {
      var names := NamesInEither(expected.members.Keys, actual.members.Keys);
      ghost var steps := Steps(expected, actual, shapeOnly);
      for i := 0 to |names|
        invariant Valid()
        invariant noted + DiffsAlong(at, expected, actual, steps[i..], shapeOnly)
               == old(noted) + Diffs(at, expected, actual, shapeOnly)
      {
        ghost var before := noted;
        CompareAt(path, expected, actual, Member(names[i]), at);
        AlongUnfolds(before, at, expected, actual, steps, i, shapeOnly);
      }
    }

    method Arrays(path: string, expected: Json, actual: Json, ghost at: seq<Step>)
      requires Valid() && path == PathText(at) && expected.Array? && actual.Array?
      modifies this
      ensures Valid() && noted == old(noted) + Diffs(at, expected, actual, shapeOnly)
      decreases expected, 1
    {
      ghost var steps := Steps(expected, actual, shapeOnly);
      if shapeOnly {
        if |expected.items| > 0 && |actual.items| > 0 {
          CompareAt(path, expected, actual, Item(0), at);
          AlongUnfolds(old(noted), at, expected, actual, steps, 0, shapeOnly);
        }
        return;
      }
      for i := 0 to Max(|expected.items|, |actual.items|)
        invariant Valid()
        invariant noted + DiffsAlong(at, expected, actual, steps[i..], shapeOnly)
               == old(noted) + Diffs(at, expected, actual, shapeOnly)
      {
        ghost var before := noted;
        CompareAt(path, expected, actual, Item(i), at);
        AlongUnfolds(before, at, expected, actual, steps, i, shapeOnly);
      }
    }
  }

  lemma AlongUnfolds(before: seq<Spot>, at: seq<Step>, e: Json, a: Json, steps: seq<Step>, i: nat, shapeOnly: bool)
    requires i < |steps|
    ensures before + DiffsAlong(at, e, a, steps[i..], shapeOnly)
         == before + DiffsAt(at, e, a, steps[i], shapeOnly) + DiffsAlong(at, e, a, steps[i + 1..], shapeOnly)
  {
    assert steps[i..][1..] == steps[i + 1..];
  }

  method Listed(names: set<string>) returns (s: seq<string>)
    ensures multiset(s) == multiset(names)
  {
    s := [];
    var left := names;
    while left != {}
      invariant left <= names && multiset(s) + multiset(left) == multiset(names)
      decreases |left|
    {
      var name :| name in left;
      SetWithout(left, name);
      s, left := s + [name], left - {name};
    }
  }

  /** The names of both documents, each once, sorted. */
  method NamesInEither(expected: set<string>, actual: set<string>) returns (names: seq<string>)
    ensures names == SortedNames(expected + actual)
  {
    var first := Listed(expected);
    var more := Listed(actual - expected);
    assert multiset(first + more) == multiset(expected) + multiset(actual - expected) == multiset(expected + actual);
    names := Sorted(Below, first + more);
    StringsAreLinear();
    SortedSorts(Below, first + more);
    SortingIsUnique(Below, names, SortedNames(expected + actual));
  }

  // Bodies, which may not be JSON, and whole responses.

  /** `decode` is the JSON decoder: None for a text that is not one document. */
  ghost function BodyDiffs(expected: string, actual: string, decode: string -> Option<Json>, shapeOnly: bool): seq<Spot> {
    var wanted, got := decode(expected), decode(actual);
    if wanted.Some? && got.Some? then Diffs([], wanted.value, got.value, shapeOnly)
    else TextDiffs(expected, actual, TrimSpace(expected) == TrimSpace(actual), wanted.Some?, got.Some?, shapeOnly)
  }

  /** The differences of two bodies that are not both documents. */
  function TextDiffs(expected: string, actual: string, sameText: bool, wanted: bool, got: bool, shapeOnly: bool): seq<Spot> {
    if !shapeOnly then (if sameText then [] else [Spot([], Part(OtherText, String(expected), String(actual)))])
    else if wanted != got then [Spot([], Part(OtherType, String(BodyKind(wanted)), String(BodyKind(got))))]
    else []
  }

  function BodyKind(isJson: bool): string {
    if isJson then "json" else "text"
  }

  method CompareBodies(expected: string, actual: string, decode: string -> Option<Json>, shapeOnly: bool, clean: string -> string)
      returns (found: seq<Shown>, more: nat)
    ensures found == ShownSpots(clean, BodyDiffs(expected, actual, decode, shapeOnly))
    ensures |found| + more == |BodyDiffs(expected, actual, decode, shapeOnly)|
  {
    var differ := new Differ(shapeOnly, clean);
    differ.Bodies(expected, actual, decode);
    found, more := differ.found, differ.more;
  }

  /** What a match of two bodies means. */
  ghost predicate BodiesAgree(expected: string, actual: string, decode: string -> Option<Json>, shapeOnly: bool) {
    match (decode(expected), decode(actual))
    case (Some(wanted), Some(got)) => if shapeOnly then SameShape(wanted, got) else wanted == got
    case (None, None) => shapeOnly || TrimSpace(expected) == TrimSpace(actual)
    case _ => !shapeOnly && TrimSpace(expected) == TrimSpace(actual)
  }

  lemma NoBodyDiffsWhenAgreeing(expected: string, actual: string, decode: string -> Option<Json>, shapeOnly: bool)
    ensures BodyDiffs(expected, actual, decode, shapeOnly) == [] <==> BodiesAgree(expected, actual, decode, shapeOnly)
  {
    var wanted, got := decode(expected), decode(actual);
    if wanted.Some? && got.Some? {
      if shapeOnly {
        NoDiffsWhenSameShape([], wanted.value, got.value);
      } else {
        NoDiffsWhenEqual([], wanted.value, got.value);
      }
    }
  }

  const ENCODING_BASE64 := "base64"

  datatype Example = Example(status: int, body: string, bodyEncoding: string, contentType: string)

  datatype Response = Response(statusCode: int, body: string, bodyEncoding: string, contentType: string)

  datatype Comparison = Comparison(statusMatches: bool, contentTypeMatches: bool, bodyMatches: bool, matches: bool,
    differences: seq<Shown>, moreDifferences: nat)

  /** `mediaType` reads the type out of a content type. */
  method CompareWith(example: Example, response: Response, shapeOnly: bool, decode: string -> Option<Json>,
                     mediaType: string -> string, clean: string -> string) returns (result: Comparison)
    ensures result.bodyMatches <==>
              if example.bodyEncoding != ENCODING_BASE64 && response.bodyEncoding != ENCODING_BASE64
              then BodiesAgree(example.body, response.body, decode, shapeOnly)
              else example.body == response.body
    ensures result.statusMatches <==> example.status == 0 || example.status == response.statusCode
    ensures result.contentTypeMatches <==>
              example.contentType == "" || mediaType(example.contentType) == mediaType(response.contentType)
    ensures result.matches <==> result.statusMatches && result.contentTypeMatches && result.bodyMatches
    ensures example.bodyEncoding != ENCODING_BASE64 && response.bodyEncoding != ENCODING_BASE64 ==>
              var diffs := BodyDiffs(example.body, response.body, decode, shapeOnly);
              result.differences == ShownSpots(clean, diffs) && |result.differences| + result.moreDifferences == |diffs|
  {
    var differences, more := [], 0;
    if example.bodyEncoding != ENCODING_BASE64 && response.bodyEncoding != ENCODING_BASE64 {
      differences, more := CompareBodies(example.body, response.body, decode, shapeOnly, clean);
      NoBodyDiffsWhenAgreeing(example.body, response.body, decode, shapeOnly);
    } else if example.body != response.body {
      differences := [Shown(ROOT_PATH, OtherValue, Null, Null)];
    }
    var statusMatches := example.status == 0 || example.status == response.statusCode;
    var contentTypeMatches := example.contentType == "" || mediaType(example.contentType) == mediaType(response.contentType);
    var bodyMatches := |differences| == 0;
    result := Comparison(statusMatches, contentTypeMatches, bodyMatches,
                         statusMatches && contentTypeMatches && bodyMatches, differences, more);
  }
}
