/** The list of captured exchanges of `capture/journal.go`. */
module Journal {
  const JOURNAL_LIMIT: nat := 500
  const JOURNAL_BYTES: nat := 134217728

  datatype Exchange = Exchange(id: nat, requestBody: string, responseBody: string)

  function WeightOf(e: Exchange): nat {
    |e.requestBody| + |e.responseBody|
  }

  function Weight(s: seq<Exchange>): nat {
    if s == [] then 0 else WeightOf(s[0]) + Weight(s[1..])
  }

  lemma {:induction false} WeightAppends(s: seq<Exchange>, e: Exchange)
    ensures Weight(s + [e]) == Weight(s) + WeightOf(e)
  {
    if s == [] {
      assert s + [e] == [e] && [e][1..] == [];
    } else {
      assert (s + [e])[1..] == s[1..] + [e];
      WeightAppends(s[1..], e);
    }
  }

  /** What the journal may hold. */
  predicate Fits(s: seq<Exchange>) {
    |s| <= JOURNAL_LIMIT && (Weight(s) <= JOURNAL_BYTES || |s| <= 1)
  }

  /** `from` starts the longest end of `history` that fits. */
  ghost predicate IsStart(history: seq<Exchange>, from: nat) {
    && from <= |history| && Fits(history[from..])
    && forall k :: 0 <= k < from ==> !Fits(history[k..])
  }

  ghost predicate IsEnd(history: seq<Exchange>, end: seq<Exchange>) {
    |end| <= |history| && end == history[|history| - |end|..]
  }

  /** The longest end of a history that fits, as a set with exactly one list. */
  ghost function Kept(history: seq<Exchange>): iset<seq<Exchange>> {
    iset kept: seq<Exchange> | IsEnd(history, kept) && IsStart(history, |history| - |kept|)
  }

  /** The ends of a history at least that long. */
  ghost function Ends(history: seq<Exchange>): iset<seq<Exchange>> {
    iset end: seq<Exchange> | IsEnd(history, end) && forall k :: 0 <= k < |history| - |end| ==> !Fits(history[k..])
  }

  lemma StartIsUnique(history: seq<Exchange>, a: nat, b: nat)
    requires IsStart(history, a) && IsStart(history, b)
    ensures a == b
  {
  }

  lemma KeptIsUnique(history: seq<Exchange>, a: seq<Exchange>, b: seq<Exchange>)
    requires a in Kept(history) && b in Kept(history)
    ensures a == b
  {
    StartIsUnique(history, |history| - |a|, |history| - |b|);
  }

  /** An end that is too much stays too much, so the start never moves back. */
  lemma TooMuchStays(history: seq<Exchange>, e: Exchange, k: nat)
    requires k < |history| && !Fits(history[k..])
    ensures !Fits((history + [e])[k..])
  {
    assert (history + [e])[k..] == history[k..] + [e];
    WeightAppends(history[k..], e);
  }

  lemma KeptGrows(history: seq<Exchange>, kept: seq<Exchange>, e: Exchange)
    requires kept in Kept(history)
    ensures kept + [e] in Ends(history + [e])
  {
    var from := |history| - |kept|;
    assert (history + [e])[from..] == history[from..] + [e];
    forall k | 0 <= k < from ensures !Fits((history + [e])[k..]) {
      TooMuchStays(history, e, k);
    }
  }

  lemma EndShrinks(history: seq<Exchange>, end: seq<Exchange>)
    requires end in Ends(history) && !Fits(end) && end != []
    ensures end[1..] in Ends(history)
  {
    assert end[1..] == history[|history| - |end| + 1..];
  }

  lemma EndIsKept(history: seq<Exchange>, end: seq<Exchange>)
    requires end in Ends(history) && Fits(end)
    ensures end in Kept(history)
  {
  }

  /** The newest exchange always fits. */
  lemma NewestIsKept(history: seq<Exchange>, kept: seq<Exchange>)
    requires history != [] && kept in Kept(history)
    ensures kept != [] && kept[|kept| - 1] == history[|history| - 1]
  {
    assert |history[|history| - 1..]| == 1;
    assert Fits(history[|history| - 1..]);
  }

  /** Everything is kept until it is too much, and then only because one more would be too much. */
  lemma AllIsKeptExactlyWhenItFits(history: seq<Exchange>, from: nat)
    requires IsStart(history, from)
    ensures from == 0 <==> Fits(history)
  {
    assert history[0..] == history;
  }

  ghost predicate IdsAscend(s: seq<Exchange>, last: nat) {
    && (forall i, j :: 0 <= i < j < |s| ==> s[i].id < s[j].id)
    && (forall i :: 0 <= i < |s| ==> 1 <= s[i].id <= last)
  }

  /** The lists with strictly ascending ids up to `last`. */
  ghost function Numbered(last: nat): iset<seq<Exchange>> {
    iset s: seq<Exchange> | IdsAscend(s, last)
  }

  lemma IdsAscendOn(s: seq<Exchange>, last: nat, e: Exchange)
    requires s in Numbered(last) && e.id > last
    ensures s + [e] in Numbered(e.id)
  {
  }

  lemma IdsAscendBefore(s: seq<Exchange>, last: nat)
    requires s != [] && s in Numbered(last)
    ensures s[|s| - 1].id <= last && s[..|s| - 1] in Numbered(s[|s| - 1].id - 1)
  {
  }

  lemma IdsAscendUpTo(s: seq<Exchange>, low: nat, high: nat)
    requires s in Numbered(low) && low <= high
    ensures s in Numbered(high)
  {
  }

  class Journal {
    var exchanges: seq<Exchange>
    var held: nat
    var lastId: nat
    /** Everything ever added, and everything added since the last clear. */
    ghost var added: seq<Exchange>
    ghost var history: seq<Exchange>

    ghost predicate Valid()
      reads this
    {
      && exchanges in Kept(history)
      && held == Weight(exchanges)
      && added in Numbered(lastId)
    }

    constructor ()
      ensures Valid() && added == [] && history == [] && lastId == 0
    {
      exchanges, held, lastId := [], 0, 0;
      added, history := [], [];
    }

    method Trim()
      requires exchanges in Ends(history) && held == Weight(exchanges)
      modifies this`exchanges, this`held
      ensures exchanges in Kept(history) && held == Weight(exchanges)
    {
      var excess := 0;
      assert exchanges[0..] == exchanges;
      while |exchanges| - excess > JOURNAL_LIMIT || (held > JOURNAL_BYTES && |exchanges| - excess > 1)
        invariant 0 <= excess <= |exchanges|
        invariant exchanges[excess..] in Ends(history) && held == Weight(exchanges[excess..])
        decreases |exchanges| - excess
      {
        assert exchanges[excess..][1..] == exchanges[excess + 1..];
        EndShrinks(history, exchanges[excess..]);
        held := held - WeightOf(exchanges[excess]);
        excess := excess + 1;
      }
      EndIsKept(history, exchanges[excess..]);
      if excess > 0 {
        exchanges := exchanges[excess..];
      }
    }

    method Add(exchange: Exchange) returns (kept: Exchange)
      requires Valid()
      modifies this
      ensures Valid() && kept == exchange.(id := lastId) && lastId == old(lastId) + 1
      ensures added == old(added) + [kept] && history == old(history) + [kept]
      ensures exchanges != [] && exchanges[|exchanges| - 1] == kept
    {
      lastId := lastId + 1;
      kept := exchange.(id := lastId);
      IdsAscendOn(added, lastId - 1, kept);
      KeptGrows(history, exchanges, kept);
      WeightAppends(exchanges, kept);
      added, history := added + [kept], history + [kept];
      exchanges := exchanges + [kept];
      held := held + WeightOf(kept);
      Trim();
      NewestIsKept(history, exchanges);
    }

    method Clear()
      requires Valid()
      modifies this
      ensures Valid() && exchanges == [] && held == 0 && history == []
      ensures added == old(added) && lastId == old(lastId)
    {
      exchanges, held, history := [], 0, [];
    }

    method Find(ids: seq<int>) returns (found: seq<Exchange>)
      requires Valid()
      ensures found == Chosen(exchanges, ids)
    {
      found := [];
      for i := 0 to |exchanges|
        invariant found == Chosen(exchanges[..i], ids)
      {
        assert exchanges[..i + 1][..i] == exchanges[..i];
        if exchanges[i].id in ids {
          found := found + [exchanges[i]];
        }
      }
      assert exchanges[..|exchanges|] == exchanges;
    }
  }

  function Chosen(s: seq<Exchange>, ids: seq<int>): seq<Exchange> {
    if s == [] then []
    else Chosen(s[..|s| - 1], ids) + if s[|s| - 1].id in ids then [s[|s| - 1]] else []
  }

  /** Every wanted exchange that is kept is found, and nothing else is. */
  lemma {:induction false} FindIsExact(s: seq<Exchange>, ids: seq<int>, e: Exchange)
    ensures e in Chosen(s, ids) <==> e in s && e.id in ids
  {
    if s != [] {
      var init := s[..|s| - 1];
      assert s == init + [s[|s| - 1]];
      FindIsExact(init, ids, e);
    }
  }

  /** Found exchanges keep their order, and each comes once. */
  lemma {:induction false} FindKeepsOrder(s: seq<Exchange>, ids: seq<int>, last: nat)
    requires s in Numbered(last)
    ensures Chosen(s, ids) in Numbered(last)
  {
    if s != [] {
      var init, e := s[..|s| - 1], s[|s| - 1];
      IdsAscendBefore(s, last);
      FindKeepsOrder(init, ids, e.id - 1);
      IdsAscendOn(Chosen(init, ids), e.id - 1, e);
      IdsAscendUpTo(Chosen(init, ids), e.id - 1, last);
      IdsAscendUpTo(Chosen(init, ids) + [e], e.id, last);
    }
  }
}
