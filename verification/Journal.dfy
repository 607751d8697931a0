/** The ids entries of the history are given: each the next free at its moment, made of the moment and a number. */
module Journal {
  import opened Iris
  import opened Text
  import opened Landing

  /** A moment, by the text an id begins with. */
  predicate Moment(at: string)
  {
    at != "" && '\n' !in at
  }

  /** A moment's text, a hyphen and a number. */
  function EntryId(at: string, number: nat): string
  {
    at + "-" + Digits(number)
  }

  /** Undoes `EntryId`: splits at the last hyphen; None unless digits follow it. */
  function IdParts(id: string): (parts: Option<(string, nat)>)
  {
    var pieces := Split(id, '-');
    var n := |pieces| - 1;
    if n == 0 || pieces[n] == "" || exists k :: 0 <= k < |pieces[n]| && !Digit(pieces[n][k]) then None
    else
      var at := Join(pieces[..n], '-');
      if Moment(at) then Some((at, Number(pieces[n]))) else None
  }

  /** Reading an id gives back what it was made of. */
  lemma IdPartsUndoEntryId(at: string, number: nat)
    requires Moment(at)
    ensures IdParts(EntryId(at, number)) == Some((at, number))
  {
    var digits := Digits(number);
    assert EntryId(at, number) == at + ['-'] + digits;
    assert '-' !in digits;
    SplitOfLast(at, digits, '-');
    var pieces := Split(EntryId(at, number), '-');
    assert pieces[..|pieces| - 1] == Split(at, '-');
    JoinUndoesSplit(at, '-');
    NumberUndoesDigits(number);
  }

  /** The maximum of `IdParts` numbers over the entries of one moment, or 0. */
  function LastSeq(entries: seq<Entry>, at: string): (last: nat)
  {
    if entries == [] then 0
    else
      var before := LastSeq(entries[..|entries| - 1], at);
      var e := entries[|entries| - 1];
      var parts := if e.at == at then IdParts(e.id) else None;
      if parts.Some? && parts.value.0 == at && parts.value.1 > before then parts.value.1 else before
  }

  lemma {:induction false} LastSeqIsLast(entries: seq<Entry>, at: string, e: Entry, number: nat)
    requires e in entries && e.at == at && Moment(at) && e.id == EntryId(at, number)
    ensures number <= LastSeq(entries, at)
  {
    var rest, last := entries[..|entries| - 1], entries[|entries| - 1];
    if e == last {
      IdPartsUndoEntryId(at, number);
    } else {
      assert e in rest;
      LastSeqIsLast(rest, at, e, number);
    }
  }

  /** How many moments before a place in a list are the moment there. */
  function Earlier(moments: seq<string>, k: nat): nat
    requires k < |moments|
  {
    multiset(moments[..k])[moments[k]]
  }

  /** The number a moment of a set is given there. */
  function SeqAt(entries: seq<Entry>, moments: seq<string>, k: nat): nat
    requires k < |moments|
  {
    LastSeq(entries, moments[k]) + 1 + Earlier(moments, k)
  }

  /** The entry a moment of a set is stamped with. */
  function Stamp(entries: seq<Entry>, moments: seq<string>, k: nat): Entry
    requires k < |moments|
  {
    Entry(EntryId(moments[k], SeqAt(entries, moments, k)), moments[k])
  }

  /** What counting up has reached, for each of the first moments. */
  ghost predicate CountedTo(entries: seq<Entry>, moments: seq<string>, n: nat, last: map<string, nat>)
    requires n <= |moments|
  {
    && (forall at :: at in last <==> at in moments[..n])
    && (forall at :: at in last ==> last[at] == LastSeq(entries, at) + multiset(moments[..n])[at])
  }

  lemma StartedCounting(entries: seq<Entry>, moments: seq<string>)
    ensures CountedTo(entries, moments, 0, map[])
  {
  }

  lemma OneMoreMoment(entries: seq<Entry>, moments: seq<string>, n: nat, last: map<string, nat>)
    requires n < |moments| && CountedTo(entries, moments, n, last)
    ensures var at := moments[n];
      var next := 1 + if at in last then last[at] else LastSeq(entries, at);
      && Stamp(entries, moments, n) == Entry(EntryId(at, next), at)
      && CountedTo(entries, moments, n + 1, last[at := next])
  {
    hide LastSeq, EntryId;
    var at := moments[n];
    assert moments[..n + 1] == moments[..n] + [at];
    assert at !in last ==> multiset(moments[..n])[at] == 0;
  }

  /** Counts up in `last` per moment, from the highest number taken there: entry `k` is `Stamp`'s. */
  method Minted(entries: seq<Entry>, moments: seq<string>) returns (stamps: seq<Entry>)
    ensures |stamps| == |moments|
    ensures forall k :: 0 <= k < |moments| ==> stamps[k] == Stamp(entries, moments, k)
  {
    hide EntryId, LastSeq, Stamp, CountedTo;
    StartedCounting(entries, moments);
    var last: map<string, nat> := map[];
    stamps := [];
    for n := 0 to |moments|
      invariant |stamps| == n
      invariant forall k :: 0 <= k < n ==> stamps[k] == Stamp(entries, moments, k)
      invariant CountedTo(entries, moments, n, last)
    {
      var at := moments[n];
      OneMoreMoment(entries, moments, n, last);
      last := last[at := 1 + if at in last then last[at] else LastSeq(entries, at)];
      stamps := stamps + [Entry(EntryId(at, last[at]), at)];
    }
  }

  /** Each entry of a history stamped as entries are. */
  ghost predicate Stamped(e: Entry)
  {
    Moment(e.at) && exists n: nat :: e.id == EntryId(e.at, n)
  }

  ghost predicate StampedAll(entries: seq<Entry>)
  {
    forall e :: e in entries ==> Stamped(e)
  }

  ghost predicate MintedFrom(entries: seq<Entry>, moments: seq<string>, stamps: seq<Entry>)
  {
    |stamps| == |moments| && forall k :: 0 <= k < |moments| ==>
      Moment(moments[k]) && stamps[k] == Stamp(entries, moments, k)
  }

  lemma EarlierRises(moments: seq<string>, j: nat, k: nat)
    requires j < k < |moments| && moments[j] == moments[k]
    ensures Earlier(moments, j) < Earlier(moments, k)
  {
    assert moments[..k] == moments[..j] + [moments[j]] + moments[j + 1..k];
    assert multiset(moments[..k]) == multiset(moments[..j]) + multiset{moments[j]} + multiset(moments[j + 1..k]);
  }

  /** An id is of one moment and one number. */
  lemma IdsAreTheirOwn(a: string, m: nat, b: string, n: nat)
    requires Moment(a) && Moment(b) && EntryId(a, m) == EntryId(b, n)
    ensures a == b && m == n
  {
    hide EntryId, IdParts;
    IdPartsUndoEntryId(a, m);
    IdPartsUndoEntryId(b, n);
  }

  lemma AMintedIdIsUnheld(entries: seq<Entry>, moments: seq<string>, k: nat, e: Entry)
    requires k < |moments| && Moment(moments[k]) && e in entries && Stamped(e)
    ensures Stamp(entries, moments, k).id != e.id
  {
    hide EntryId, LastSeq;
    if Stamp(entries, moments, k).id == e.id {
      var n: nat :| e.id == EntryId(e.at, n);
      IdsAreTheirOwn(moments[k], SeqAt(entries, moments, k), e.at, n);
      LastSeqIsLast(entries, e.at, e, n);
    }
  }

  lemma TwoMintedIdsDiffer(entries: seq<Entry>, moments: seq<string>, j: nat, k: nat)
    requires j < k < |moments| && Moment(moments[j]) && Moment(moments[k])
    ensures Stamp(entries, moments, j).id != Stamp(entries, moments, k).id
  {
    hide EntryId, LastSeq;
    if Stamp(entries, moments, j).id == Stamp(entries, moments, k).id {
      IdsAreTheirOwn(moments[j], SeqAt(entries, moments, j), moments[k], SeqAt(entries, moments, k));
      EarlierRises(moments, j, k);
    }
  }

  /** Ids minted are distinct from one another and from every id the history holds, at whatever moments. */
  lemma MintedIdsAreFree(s: Store, moments: seq<string>, stamps: seq<Entry>)
    requires StampedAll(s.entries) && MintedFrom(s.entries, moments, stamps)
    ensures !IdsTaken(s, stamps) && StampedAll(stamps)
  {
    hide EntryId, LastSeq;
    forall k | 0 <= k < |stamps|
      ensures stamps[k] == Stamp(s.entries, moments, k) && Moment(moments[k]) && Stamped(stamps[k])
    {
    }
    forall k, e | 0 <= k < |stamps| && e in s.entries
      ensures stamps[k].id != e.id
    {
      AMintedIdIsUnheld(s.entries, moments, k, e);
    }
    forall j, k | 0 <= j < k < |stamps|
      ensures stamps[j].id != stamps[k].id
    {
      TwoMintedIdsDiffer(s.entries, moments, j, k);
    }
  }

  // ---- over every run of landings

  ghost predicate IdsDistinct(entries: seq<Entry>)
  {
    forall j, k :: 0 <= j < k < |entries| ==> entries[j].id != entries[k].id
  }

  /** A landing keeps every entry's id its own, whatever ids it was handed: those taken refuse it. */
  lemma LandingKeepsIdsDistinct(s: Store, changes: seq<Change>, entries: seq<Entry>)
    requires IdsDistinct(s.entries) && Land(s, changes, entries).Landed?
    ensures IdsDistinct(Land(s, changes, entries).store.entries)
  {
    var all := s.entries + entries;
    WritingLeaves(s, changes);
    forall j, k | 0 <= j < k < |all|
      ensures all[j].id != all[k].id
    {
      if j < |s.entries| <= k {
        assert s.entries[j] in s.entries && entries[k - |s.entries|] == all[k];
      }
    }
  }
}
