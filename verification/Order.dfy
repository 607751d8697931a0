/** The order names are given in, on IRIs as the protocol reads them, and a set of them listed in it. */
module Order {
  import opened Iris
  import opened Text
  import Names

  /** The place of an artifact, as its IRI's host and segments give it. */
  function Steps(i: Iri): (steps: seq<string>)
  {
    [i.host] + i.within + [i.last + Names.FILE]
  }

  predicate Precedes(a: Iri, b: Iri)
  {
    StepsLess(Steps(a), Steps(b))
  }

  lemma StepsAreTheirOwn(a: Iri, b: Iri)
    requires Steps(a) == Steps(b)
    ensures a == b
  {
    assert a.host == Steps(a)[0] == Steps(b)[0] == b.host;
    assert a.within == Steps(a)[1..|Steps(a)| - 1] == Steps(b)[1..|Steps(b)| - 1] == b.within;
    assert a.last + Names.FILE == Steps(a)[|Steps(a)| - 1] == b.last + Names.FILE;
    assert a.last == (a.last + Names.FILE)[..|a.last + Names.FILE| - |Names.FILE|];
    assert b.last == (b.last + Names.FILE)[..|b.last + Names.FILE| - |Names.FILE|];
  }

  /** The steps of an IRI read as host and segments are the place of its text, so the two orders are one. */
  lemma OrderOfTheTexts(text: string)
    requires Names.IsIri(text)
    ensures Steps(Names.Parsed(text)) == Names.Place(text, None)
  {
    var parts := Names.SplitIri(text);
    assert parts[|parts| - 1] + "" == parts[|parts| - 1];
  }

  lemma PrecedesIsAStrictTotalOrder(a: Iri, b: Iri, c: Iri)
    ensures !Precedes(a, a)
    ensures Precedes(a, b) && Precedes(b, c) ==> Precedes(a, c)
    ensures Precedes(a, b) || a == b || Precedes(b, a)
    ensures !(Precedes(a, b) && Precedes(b, a))
  {
    StepsLessIsStrict(Steps(a), Steps(b), Steps(c));
    if Steps(a) == Steps(b) {
      StepsAreTheirOwn(a, b);
    }
  }

  /** A set that is not empty has a name before all its others. */
  lemma {:induction false} AFirst(names: set<Iri>) returns (first: Iri)
    requires names != {}
    ensures first in names && forall n :: n in names && n != first ==> Precedes(first, n)
  {
    var some :| some in names;
    if names == {some} {
      first := some;
    } else {
      var rest := names - {some};
      assert names == rest + {some};
      var other := AFirst(rest);
      PrecedesIsAStrictTotalOrder(some, other, some);
      first := if Precedes(some, other) then some else other;
      forall n | n in names && n != first
        ensures Precedes(first, n)
      {
        PrecedesIsAStrictTotalOrder(some, other, n);
      }
    }
  }

  /** A set of names in their order. */
  ghost function Sorted(names: set<Iri>): (sorted: seq<Iri>)
    ensures forall n :: n in sorted <==> n in names
    ensures forall j, k :: 0 <= j < k < |sorted| ==> Precedes(sorted[j], sorted[k])
  {
    if names == {} then []
    else
      assert exists first :: first in names && forall n :: n in names && n != first ==> Precedes(first, n) by {
        var first := AFirst(names);
      }
      var first :| first in names && forall n :: n in names && n != first ==> Precedes(first, n);
      [first] + Sorted(names - {first})
  }

  /** Concatenates the lists a map gives for a sequence of IRIs. */
  ghost function Listed<T>(names: seq<Iri>, lists: map<Iri, seq<T>>): (all: seq<T>)
  {
    if names == [] then []
    else (if names[0] in lists then lists[names[0]] else []) + Listed(names[1..], lists)
  }

  lemma {:induction false} ListedHolds<T>(names: seq<Iri>, lists: map<Iri, seq<T>>)
    ensures forall t :: t in Listed(names, lists) <==> exists n :: n in names && n in lists && t in lists[n]
  {
    if names != [] {
      ListedHolds(names[1..], lists);
      assert forall n :: n in names <==> n == names[0] || n in names[1..];
    }
  }

  /** Names whose lists are empty may be left out. */
  lemma {:induction false} ListedAlike<T>(names: seq<Iri>, lists: map<Iri, seq<T>>, other: map<Iri, seq<T>>)
    requires forall n :: n in names ==>
      (if n in lists then lists[n] else []) == (if n in other then other[n] else [])
    ensures Listed(names, lists) == Listed(names, other)
  {
    if names != [] {
      ListedAlike(names[1..], lists, other);
    }
  }
}
