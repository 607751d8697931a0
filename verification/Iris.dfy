/** IRIs as the protocol reads them: a host and one or more segments, and the IRIs each sits under. */
module Iris {

  datatype Option<+T> = None | Some(value: T)

  /** An IRI: its host, the segments before its last, and its last segment, so there is always one. */
  datatype Iri = Iri(host: string, within: seq<string>, last: string) {

    function Segments(): (s: seq<string>)
    {
      within + [last]
    }
  }

  /** The IRI an IRI sits directly under; none for one of a single segment. */
  function Parent(i: Iri): (p: Option<Iri>)
  {
    if i.within == [] then None
    else Some(Iri(i.host, i.within[..|i.within| - 1], i.within[|i.within| - 1]))
  }

  /** Parent, parent's parent and so on, up to the IRI of one segment. */
  function Above(i: Iri): (above: seq<Iri>)
    decreases |i.within|
  {
    match Parent(i)
    case None => []
    case Some(p) => [p] + Above(p)
  }

  /** What `Above` lists, said by segments: the runs of an IRI's segments from the first that leave one or more out,
      longest first, each at the same host. */
  lemma {:induction false} AboveAreTheProperPrefixes(i: Iri)
    ensures |Above(i)| == |i.within|
    ensures forall k :: 0 <= k < |Above(i)| ==>
      Above(i)[k].host == i.host && Above(i)[k].Segments() == i.Segments()[..|i.within| - k]
    decreases |i.within|
  {
    if i.within != [] {
      var p := Parent(i).value;
      AboveAreTheProperPrefixes(p);
      forall k | 0 <= k < |Above(i)|
        ensures Above(i)[k].host == i.host && Above(i)[k].Segments() == i.Segments()[..|i.within| - k]
      {
        if k > 0 {
          assert Above(i)[k] == Above(p)[k - 1];
        }
      }
    }
  }

  /** An IRI above another has above it exactly what the other has above it further up. */
  lemma {:induction false} AboveIsAChain(i: Iri, k: nat)
    requires k < |Above(i)|
    ensures Above(i)[k + 1..] == Above(Above(i)[k])
    ensures |Above(i)[k].within| < |i.within|
    decreases |i.within|
  {
    var p := Parent(i).value;
    if k > 0 {
      AboveIsAChain(p, k - 1);
      assert Above(i)[k] == Above(p)[k - 1];
      assert Above(i)[k + 1..] == Above(p)[k..];
    }
  }

  /** No IRI sits under itself, and none is met twice going up. */
  lemma AboveAreDistinct(i: Iri)
    ensures i !in Above(i)
    ensures forall j, k :: 0 <= j < k < |Above(i)| ==> Above(i)[j] != Above(i)[k]
  {
    AboveAreTheProperPrefixes(i);
    forall j, k | 0 <= j < k < |Above(i)|
      ensures Above(i)[j] != Above(i)[k]
    {
      assert |Above(i)[j].Segments()| != |Above(i)[k].Segments()|;
    }
    forall k | 0 <= k < |Above(i)|
      ensures Above(i)[k] != i
    {
      assert |Above(i)[k].Segments()| != |i.Segments()|;
    }
  }

  /** What `Above` lists before a given IRI; [] when it does not list that. */
  function Between(i: Iri, t: Iri): (between: seq<Iri>)
    decreases |i.within|
  {
    if t !in Above(i) then []
    else
      var p := Parent(i).value;
      if p == t then [] else [p] + Between(p, t)
  }

  /** They are the run of what an IRI sits under up to the given one. */
  lemma {:induction false} BetweenIsARunOfAbove(i: Iri, k: nat)
    requires k < |Above(i)|
    ensures Between(i, Above(i)[k]) == Above(i)[..k]
    decreases k
  {
    AboveAreDistinct(i);
    var p := Parent(i).value;
    if k > 0 {
      assert Above(i)[0] == p && Above(i)[k] == Above(p)[k - 1];
      BetweenIsARunOfAbove(p, k - 1);
      assert Above(i)[..k] == [p] + Above(p)[..k - 1];
    }
  }
}
