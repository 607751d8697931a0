/** `LinksIn` computed as the source does: the store's links with the touched artifacts' filtered out, the pending
    artifacts' appended, and the whole sorted stably by source. Both ways give one list. */
module SourceOrder {
  import opened Iris
  import opened PortValues
  import opened Landing
  import opened Links
  import opened Draft
  import Order

  /** A list's links held by an artifact. */
  function From(links: seq<Linking>, i: Iri): (found: seq<Linking>)
  {
    if links == [] then []
    else (if links[0].source == i then [links[0]] else []) + From(links[1..], i)
  }

  ghost predicate InOrder(links: seq<Linking>)
  {
    forall j, k :: 0 <= j < k < |links| ==>
      links[j].source == links[k].source || Order.Precedes(links[j].source, links[k].source)
  }

  /** A list sorted by the names of the artifacts holding its links, each artifact's left in the order they were in. */
  ghost predicate BySource(sorted: seq<Linking>, found: seq<Linking>)
  {
    InOrder(sorted) && forall i :: From(sorted, i) == From(found, i)
  }

  lemma {:induction false} FromHolds(links: seq<Linking>, i: Iri)
    ensures From(links, i) != [] <==> exists k :: 0 <= k < |links| && links[k].source == i
    ensures forall each :: each in From(links, i) ==> each in links && each.source == i
  {
    if links != [] {
      FromHolds(links[1..], i);
      if k :| 0 <= k < |links[1..]| && links[1..][k].source == i {
        assert links[k + 1].source == i;
      }
      if k :| 0 <= k < |links| && links[k].source == i {
        assert k > 0 ==> links[1..][k - 1].source == i;
      }
    }
  }

  lemma FirstIsFirst(a: seq<Linking>, b: seq<Linking>)
    requires InOrder(a) && InOrder(b) && a != [] && forall i :: From(a, i) == From(b, i)
    ensures b != [] && a[0] == b[0]
  {
    var i := a[0].source;
    FromHolds(b, i);
    assert From(a, i) != [];
    var k := b[0].source;
    FromHolds(a, k);
    assert From(b, k) != [];
    if i != k {
      var m :| 0 <= m < |a| && a[m].source == k;
      var n :| 0 <= n < |b| && b[n].source == i;
      Order.PrecedesIsAStrictTotalOrder(i, k, i);
    }
    assert a[0] == From(a, i)[0] && b[0] == From(b, i)[0];
  }

  /** There is one such list. */
  lemma {:induction false} SortedBySourceOneWay(a: seq<Linking>, b: seq<Linking>, found: seq<Linking>)
    requires BySource(a, found) && BySource(b, found)
    ensures a == b
    decreases |a|
  {
    if a == [] {
      if b != [] {
        FirstIsFirst(b, a);
      }
    } else {
      FirstIsFirst(a, b);
      assert forall i :: From(a, i) == From(b, i);
      forall i
        ensures From(a[1..], i) == From(b[1..], i)
      {
        if i == a[0].source {
          assert From(a[1..], i) == From(a, i)[1..] && From(b[1..], i) == From(b, i)[1..];
        } else {
          assert From(a[1..], i) == From(a, i) && From(b[1..], i) == From(b, i);
        }
      }
      SortedBySourceOneWay(a[1..], b[1..], a[1..]);
    }
  }

  lemma {:induction false} FromBoth(a: seq<Linking>, b: seq<Linking>, i: Iri)
    ensures From(a + b, i) == From(a, i) + From(b, i)
  {
    if a == [] {
      assert a + b == b;
    } else {
      FromBoth(a[1..], b, i);
      assert (a + b)[1..] == a[1..] + b;
    }
  }

  lemma {:induction false} FromOwn(links: seq<Linking>, source: Iri, i: Iri)
    requires forall each :: each in links ==> each.source == source
    ensures From(links, i) == if i == source then links else []
  {
    if links != [] {
      FromOwn(links[1..], source, i);
      assert links == [links[0]] + links[1..];
    }
  }

  /** Lists by name, each of links of its name. */
  ghost predicate Owned(lists: map<Iri, seq<Linking>>)
  {
    forall n, each :: n in lists && each in lists[n] ==> each.source == n
  }

  lemma {:induction false} FromListed(names: seq<Iri>, lists: map<Iri, seq<Linking>>, i: Iri)
    requires Owned(lists) && forall j, k :: 0 <= j < k < |names| ==> names[j] != names[k]
    ensures From(Order.Listed(names, lists), i) == if i in names && i in lists then lists[i] else []
  {
    if names != [] {
      var own := if names[0] in lists then lists[names[0]] else [];
      FromListed(names[1..], lists, i);
      FromBoth(own, Order.Listed(names[1..], lists), i);
      FromOwn(own, names[0], i);
      assert i in names <==> i == names[0] || i in names[1..];
      assert i == names[0] ==> i !in names[1..];
    }
  }

  lemma {:induction false} ListedInOrder(names: seq<Iri>, lists: map<Iri, seq<Linking>>)
    requires Owned(lists) && forall j, k :: 0 <= j < k < |names| ==> Order.Precedes(names[j], names[k])
    ensures InOrder(Order.Listed(names, lists))
  {
    if names != [] {
      var own: seq<Linking> := if names[0] in lists then lists[names[0]] else [];
      var rest := Order.Listed(names[1..], lists);
      ListedInOrder(names[1..], lists);
      Order.ListedHolds(names[1..], lists);
      forall j, k | 0 <= j < k < |own + rest|
        ensures (own + rest)[j].source == (own + rest)[k].source
          || Order.Precedes((own + rest)[j].source, (own + rest)[k].source)
      {
        if j < |own| <= k {
          assert own[j] in own && rest[k - |own|] in rest;
          var n :| n in names[1..] && n in lists && rest[k - |own|] in lists[n];
        }
      }
    }
  }

  // ---- as the draft puts them together

  /** The links of a list that what the draft left alone holds. */
  function Outside(d: Overlay, links: seq<Linking>): (found: seq<Linking>)
  {
    if links == [] then []
    else (if Touched(d, links[0].source) then [] else [links[0]]) + Outside(d, links[1..])
  }

  /** The links of the artifacts the draft put, in the order it put them in. */
  function PutAll(d: Overlay, order: seq<Iri>): (found: seq<Linking>)
  {
    if order == [] then [] else PutLinks(d, order[0]) + PutAll(d, order[1..])
  }

  lemma {:induction false} FromOutside(d: Overlay, links: seq<Linking>, i: Iri)
    ensures From(Outside(d, links), i) == if Touched(d, i) then [] else From(links, i)
  {
    if links != [] {
      FromOutside(d, links[1..], i);
      FromBoth(if Touched(d, links[0].source) then [] else [links[0]], Outside(d, links[1..]), i);
    }
  }

  lemma {:induction false} IntoBoth(a: seq<Linking>, b: seq<Linking>, target: Iri)
    ensures Into(a + b, target) == Into(a, target) + Into(b, target)
  {
    if b == [] {
      assert a + b == a;
    } else {
      IntoBoth(a, b[..|b| - 1], target);
      assert (a + b)[..|a + b| - 1] == a + b[..|b| - 1];
    }
  }

  lemma {:induction false} FromPut(d: Overlay, order: seq<Iri>, target: Iri, i: Iri)
    requires forall j, k :: 0 <= j < k < |order| ==> order[j] != order[k]
    ensures From(Into(PutAll(d, order), target), i) == if i in order then Into(PutLinks(d, i), target) else []
  {
    if order != [] {
      FromPut(d, order[1..], target, i);
      var own := PutLinks(d, order[0]);
      IntoBoth(own, PutAll(d, order[1..]), target);
      FromBoth(Into(own, target), Into(PutAll(d, order[1..]), target), i);
      IntoHolds(own, target);
      FromOwn(Into(own, target), order[0], i);
      assert i in order <==> i == order[0] || i in order[1..];
    }
  }

  lemma IntoOwned(d: Overlay, target: Iri)
    ensures Owned(map i | i in HeldBy(d) :: Into(Carries(d, i), target))
    ensures Owned(map i | i in d.store.rows :: Into(StoredLinkings(i, d.store.rows[i].links), target))
  {
    forall i, each | each in Into(Carries(d, i), target)
      ensures each.source == i
    {
      IntoHolds(Carries(d, i), target);
      CarriesItsOwn(d, i);
    }
    forall i, each | i in d.store.rows && each in Into(StoredLinkings(i, d.store.rows[i].links), target)
      ensures each.source == i
    {
      IntoHolds(StoredLinkings(i, d.store.rows[i].links), target);
      StoredLinkingsHold(i, d.store.rows[i].links);
    }
  }

  /** Filtering, appending and stably sorting gives `LinksIn`, whatever order `pending` is gone through in. */
  lemma LinksInAreThoseFoundSorted(d: Overlay, order: seq<Iri>, target: Iri)
    requires forall j, k :: 0 <= j < k < |order| ==> order[j] != order[k]
    requires forall i :: i in order <==> i in d.pending
    ensures BySource(LinksIn(d, target), Outside(d, StoreLinksIn(d.store, target)) + Into(PutAll(d, order), target))
  {
    var carried := map i | i in HeldBy(d) :: Into(Carries(d, i), target);
    var stored := map i | i in d.store.rows :: Into(StoredLinkings(i, d.store.rows[i].links), target);
    var names, before := Order.Sorted(HeldBy(d).Keys), Order.Sorted(d.store.rows.Keys);
    var outside, put := Outside(d, StoreLinksIn(d.store, target)), Into(PutAll(d, order), target);
    IntoOwned(d, target);
    SortedAreDistinct(HeldBy(d).Keys);
    SortedAreDistinct(d.store.rows.Keys);
    ListedInOrder(names, carried);
    forall i
      ensures From(LinksIn(d, target), i) == From(outside + put, i)
    {
      FromListed(names, carried, i);
      FromListed(before, stored, i);
      FromBoth(outside, put, i);
      FromOutside(d, StoreLinksIn(d.store, target), i);
      FromPut(d, order, target, i);
      hide Into, StoredLinkings, Linkings, View;
      assert Into([], target) == [] by { NothingInto(target); }
    }
  }

  lemma NothingInto(target: Iri)
    ensures Into([], target) == []
  {
  }

  lemma SortedAreDistinct(names: set<Iri>)
    ensures forall j, k :: 0 <= j < k < |Order.Sorted(names)| ==> Order.Sorted(names)[j] != Order.Sorted(names)[k]
  {
    forall j, k | 0 <= j < k < |Order.Sorted(names)|
      ensures Order.Sorted(names)[j] != Order.Sorted(names)[k]
    {
      Order.PrecedesIsAStrictTotalOrder(Order.Sorted(names)[j], Order.Sorted(names)[k], Order.Sorted(names)[j]);
    }
  }
}
