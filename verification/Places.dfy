/** Places of the parts inside an artifact: every part listed, and a place looked up step by step. */
module Places {
  import opened Iris
  import opened Text
  import opened Content

  const SECTIONS := Str("sections")
  const ID := Str("id")

  /** The id an item is named by; none for an item that is no mapping or whose id is not text. */
  function Id(item: Tree): (id: Option<string>)
  {
    if !item.Mapping? then None
    else
      match Get(item.entries, ID)
      case Some(Leaf(Str(text))) => Some(text)
      case _ => None
  }

  /** A place as a link writes it: its steps joined by slashes. */
  function Placed(steps: seq<string>): (text: string)
    requires steps != []
  {
    Join(steps, '/')
  }

  /** Whether an entry of a mapping is a collection of parts. */
  predicate Collects(e: Entry)
  {
    e.key.Str? && e.key != SECTIONS && e.value.List?
  }

  // ---- every part

  /** The places of the parts of an item at a place, its own first. */
  function PlacesOf(collection: string, item: Tree): (places: seq<string>)
    decreases item
  {
    match Id(item)
    case None => []
    case Some(id) =>
      var place := Placed([collection, id]);
      var inner := Parts(item.entries);
      [place] + seq(|inner|, k requires 0 <= k < |inner| => Placed([place, inner[k]]))
  }

  function InItems(collection: string, items: seq<Tree>): (places: seq<string>)
    decreases items
  {
    if items == [] then []
    else InItems(collection, items[..|items| - 1]) + PlacesOf(collection, items[|items| - 1])
  }

  function InEntry(e: Entry): (places: seq<string>)
    decreases e
  {
    if Collects(e) then InItems(e.key.text, e.value.items) else []
  }

  /** The specification of `Listed`: an item's own place comes before those below it. */
  function Parts(entries: seq<Entry>): (places: seq<string>)
    decreases entries
  {
    if entries == [] then [] else Parts(entries[..|entries| - 1]) + InEntry(entries[|entries| - 1])
  }

  /** The parts listed, collection by collection. */
  method Listed(entries: seq<Entry>) returns (found: seq<string>)
    ensures found == Parts(entries)
    decreases entries
  {
    found := [];
    for k := 0 to |entries|
      invariant found == Parts(entries[..k])
    {
      assert entries[..k + 1][..k] == entries[..k];
      if Collects(entries[k]) {
        var inside := ListedIn(entries[k]);
        found := found + inside;
      } else {
        assert found + [] == found;
      }
    }
    assert entries[..|entries|] == entries;
  }

  /** The parts of a collection listed, item by item, each with the parts inside it. */
  method ListedIn(e: Entry) returns (found: seq<string>)
    requires Collects(e)
    ensures found == InEntry(e)
    decreases e
  {
    found := [];
    var items := e.value.items;
    for k := 0 to |items|
      invariant found == InItems(e.key.text, items[..k])
    {
      assert items[..k + 1][..k] == items[..k];
      var id := Id(items[k]);
      if id.Some? {
        var inner := ListedOf(items[k]);
        var place := Placed([e.key.text, id.value]);
        found := found + [place] + seq(|inner|, n requires 0 <= n < |inner| => Placed([place, inner[n]]));
      } else {
        assert found + [] == found;
      }
    }
    assert items[..|items|] == items;
  }

  method ListedOf(item: Tree) returns (found: seq<string>)
    requires item.Mapping?
    ensures found == Parts(item.entries)
    decreases item
  {
    found := Listed(item.entries);
  }

  // ---- a place looked up

  /** Where in a collection the first item of a name stands. */
  function IndexOf(items: seq<Tree>, id: string): (index: Option<nat>)
    ensures index.Some? ==>
      && index.value < |items| && Id(items[index.value]) == Some(id)
      && forall k :: 0 <= k < index.value ==> Id(items[k]) != Some(id)
    ensures index.None? ==> forall k :: 0 <= k < |items| ==> Id(items[k]) != Some(id)
    decreases |items|
  {
    if items == [] then None
    else if Id(items[0]) == Some(id) then Some(0)
    else
      match IndexOf(items[1..], id)
      case None => None
      case Some(k) => Some(k + 1)
  }

  /** The item two steps name in content. */
  function Step(entries: seq<Entry>, collection: string, id: string): (item: Option<Tree>)
    ensures item.Some? ==> item.value.Mapping? && Id(item.value) == Some(id)
  {
    match Get(entries, Str(collection))
    case Some(List(items)) =>
      (match IndexOf(items, id)
       case Some(k) => Some(items[k])
       case None => None)
    case _ => None
  }

  /** Whether steps, a collection and a name in turn, name a part. */
  predicate Names(entries: seq<Entry>, steps: seq<string>)
    decreases |steps|
  {
    && |steps| >= 2 && steps[0] != "sections"
    && var item := Step(entries, steps[0], steps[1]);
      item.Some? && (|steps| == 2 || Names(item.value.entries, steps[2..]))
  }

  /** Whether a place, of one step or more, names a part the content holds, walked to step by step: of as many names as
      collections, through no section, each step naming something. */
  method HoldsPart(entries: seq<Entry>, place: seq<string>) returns (holds: bool)
    requires place != []
    ensures holds == Names(entries, place)
  {
    if |place| % 2 != 0 {
      OddNamesNothing(entries, place);
      return false;
    }
    var steps, holder := place, entries;
    while |steps| > 1
      invariant |steps| % 2 == 0 && |steps| >= 2
      invariant Names(entries, place) == Names(holder, steps)
      decreases |steps|
    {
      if steps[0] == "sections" {
        return false;
      }
      var item := Step(holder, steps[0], steps[1]);
      if item.None? {
        return false;
      }
      if |steps| == 2 {
        return true;
      }
      holder, steps := item.value.entries, steps[2..];
    }
    return false;
  }

  lemma {:induction false} OddNamesNothing(entries: seq<Entry>, steps: seq<string>)
    requires |steps| % 2 != 0
    ensures !Names(entries, steps)
    decreases |steps|
  {
    if |steps| > 2 && Step(entries, steps[0], steps[1]).Some? {
      OddNamesNothing(Step(entries, steps[0], steps[1]).value.entries, steps[2..]);
    }
  }

  // ---- they agree

  lemma InItemsOneMore(collection: string, items: seq<Tree>)
    requires items != []
    ensures InItems(collection, items) ==
      InItems(collection, items[..|items| - 1]) + PlacesOf(collection, items[|items| - 1])
  {
  }

  lemma {:induction false} InAnItem(collection: string, items: seq<Tree>, place: string)
    ensures place in InItems(collection, items)
      <==> exists k :: 0 <= k < |items| && place in PlacesOf(collection, items[k])
    decreases |items|
  {
    if items != [] {
      var rest := items[..|items| - 1];
      hide *;
      InItemsOneMore(collection, items);
      InAnItem(collection, rest, place);
      if k :| 0 <= k < |items| && place in PlacesOf(collection, items[k]) {
        assert k < |rest| ==> rest[k] == items[k];
      }
    }
  }

  lemma {:induction false} InAnEntry(entries: seq<Entry>, place: string)
    ensures place in Parts(entries) <==> exists k :: 0 <= k < |entries| && place in InEntry(entries[k])
    decreases |entries|
  {
    if entries != [] {
      var rest := entries[..|entries| - 1];
      InAnEntry(rest, place);
      hide InEntry;
      if k :| 0 <= k < |entries| && place in InEntry(entries[k]) {
        assert k < |rest| ==> rest[k] == entries[k];
      }
    }
  }

  lemma JoinedByTwo(steps: seq<string>)
    requires |steps| > 2
    ensures Placed(steps) == Placed([Placed(steps[..2]), Placed(steps[2..])])
  {
    var a, b, rest := steps[0], steps[1], Placed(steps[2..]);
    assert steps[1..][0] == b && steps[1..][1..] == steps[2..];
    assert Join(steps[1..], '/') == b + ['/'] + rest;
    assert steps[..2] == [a, b] && [a, b][1..] == [b];
    assert Join([b], '/') == b && Placed([a, b]) == a + ['/'] + b;
    assert [Placed([a, b]), rest][1..] == [rest] && Join([rest], '/') == rest;
    assert Placed([Placed([a, b]), rest]) == (a + ['/'] + b) + ['/'] + rest;
    assert (a + ['/'] + b) + ['/'] + rest == a + ['/'] + (b + ['/'] + rest);
  }

  /** Every place the lookup accepts is listed. */
  lemma {:induction false} NamedIsListed(entries: seq<Entry>, steps: seq<string>)
    requires Names(entries, steps)
    ensures Placed(steps) in Parts(entries)
    decreases |steps|
  {
    var item := Step(entries, steps[0], steps[1]).value;
    var items := Get(entries, Str(steps[0])).value.items;
    var k :| 0 <= k < |entries| && entries[k] == Entry(Str(steps[0]), List(items));
    var j := IndexOf(items, steps[1]).value;
    var own := Placed([steps[0], steps[1]]);
    var inner := Parts(item.entries);
    if |steps| == 2 {
      assert steps == [steps[0], steps[1]];
      assert PlacesOf(steps[0], item)[0] == own;
    } else {
      NamedIsListed(item.entries, steps[2..]);
      JoinedByTwo(steps);
      assert steps[..2] == [steps[0], steps[1]];
      var m :| 0 <= m < |inner| && inner[m] == Placed(steps[2..]);
      assert PlacesOf(steps[0], item)[m + 1] == Placed([own, inner[m]]);
    }
    InAnItem(steps[0], items, Placed(steps));
    assert Placed(steps) in InEntry(entries[k]);
    InAnEntry(entries, Placed(steps));
  }

  /** Names that may stand in a written place without being read as two: no slash in a collection's name or an item's,
      and no two items of a list sharing one; in every list at every depth. */
  predicate Tidy(entries: seq<Entry>)
    decreases entries
  {
    && Unrepeated(Keys(entries))
    && forall k :: 0 <= k < |entries| ==> TidyEntry(entries[k])
  }

  predicate TidyEntry(e: Entry)
    decreases e
  {
    Collects(e) ==>
      && '/' !in e.key.text
      && (forall j, k :: 0 <= j < k < |e.value.items| && Id(e.value.items[j]).Some? ==>
           Id(e.value.items[j]) != Id(e.value.items[k]))
      && forall k :: 0 <= k < |e.value.items| ==> TidyItem(e.value.items[k])
  }

  predicate TidyItem(item: Tree)
    decreases item
  {
    Id(item).Some? ==> '/' !in Id(item).value && Tidy(item.entries)
  }

  /** Undoes the joining of steps with slashes. */
  function Steps(place: string): (steps: seq<string>)
  {
    Split(place, '/')
  }

  lemma StepsOfTwo(collection: string, id: string)
    requires '/' !in collection && '/' !in id
    ensures Steps(Placed([collection, id])) == [collection, id]
  {
    SplitUndoesJoin([collection, id], '/');
  }

  lemma StepsOfMore(collection: string, id: string, inner: string)
    requires '/' !in collection && '/' !in id
    ensures Steps(Placed([Placed([collection, id]), inner])) == [collection, id] + Steps(inner)
  {
    var steps := [collection, id] + Steps(inner);
    assert steps[..2] == [collection, id] && steps[2..] == Steps(inner);
    JoinUndoesSplit(inner, '/');
    JoinedByTwo(steps);
    SplitUndoesJoin(steps, '/');
  }

  /** In tidy content, every place listed is one the lookup accepts, read back. */
  lemma {:induction false} ListedIsNamed(entries: seq<Entry>, place: string)
    requires Tidy(entries) && place in Parts(entries)
    ensures Names(entries, Steps(place))
    decreases entries
  {
    InAnEntry(entries, place);
    var k :| 0 <= k < |entries| && place in InEntry(entries[k]);
    GetStands(entries, k);
    assert TidyEntry(entries[k]);
    InEntryIsNamed(entries, entries[k], place);
  }

  lemma FirstOfItsName(items: seq<Tree>, n: nat)
    requires n < |items| && Id(items[n]).Some?
    requires forall j, k :: 0 <= j < k < |items| && Id(items[j]).Some? ==> Id(items[j]) != Id(items[k])
    ensures IndexOf(items, Id(items[n]).value) == Some(n)
  {
    hide Id;
  }

  lemma {:induction false} InEntryIsNamed(entries: seq<Entry>, e: Entry, place: string)
    requires TidyEntry(e) && place in InEntry(e) && Get(entries, e.key) == Some(e.value)
    ensures Names(entries, Steps(place))
    decreases e
  {
    var collection, items := e.key.text, e.value.items;
    InAnItem(collection, items, place);
    var n :| 0 <= n < |items| && place in PlacesOf(collection, items[n]);
    assert e.key == Str(collection);
    assert TidyItem(items[n]);
    hide PlacesOf, InItems, Names, Steps, Tidy, Id;
    FirstOfItsName(items, n);
    assert Step(entries, collection, Id(items[n]).value) == Some(items[n]);
    OfItemIsNamed(entries, collection, items[n], place);
  }

  lemma {:induction false} OfItemIsNamed(entries: seq<Entry>, collection: string, item: Tree, place: string)
    requires TidyItem(item) && place in PlacesOf(collection, item) && '/' !in collection && collection != "sections"
    requires Step(entries, collection, Id(item).value) == Some(item)
    ensures Names(entries, Steps(place))
    decreases item
  {
    var id := Id(item).value;
    var own, inner := Placed([collection, id]), Parts(item.entries);
    if place == own {
      StepsOfTwo(collection, id);
    } else {
      var m :| 0 <= m < |inner| && place == Placed([own, inner[m]]);
      StepsOfMore(collection, id, inner[m]);
      ListedIsNamed(item.entries, inner[m]);
      assert ([collection, id] + Steps(inner[m]))[2..] == Steps(inner[m]);
    }
  }

  /** Listing and looking up agree: every place the lookup accepts is listed as it is written, whatever the content; and
      in content whose names are tidy, a place is listed exactly when the lookup accepts the steps it is read as. */
  lemma ListingAndLookingUpAgree(entries: seq<Entry>, place: string)
    ensures Names(entries, Steps(place)) ==> place in Parts(entries)
    ensures Tidy(entries) ==> (place in Parts(entries) <==> Names(entries, Steps(place)))
  {
    if Names(entries, Steps(place)) {
      NamedIsListed(entries, Steps(place));
      JoinUndoesSplit(place, '/');
    }
    if Tidy(entries) && place in Parts(entries) {
      ListedIsNamed(entries, place);
    }
  }
}
