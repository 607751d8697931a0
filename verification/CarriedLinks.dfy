/** The links content carries, read field by field and item by item, each told by the names of what holds it: wherever
    items stand in their lists, an artifact's links are told the same. */
module CarriedLinks {
  import opened Iris
  import opened Text
  import opened Content
  import opened PortValues
  import Places

  /** What a type, or a collection's items, declares: its link fields, and its collections with what declares theirs. */
  datatype Declares = Declares(refs: seq<string>, parts: seq<(string, nat)>)

  type Inside = nat -> Declares

  /** A link as content carries it: its field, its place, the value in it, whether the artifact itself holds the field,
      and what holds it. */
  datatype Carried = Carried(field: string, place: string, value: Tree, own: bool, holder: string)

  /** The `holder` of an item's own links: what the collection's links have, the collection, and the item's id when
      that is text, else its index. */
  function Holder(holder: string, collection: string, item: Tree, index: nat): string
  {
    var step := if Places.Id(item).Some? then Places.Id(item).value else Digits(index);
    if holder == "" then collection + "/" + step else holder + "/" + collection + "/" + step
  }

  /** A field's value as links: one, or each element's. */
  function InField(entries: seq<Entry>, field: string, at: string, holder: string): (links: seq<Carried>)
  {
    match Get(entries, Str(field))
    case None => []
    case Some(Leaf(Nothing)) => []
    case Some(List(items)) =>
      seq(|items|, n requires 0 <= n < |items| =>
        Carried(field, at + field + "/" + Digits(n), items[n], at == "", holder))
    case Some(value) => [Carried(field, at + field, value, at == "", holder)]
  }

  /** The links in a node's own fields. */
  function InFields(entries: seq<Entry>, refs: seq<string>, at: string, holder: string): (links: seq<Carried>)
  {
    if refs == [] then []
    else InFields(entries, refs[..|refs| - 1], at, holder) + InField(entries, refs[|refs| - 1], at, holder)
  }

  /** Where a mapping holds a key. */
  function Where(entries: seq<Entry>, key: Scalar): (at: Option<nat>)
    ensures at.Some? ==> at.value < |entries| && entries[at.value].key == key
    ensures Get(entries, key) == match at case Some(k) => Some(entries[k].value) case None => None
    decreases |entries|
  {
    if entries == [] then None
    else if entries[0].key == key then Some(0)
    else
      match Where(entries[1..], key)
      case Some(k) => Some(k + 1)
      case None => None
  }

  /** The items of a collection; none when it is held as no list. */
  function ItemsAt(entries: seq<Entry>, collection: string): (items: seq<Tree>)
  {
    match Get(entries, Str(collection))
    case Some(List(items)) => items
    case _ => []
  }

  /** The specification of `Read`: a node's own fields in order, then each collection's items, recursively. */
  function LinksIn(entries: seq<Entry>, d: Declares, inside: Inside, at: string, holder: string): (links: seq<Carried>)
    decreases entries, 1
  {
    InFields(entries, d.refs, at, holder) + InParts(entries, d.parts, inside, at, holder)
  }

  function InParts(entries: seq<Entry>, parts: seq<(string, nat)>, inside: Inside, at: string, holder: string)
    : (links: seq<Carried>)
    decreases entries, 0, |parts|
  {
    if parts == [] then []
    else
      var (collection, declared) := parts[|parts| - 1];
      InParts(entries, parts[..|parts| - 1], inside, at, holder) +
      match Where(entries, Str(collection))
      case None => []
      case Some(k) => InEntry(entries[k], collection, inside(declared), inside, at, holder)
  }

  function InEntry(e: Entry, collection: string, d: Declares, inside: Inside, at: string, holder: string)
    : (links: seq<Carried>)
    decreases e
  {
    if e.value.List? then InItems(e.value.items, collection, d, inside, at, holder) else []
  }

  function InItems(items: seq<Tree>, collection: string, d: Declares, inside: Inside, at: string, holder: string)
    : (links: seq<Carried>)
    decreases items
  {
    if items == [] then []
    else
      var n := |items| - 1;
      InItems(items[..n], collection, d, inside, at, holder) +
      InItem(items[n], n, collection, d, inside, at, holder)
  }

  function InItem(item: Tree, index: nat, collection: string, d: Declares, inside: Inside, at: string, holder: string)
    : (links: seq<Carried>)
    decreases item
  {
    if item.Mapping? then
      LinksIn(item.entries, d, inside, at + collection + "/" + Digits(index) + "/", Holder(holder, collection, item, index))
    else []
  }

  // ---- where each link stands, found by walking to it

  /** A node reached inside content: its entries, what is declared of it, and what its links have before their own field:
      a place, and what holds them. */
  datatype Node = Node(entries: seq<Entry>, d: Declares, at: string, holder: string)

  function Named(parts: seq<(string, nat)>, collection: string): (declared: Option<nat>)
    ensures declared.Some? <==> exists m :: 0 <= m < |parts| && parts[m].0 == collection
    ensures declared.Some? ==> exists m :: 0 <= m < |parts| && parts[m] == (collection, declared.value)
  {
    if parts == [] then None
    else if parts[0].0 == collection then assert parts[0] == (collection, parts[0].1); Some(parts[0].1)
    else
      assert forall m :: 0 < m < |parts| ==> parts[m] == parts[1..][m - 1];
      assert forall m :: 0 <= m < |parts| - 1 ==> parts[m + 1] == parts[1..][m];
      Named(parts[1..], collection)
  }

  /** One step into a node: the item that stands so far along a collection declared there; none where no mapping does. */
  function Entered(node: Node, inside: Inside, collection: string, n: nat): (inner: Option<Node>)
  {
    match Get(node.entries, Str(collection))
    case Some(List(items)) =>
      if Named(node.d.parts, collection).Some? && n < |items| && items[n].Mapping? then
        var entries := items[n].entries;
        var step := match Get(entries, Str("id")) case Some(Leaf(Str(name))) => name case _ => Digits(n);
        Some(Node(entries, inside(Named(node.d.parts, collection).value), node.at + collection + "/" + Digits(n) + "/",
                  (if node.holder == "" then collection else node.holder + "/" + collection) + "/" + step))
      else None
    case _ => None
  }

  /** The node at the end of a path of collections and of how far along each an item stands. */
  function NodeAt(node: Node, inside: Inside, path: seq<(string, nat)>): (found: Option<Node>)
    decreases |path|
  {
    if path == [] then Some(node)
    else
      match Entered(node, inside, path[0].0, path[0].1)
      case None => None
      case Some(inner) => NodeAt(inner, inside, path[1..])
  }

  /** Where a value stands: the path to its node, its field, and how far along when that holds a list. */
  datatype Address = Address(path: seq<(string, nat)>, field: string, along: Option<nat>)

  /** The link at an address, when its node is there, its field is declared and it holds a value there. */
  function LinkAt(node: Node, inside: Inside, a: Address): (link: Option<Carried>)
  {
    match NodeAt(node, inside, a.path)
    case None => None
    case Some(found) => OwnLink(found, a.field, a.along)
  }

  function OwnLink(node: Node, field: string, along: Option<nat>): (link: Option<Carried>)
  {
    if field !in node.d.refs then None
    else
      match Get(node.entries, Str(field))
      case None => None
      case Some(List(items)) =>
        if along.Some? && along.value < |items| then
          Some(Carried(field, node.at + field + "/" + Digits(along.value), items[along.value], node.at == "", node.holder))
        else None
      case Some(value) =>
        if along.Some? || value == Leaf(Nothing) then None
        else Some(Carried(field, node.at + field, value, node.at == "", node.holder))
  }

  /** Whether links are those at the addresses of a node some of its addresses are, each once. */
  ghost predicate Covers(
    node: Node, inside: Inside, those: Address -> bool, links: seq<Carried>, addresses: seq<Address>)
  {
    && |addresses| == |links| && Unrepeated(addresses)
    && (forall k :: 0 <= k < |links| ==> LinkAt(node, inside, addresses[k]) == Some(links[k]))
    && forall a :: a in addresses <==> those(a) && LinkAt(node, inside, a).Some?
  }

  /** Whether links are exactly those a node and all that is inside it carry: one for each address there is. */
  ghost predicate OneForEachAddress(node: Node, inside: Inside, links: seq<Carried>)
  {
    exists addresses :: Covers(node, inside, Anywhere, links, addresses)
  }

  predicate Anywhere(a: Address)
  {
    true
  }

  /** Whether a type declares no field and no collection twice, nor any collection's items do. */
  ghost predicate DeclaresOnce(d: Declares, inside: Inside)
  {
    NamesOnce(d) && forall n :: NamesOnce(inside(n))
  }

  predicate NamesOnce(d: Declares)
  {
    Unrepeated(d.refs) && forall j, k :: 0 <= j < k < |d.parts| ==> d.parts[j].0 != d.parts[k].0
  }

  // ---- what is read is one link for each address

  predicate AmongFields(refs: seq<string>, a: Address)
  {
    a.path == [] && a.field in refs
  }

  predicate AmongParts(parts: seq<(string, nat)>, a: Address)
  {
    a.path != [] && exists m :: 0 <= m < |parts| && parts[m].0 == a.path[0].0
  }

  predicate AmongItems(collection: string, n: nat, a: Address)
  {
    a.path != [] && a.path[0].0 == collection && a.path[0].1 < n
  }

  predicate InOneItem(collection: string, n: nat, a: Address)
  {
    a.path != [] && a.path[0] == (collection, n)
  }

  lemma CoversBoth(
    node: Node, inside: Inside, some: Address -> bool, more: Address -> bool, all: Address -> bool,
    links: seq<Carried>, rest: seq<Carried>, one: seq<Address>, other: seq<Address>)
    requires Covers(node, inside, some, links, one) && Covers(node, inside, more, rest, other)
    requires forall a :: all(a) <==> some(a) || more(a)
    requires forall a :: !(some(a) && more(a))
    ensures Covers(node, inside, all, links + rest, one + other)
  {
    hide LinkAt;
    var both := one + other;
    forall j, k | 0 <= j < k < |both|
      ensures both[j] != both[k]
    {
      assert both[j] in one || both[j] in other;
      if j < |one| <= k {
        assert both[j] in one && both[k] in other;
      }
    }
    forall k | 0 <= k < |both|
      ensures LinkAt(node, inside, both[k]) == Some((links + rest)[k])
    {
      assert both[k] == if k < |one| then one[k] else other[k - |one|];
    }
  }

  lemma CoversNone(node: Node, inside: Inside, those: Address -> bool)
    requires forall a :: those(a) ==> LinkAt(node, inside, a).None?
    ensures Covers(node, inside, those, [], [])
  {
  }

  lemma CoversAlike(
    node: Node, inside: Inside, those: Address -> bool, others: Address -> bool, links: seq<Carried>,
    addresses: seq<Address>)
    requires Covers(node, inside, those, links, addresses)
    requires forall a :: LinkAt(node, inside, a).Some? ==> (those(a) <==> others(a))
    ensures Covers(node, inside, others, links, addresses)
  {
  }

  lemma OneFieldIsCovered(node: Node, inside: Inside, field: string) returns (addresses: seq<Address>)
    requires field in node.d.refs
    ensures Covers(node, inside, a => AmongFields([field], a), InField(node.entries, field, node.at, node.holder), addresses)
  {
    var links := InField(node.entries, field, node.at, node.holder);
    match Get(node.entries, Str(field))
    case None =>
      addresses := [];
    case Some(List(items)) =>
      addresses := seq(|items|, n requires 0 <= n < |items| => Address([], field, Some(n)));
      forall a | AmongFields([field], a) && LinkAt(node, inside, a).Some?
        ensures a in addresses
      {
        assert addresses[a.along.value] == a;
      }
    case Some(value) =>
      addresses := if value == Leaf(Nothing) then [] else [Address([], field, None)];
  }

  lemma {:induction false} FieldsAreCovered(node: Node, inside: Inside, refs: seq<string>)
    returns (addresses: seq<Address>)
    requires Unrepeated(refs) && forall field :: field in refs ==> field in node.d.refs
    ensures Covers(node, inside, a => AmongFields(refs, a), InFields(node.entries, refs, node.at, node.holder), addresses)
    decreases |refs|
  {
    hide InField, LinkAt;
    if refs == [] {
      addresses := [];
      CoversNone(node, inside, a => AmongFields(refs, a));
    } else {
      var n := |refs| - 1;
      assert refs == refs[..n] + [refs[n]];
      var rest := FieldsAreCovered(node, inside, refs[..n]);
      var last := OneFieldIsCovered(node, inside, refs[n]);
      addresses := rest + last;
      CoversBoth(node, inside, a => AmongFields(refs[..n], a), a => AmongFields([refs[n]], a),
                 a => AmongFields(refs, a), InFields(node.entries, refs[..n], node.at, node.holder),
                 InField(node.entries, refs[n], node.at, node.holder), rest, last);
    }
  }

  function Deeper(collection: string, n: nat, a: Address): Address
  {
    a.(path := [(collection, n)] + a.path)
  }

  lemma LinkDeeper(node: Node, inside: Inside, collection: string, n: nat, a: Address)
    requires Entered(node, inside, collection, n).Some?
    ensures LinkAt(node, inside, Deeper(collection, n, a)) == LinkAt(Entered(node, inside, collection, n).value, inside, a)
  {
    hide Entered, OwnLink;
    assert ([(collection, n)] + a.path)[1..] == a.path;
  }

  /** What covers an item's node covers, from the node it is in, what is in that item. */
  lemma CoversDeeper(node: Node, inside: Inside, collection: string, n: nat, links: seq<Carried>, inner: seq<Address>)
    returns (addresses: seq<Address>)
    requires Entered(node, inside, collection, n).Some?
    requires Covers(Entered(node, inside, collection, n).value, inside, Anywhere, links, inner)
    ensures Covers(node, inside, a => InOneItem(collection, n, a), links, addresses)
  {
    hide LinkAt, Entered;
    addresses := seq(|inner|, k requires 0 <= k < |inner| => Deeper(collection, n, inner[k]));
    forall k | 0 <= k < |links|
      ensures LinkAt(node, inside, addresses[k]) == Some(links[k])
    {
      LinkDeeper(node, inside, collection, n, inner[k]);
    }
    forall j, k | 0 <= j < k < |addresses|
      ensures addresses[j] != addresses[k]
    {
      assert addresses[j].path[1..] == inner[j].path && addresses[k].path[1..] == inner[k].path;
    }
    forall a
      ensures a in addresses <==> InOneItem(collection, n, a) && LinkAt(node, inside, a).Some?
    {
      if InOneItem(collection, n, a) {
        var b := a.(path := a.path[1..]);
        assert Deeper(collection, n, b) == a;
        LinkDeeper(node, inside, collection, n, b);
        if b in inner {
          var k :| 0 <= k < |inner| && inner[k] == b;
          assert addresses[k] == a;
        }
        if a in addresses {
          var k :| 0 <= k < |inner| && Deeper(collection, n, inner[k]) == a;
          assert inner[k].path == a.path[1..];
          assert inner[k] == b;
        }
      }
    }
  }

  /** What is read of a node and of all inside it is one link for each address. */
  lemma {:induction false} LinksAreCovered(node: Node, inside: Inside) returns (addresses: seq<Address>)
    requires DeclaresOnce(node.d, inside)
    ensures Covers(node, inside, Anywhere, LinksIn(node.entries, node.d, inside, node.at, node.holder), addresses)
    decreases node.entries, 1
  {
    hide LinkAt, InFields, InParts;
    var fields := FieldsAreCovered(node, inside, node.d.refs);
    var parts := PartsAreCovered(node, inside, node.d.parts);
    addresses := fields + parts;
    var all := a => AmongFields(node.d.refs, a) || AmongParts(node.d.parts, a);
    CoversBoth(node, inside, a => AmongFields(node.d.refs, a), a => AmongParts(node.d.parts, a), all,
               InFields(node.entries, node.d.refs, node.at, node.holder),
               InParts(node.entries, node.d.parts, inside, node.at, node.holder), fields, parts);
    forall a | LinkAt(node, inside, a).Some?
      ensures all(a)
    {
      LinkIsDeclared(node, inside, a);
    }
    CoversAlike(node, inside, all, Anywhere, LinksIn(node.entries, node.d, inside, node.at, node.holder), addresses);
  }

  lemma LinkIsDeclared(node: Node, inside: Inside, a: Address)
    requires LinkAt(node, inside, a).Some?
    ensures AmongFields(node.d.refs, a) || AmongParts(node.d.parts, a)
  {
  }

  lemma {:induction false} PartsAreCovered(node: Node, inside: Inside, parts: seq<(string, nat)>)
    returns (addresses: seq<Address>)
    requires DeclaresOnce(node.d, inside) && parts <= node.d.parts
    ensures Covers(node, inside, a => AmongParts(parts, a), InParts(node.entries, parts, inside, node.at, node.holder),
                   addresses)
    decreases node.entries, 0, |parts|
  {
    hide LinkAt, InEntry, InItems;
    if parts == [] {
      addresses := [];
      CoversNone(node, inside, a => AmongParts(parts, a));
    } else {
      var m := |parts| - 1;
      assert parts == parts[..m] + [parts[m]];
      var (collection, declared) := parts[m];
      var before := PartsAreCovered(node, inside, parts[..m]);
      var last, links := [], [];
      match Where(node.entries, Str(collection)) {
        case None =>
          CoversNoItems(node, inside, collection);
        case Some(k) =>
          NamedOnce(node.d.parts, m);
          links := InEntry(node.entries[k], collection, inside(declared), inside, node.at, node.holder);
          last := EntryIsCovered(node, inside, collection, node.entries[k]);
      }
      addresses := before + last;
      CoversBoth(node, inside, a => AmongParts(parts[..m], a), a => InOnePart(collection, a), a => AmongParts(parts, a),
                 InParts(node.entries, parts[..m], inside, node.at, node.holder), links, before, last);
    }
  }

  predicate InOnePart(collection: string, a: Address)
  {
    a.path != [] && a.path[0].0 == collection
  }

  lemma {:induction false} NamedOnce(parts: seq<(string, nat)>, m: nat)
    requires m < |parts| && forall j, k :: 0 <= j < k < |parts| ==> parts[j].0 != parts[k].0
    ensures Named(parts, parts[m].0) == Some(parts[m].1)
  {
  }

  lemma CoversNoItems(node: Node, inside: Inside, collection: string)
    requires ItemsAt(node.entries, collection) == []
    ensures Covers(node, inside, a => InOnePart(collection, a), [], [])
  {
  }

  lemma {:induction false} EntryIsCovered(node: Node, inside: Inside, collection: string, e: Entry)
    returns (addresses: seq<Address>)
    requires DeclaresOnce(node.d, inside) && Named(node.d.parts, collection).Some?
    requires Get(node.entries, Str(collection)) == Some(e.value)
    ensures Covers(node, inside, a => InOnePart(collection, a),
                   InEntry(e, collection, inside(Named(node.d.parts, collection).value), inside, node.at, node.holder),
                   addresses)
    decreases e
  {
    if e.value.List? {
      addresses := ItemsAreCovered(node, inside, collection, e.value.items, e.value.items);
      forall a | LinkAt(node, inside, a).Some?
        ensures AmongItems(collection, |e.value.items|, a) <==> InOnePart(collection, a)
      {
      }
      CoversAlike(node, inside, a => AmongItems(collection, |e.value.items|, a), a => InOnePart(collection, a),
        InItems(e.value.items, collection, inside(Named(node.d.parts, collection).value), inside, node.at, node.holder),
        addresses);
    } else {
      addresses := [];
      CoversNoItems(node, inside, collection);
    }
  }

  lemma {:induction false} ItemsAreCovered(
    node: Node, inside: Inside, collection: string, items: seq<Tree>, all: seq<Tree>) returns (addresses: seq<Address>)
    requires DeclaresOnce(node.d, inside) && Named(node.d.parts, collection).Some? && items <= all
    requires Get(node.entries, Str(collection)) == Some(List(all))
    ensures Covers(node, inside, a => AmongItems(collection, |items|, a),
                   InItems(items, collection, inside(Named(node.d.parts, collection).value), inside, node.at, node.holder),
                   addresses)
    decreases items
  {
    hide LinkAt, InItem;
    var d := inside(Named(node.d.parts, collection).value);
    if items == [] {
      addresses := [];
      CoversNone(node, inside, a => AmongItems(collection, |items|, a));
    } else {
      var n := |items| - 1;
      var before := ItemsAreCovered(node, inside, collection, items[..n], all);
      var last := ItemIsCovered(node, inside, collection, items[n], n, all);
      addresses := before + last;
      CoversBoth(node, inside, a => AmongItems(collection, n, a), a => InOneItem(collection, n, a),
                 a => AmongItems(collection, |items|, a),
                 InItems(items[..n], collection, d, inside, node.at, node.holder),
                 InItem(items[n], n, collection, d, inside, node.at, node.holder), before, last);
    }
  }

  lemma {:induction false} ItemIsCovered(
    node: Node, inside: Inside, collection: string, item: Tree, n: nat, all: seq<Tree>)
    returns (addresses: seq<Address>)
    requires DeclaresOnce(node.d, inside) && Named(node.d.parts, collection).Some?
    requires Get(node.entries, Str(collection)) == Some(List(all)) && n < |all| && all[n] == item
    ensures Covers(node, inside, a => InOneItem(collection, n, a),
                   InItem(item, n, collection, inside(Named(node.d.parts, collection).value), inside, node.at, node.holder),
                   addresses)
    decreases item
  {
    if item.Mapping? {
      var inner := Entered(node, inside, collection, n).value;
      EnteredIs(node, inside, collection, item, n, all);
      hide LinkAt, LinksIn, Entered, Holder;
      var within := LinksAreCovered(inner, inside);
      addresses := CoversDeeper(node, inside, collection, n,
        LinksIn(inner.entries, inner.d, inside, inner.at, inner.holder), within);
    } else {
      addresses := [];
      NoneInNoMapping(node, inside, collection, n);
    }
  }

  lemma EnteredIs(node: Node, inside: Inside, collection: string, item: Tree, n: nat, all: seq<Tree>)
    requires Named(node.d.parts, collection).Some? && item.Mapping?
    requires Get(node.entries, Str(collection)) == Some(List(all)) && n < |all| && all[n] == item
    ensures Entered(node, inside, collection, n) == Some(
      Node(item.entries, inside(Named(node.d.parts, collection).value), node.at + collection + "/" + Digits(n) + "/",
           Holder(node.holder, collection, item, n)))
  {
  }

  lemma NoneInNoMapping(node: Node, inside: Inside, collection: string, n: nat)
    requires Entered(node, inside, collection, n).None?
    ensures Covers(node, inside, a => InOneItem(collection, n, a), [], [])
  {
    hide Entered;
  }

  /** The links read of content are one for each address in it: for every node that some path of its type's collections
      comes to, at any depth, each value in each field declared there is read, once, in its field, at its place, held by
      what holds that node; and nothing else is read. */
  lemma ReadOncePerAddress(entries: seq<Entry>, d: Declares, inside: Inside, at: string, holder: string)
    requires DeclaresOnce(d, inside)
    ensures OneForEachAddress(Node(entries, d, at, holder), inside, LinksIn(entries, d, inside, at, holder))
  {
    hide LinkAt, LinksIn;
    var addresses := LinksAreCovered(Node(entries, d, at, holder), inside);
  }

  /** The links read field by field, then item by item. */
  method Read(entries: seq<Entry>, d: Declares, inside: Inside, at: string, holder: string) returns (found: seq<Carried>)
    ensures found == LinksIn(entries, d, inside, at, holder)
    ensures DeclaresOnce(d, inside) ==> OneForEachAddress(Node(entries, d, at, holder), inside, found)
    decreases entries, 1
  {
    hide LinkAt;
    var fields := ReadFields(entries, d.refs, at, holder);
    var parts := ReadParts(entries, d.parts, inside, at, holder);
    found := fields + parts;
    if DeclaresOnce(d, inside) {
      ReadOncePerAddress(entries, d, inside, at, holder);
    }
  }

  method ReadFields(entries: seq<Entry>, refs: seq<string>, at: string, holder: string) returns (found: seq<Carried>)
    ensures found == InFields(entries, refs, at, holder)
  {
    hide InField;
    found := [];
    for n := 0 to |refs|
      invariant found == InFields(entries, refs[..n], at, holder)
    {
      assert refs[..n + 1][..n] == refs[..n];
      found := found + InField(entries, refs[n], at, holder);
    }
    assert refs[..|refs|] == refs;
  }

  method ReadParts(entries: seq<Entry>, parts: seq<(string, nat)>, inside: Inside, at: string, holder: string)
    returns (found: seq<Carried>)
    ensures found == InParts(entries, parts, inside, at, holder)
    decreases entries, 0
  {
    found := [];
    hide InFields, InField, InItems, LinksIn;
    for n := 0 to |parts|
      invariant found == InParts(entries, parts[..n], inside, at, holder)
    {
      assert parts[..n + 1][..n] == parts[..n];
      var (collection, declared) := parts[n];
      var more := [];
      var k := Where(entries, Str(collection));
      if k.Some? && entries[k.value].value.List? {
        more := ReadItems(entries[k.value], collection, inside(declared), inside, at, holder);
      }
      found := found + more;
    }
    assert parts[..|parts|] == parts;
  }

  method ReadItems(e: Entry, collection: string, d: Declares, inside: Inside, at: string, holder: string)
    returns (found: seq<Carried>)
    requires e.value.List?
    ensures found == InEntry(e, collection, d, inside, at, holder)
    decreases e, 0
  {
    found := [];
    var items := e.value.items;
    for n := 0 to |items|
      invariant found == InItems(items[..n], collection, d, inside, at, holder)
    {
      assert items[..n + 1][..n] == items[..n];
      var more := [];
      if items[n].Mapping? {
        more := ReadItem(items[n], d, inside, at + collection + "/" + Digits(n) + "/",
                         Holder(holder, collection, items[n], n));
      }
      found := found + more;
    }
    assert items[..|items|] == items;
  }

  method ReadItem(item: Tree, d: Declares, inside: Inside, at: string, holder: string) returns (found: seq<Carried>)
    requires item.Mapping?
    ensures found == LinksIn(item.entries, d, inside, at, holder)
    decreases item
  {
    found := Read(item.entries, d, inside, at, holder);
  }

  // ---- told by what holds them, not by where they stand

  /** What a link is told by, but how many before it are told so: its field, what holds it and what it names. */
  datatype Mark = Mark(field: string, holder: string, value: Tree)

  function Marks(links: seq<Carried>): (marks: seq<Mark>)
  {
    seq(|links|, n requires 0 <= n < |links| => Mark(links[n].field, links[n].holder, links[n].value))
  }

  ghost function Counted(links: seq<Carried>): (marks: multiset<Mark>)
  {
    multiset(Marks(links))
  }

  lemma MarksOfBoth(a: seq<Carried>, b: seq<Carried>)
    ensures Marks(a + b) == Marks(a) + Marks(b)
    ensures Counted(a + b) == Counted(a) + Counted(b)
  {
    assert Marks(a + b) == Marks(a) + Marks(b);
  }

  lemma {:induction false} FieldsIgnorePlace(entries: seq<Entry>, refs: seq<string>, at: string, to: string, holder: string)
    ensures Marks(InFields(entries, refs, at, holder)) == Marks(InFields(entries, refs, to, holder))
    decreases |refs|
  {
    if refs != [] {
      var rest, last := refs[..|refs| - 1], refs[|refs| - 1];
      FieldsIgnorePlace(entries, rest, at, to, holder);
      assert Marks(InField(entries, last, at, holder)) == Marks(InField(entries, last, to, holder));
      hide InField, Marks;
      MarksOfBoth(InFields(entries, rest, at, holder), InField(entries, last, at, holder));
      MarksOfBoth(InFields(entries, rest, to, holder), InField(entries, last, to, holder));
    }
  }

  /** What links are told by is no matter of their place. */
  lemma {:induction false} LinksIgnorePlace(
    entries: seq<Entry>, d: Declares, inside: Inside, at: string, to: string, holder: string)
    ensures Marks(LinksIn(entries, d, inside, at, holder)) == Marks(LinksIn(entries, d, inside, to, holder))
    decreases entries, 1
  {
    FieldsIgnorePlace(entries, d.refs, at, to, holder);
    PartsIgnorePlace(entries, d.parts, inside, at, to, holder);
    MarksOfBoth(InFields(entries, d.refs, at, holder), InParts(entries, d.parts, inside, at, holder));
    MarksOfBoth(InFields(entries, d.refs, to, holder), InParts(entries, d.parts, inside, to, holder));
  }

  lemma {:induction false} PartsIgnorePlace(
    entries: seq<Entry>, parts: seq<(string, nat)>, inside: Inside, at: string, to: string, holder: string)
    ensures Marks(InParts(entries, parts, inside, at, holder)) == Marks(InParts(entries, parts, inside, to, holder))
    decreases entries, 0, |parts|
  {
    if parts != [] {
      var rest := parts[..|parts| - 1];
      var (collection, declared) := parts[|parts| - 1];
      PartsIgnorePlace(entries, rest, inside, at, to, holder);
      match Where(entries, Str(collection))
      case None =>
        MarksOfBoth(InParts(entries, rest, inside, at, holder), []);
        MarksOfBoth(InParts(entries, rest, inside, to, holder), []);
      case Some(k) =>
        EntryIgnoresPlace(entries[k], collection, inside(declared), inside, at, to, holder);
        MarksOfBoth(InParts(entries, rest, inside, at, holder),
                    InEntry(entries[k], collection, inside(declared), inside, at, holder));
        MarksOfBoth(InParts(entries, rest, inside, to, holder),
                    InEntry(entries[k], collection, inside(declared), inside, to, holder));
    }
  }

  lemma {:induction false} EntryIgnoresPlace(
    e: Entry, collection: string, d: Declares, inside: Inside, at: string, to: string, holder: string)
    ensures Marks(InEntry(e, collection, d, inside, at, holder)) == Marks(InEntry(e, collection, d, inside, to, holder))
    decreases e
  {
    if e.value.List? {
      ItemsIgnorePlace(e.value.items, collection, d, inside, at, to, holder);
    }
  }

  lemma {:induction false} ItemsIgnorePlace(
    items: seq<Tree>, collection: string, d: Declares, inside: Inside, at: string, to: string, holder: string)
    ensures Marks(InItems(items, collection, d, inside, at, holder))
      == Marks(InItems(items, collection, d, inside, to, holder))
    decreases items
  {
    if items != [] {
      var n := |items| - 1;
      ItemsIgnorePlace(items[..n], collection, d, inside, at, to, holder);
      ItemIgnoresPlace(items[n], n, n, collection, d, inside, at, to, holder);
      MarksOfBoth(InItems(items[..n], collection, d, inside, at, holder),
                  InItem(items[n], n, collection, d, inside, at, holder));
      MarksOfBoth(InItems(items[..n], collection, d, inside, to, holder),
                  InItem(items[n], n, collection, d, inside, to, holder));
    }
  }

  /** Nor, for an item with a name, of where it stands. */
  lemma {:induction false} ItemIgnoresPlace(
    item: Tree, m: nat, n: nat, collection: string, d: Declares, inside: Inside, at: string, to: string, holder: string)
    requires m == n || (item.Mapping? ==> Places.Id(item).Some?)
    ensures Marks(InItem(item, m, collection, d, inside, at, holder))
      == Marks(InItem(item, n, collection, d, inside, to, holder))
    decreases item
  {
    if item.Mapping? {
      LinksIgnorePlace(item.entries, d, inside, at + collection + "/" + Digits(m) + "/",
                       to + collection + "/" + Digits(n) + "/", Holder(holder, collection, item, m));
    }
  }

  // ---- a rearranged artifact

  /** Whether a field holds the same links, in whatever order. */
  predicate FieldMoved(one: Option<Tree>, other: Option<Tree>)
  {
    if one.Some? && one.value.List? then
      other.Some? && other.value.List? && multiset(one.value.items) == multiset(other.value.items)
    else one == other
  }

  /** Whether a node is another with the values of its link fields and the items of its collections put in any order, each
      item named, at every depth. */
  ghost predicate Moved(d: Declares, inside: Inside, entries: seq<Entry>, others: seq<Entry>)
    decreases entries, 1
  {
    && (forall n :: 0 <= n < |d.refs| ==> FieldMoved(Get(entries, Str(d.refs[n])), Get(others, Str(d.refs[n]))))
    && (forall n :: 0 <= n < |d.parts| ==>
         PartMoved(inside(d.parts[n].1), inside, entries, d.parts[n].0, ItemsAt(others, d.parts[n].0)))
  }

  ghost predicate PartMoved(
    d: Declares, inside: Inside, entries: seq<Entry>, collection: string, others: seq<Tree>)
    decreases entries, 0
  {
    match Where(entries, Str(collection))
    case None => others == []
    case Some(k) => EntryMoved(d, inside, entries[k], others)
  }

  ghost predicate EntryMoved(d: Declares, inside: Inside, e: Entry, others: seq<Tree>)
    decreases e, 0
  {
    if e.value.List? then ItemsMoved(d, inside, e.value.items, others) else others == []
  }

  /** Whether items are others, each rearranged inside, put in any order. */
  ghost predicate ItemsMoved(d: Declares, inside: Inside, items: seq<Tree>, others: seq<Tree>)
    decreases items, 1
  {
    exists before :: SameItems(before, others) && EachMoved(d, inside, items, before)
  }

  ghost predicate SameItems(before: seq<Tree>, others: seq<Tree>)
  {
    multiset(before) == multiset(others)
  }

  ghost predicate EachMoved(d: Declares, inside: Inside, items: seq<Tree>, others: seq<Tree>)
    decreases items, 0
  {
    |items| == |others| && forall k :: 0 <= k < |items| ==> ItemMoved(d, inside, items[k], others[k])
  }

  ghost predicate ItemMoved(d: Declares, inside: Inside, item: Tree, other: Tree)
    decreases item
  {
    if item.Mapping? then
      other.Mapping? && Places.Id(item).Some? && Places.Id(other) == Places.Id(item)
      && Moved(d, inside, item.entries, other.entries)
    else other == item
  }

  // ---- is told the same

  lemma {:induction false} MarksOfValues(items: seq<Tree>, links: seq<Carried>, field: string, holder: string, mark: Mark)
    requires |links| == |items|
    requires forall n :: 0 <= n < |items| ==>
      links[n].value == items[n] && links[n].field == field && links[n].holder == holder
    ensures Counted(links)[mark] == if mark.field == field && mark.holder == holder then multiset(items)[mark.value] else 0
    decreases |items|
  {
    if items != [] {
      var n := |items| - 1;
      MarksOfValues(items[..n], links[..n], field, holder, mark);
      assert links == links[..n] + [links[n]] && items == items[..n] + [items[n]];
      MarksOfBoth(links[..n], [links[n]]);
      assert Marks([links[n]]) == [Mark(field, holder, items[n])];
    }
  }

  lemma FieldToldTheSame(entries: seq<Entry>, others: seq<Entry>, field: string, at: string, to: string, holder: string)
    requires FieldMoved(Get(entries, Str(field)), Get(others, Str(field)))
    ensures Counted(InField(entries, field, at, holder)) == Counted(InField(others, field, to, holder))
  {
    var one, other := Get(entries, Str(field)), Get(others, Str(field));
    var links, more := InField(entries, field, at, holder), InField(others, field, to, holder);
    if one.Some? && one.value.List? {
      forall mark: Mark
        ensures Counted(links)[mark] == Counted(more)[mark]
      {
        MarksOfValues(one.value.items, links, field, holder, mark);
        MarksOfValues(other.value.items, more, field, holder, mark);
      }
    } else {
      assert Marks(links) == Marks(more);
    }
  }

  lemma {:induction false} FieldsToldTheSame(
    entries: seq<Entry>, others: seq<Entry>, refs: seq<string>, at: string, to: string, holder: string)
    requires forall n :: 0 <= n < |refs| ==> FieldMoved(Get(entries, Str(refs[n])), Get(others, Str(refs[n])))
    ensures Counted(InFields(entries, refs, at, holder)) == Counted(InFields(others, refs, to, holder))
    decreases |refs|
  {
    if refs != [] {
      var rest, last := refs[..|refs| - 1], refs[|refs| - 1];
      FieldsToldTheSame(entries, others, rest, at, to, holder);
      FieldToldTheSame(entries, others, last, at, to, holder);
      MarksOfBoth(InFields(entries, rest, at, holder), InField(entries, last, at, holder));
      MarksOfBoth(InFields(others, rest, to, holder), InField(others, last, to, holder));
    }
  }

  /** The links of one item, told as it stands first. */
  ghost function OfItem(item: Tree, collection: string, d: Declares, inside: Inside, holder: string): multiset<Mark>
  {
    Counted(InItem(item, 0, collection, d, inside, "", holder))
  }

  ghost function OfItems(items: seq<Tree>, collection: string, d: Declares, inside: Inside, holder: string)
    : (marks: multiset<Mark>)
  {
    if items == [] then multiset{}
    else
      OfItems(items[..|items| - 1], collection, d, inside, holder) + OfItem(items[|items| - 1], collection, d, inside, holder)
  }

  predicate AllNamed(items: seq<Tree>)
  {
    forall item :: item in items && item.Mapping? ==> Places.Id(item).Some?
  }

  lemma {:induction false} NamedItemsAreSummed(
    items: seq<Tree>, collection: string, d: Declares, inside: Inside, at: string, holder: string)
    requires AllNamed(items)
    ensures Counted(InItems(items, collection, d, inside, at, holder)) == OfItems(items, collection, d, inside, holder)
    decreases |items|
  {
    if items != [] {
      var n := |items| - 1;
      assert items[n] in items;
      NamedItemsAreSummed(items[..n], collection, d, inside, at, holder);
      ItemIgnoresPlace(items[n], n, 0, collection, d, inside, at, "", holder);
      MarksOfBoth(InItems(items[..n], collection, d, inside, at, holder),
                  InItem(items[n], n, collection, d, inside, at, holder));
    }
  }

  lemma {:induction false} SummedWithout(
    items: seq<Tree>, k: nat, collection: string, d: Declares, inside: Inside, holder: string)
    requires k < |items|
    ensures OfItems(items, collection, d, inside, holder)
      == OfItems(items[..k] + items[k + 1..], collection, d, inside, holder) + OfItem(items[k], collection, d, inside, holder)
    decreases |items|
  {
    hide OfItem;
    var n := |items| - 1;
    if k < n {
      var rest := items[..n];
      SummedWithout(rest, k, collection, d, inside, holder);
      var without := items[..k] + items[k + 1..];
      assert without[..|without| - 1] == rest[..k] + rest[k + 1..];
    } else {
      assert items[..k] + items[k + 1..] == items[..n];
    }
  }

  lemma OneLess<T>(s: seq<T>, k: nat)
    requires k < |s|
    ensures multiset(s[..k] + s[k + 1..]) == multiset(s) - multiset{s[k]}
  {
    assert s == s[..k] + [s[k]] + s[k + 1..];
    assert multiset(s) == multiset(s[..k]) + multiset{s[k]} + multiset(s[k + 1..]);
  }

  lemma {:induction false} SummedInAnyOrder(
    items: seq<Tree>, others: seq<Tree>, collection: string, d: Declares, inside: Inside, holder: string)
    requires multiset(items) == multiset(others)
    ensures OfItems(items, collection, d, inside, holder) == OfItems(others, collection, d, inside, holder)
    decreases |items|
  {
    hide OfItem;
    assert |items| == |multiset(items)| == |others|;
    if items != [] {
      var n := |items| - 1;
      assert items[n] in multiset(items);
      assert items[n] in others;
      var k :| 0 <= k < |others| && others[k] == items[n];
      var rest := others[..k] + others[k + 1..];
      OneLess(items, n);
      OneLess(others, k);
      assert items[..n] + items[n + 1..] == items[..n];
      SummedInAnyOrder(items[..n], rest, collection, d, inside, holder);
      SummedWithout(others, k, collection, d, inside, holder);
    }
  }

  /** Its values and its items put in any order, at every depth, an artifact's links are told the same, as often. */
  lemma {:induction false} MovedIsToldTheSame(
    d: Declares, inside: Inside, entries: seq<Entry>, others: seq<Entry>, at: string, to: string, holder: string)
    requires Moved(d, inside, entries, others)
    ensures Counted(LinksIn(entries, d, inside, at, holder)) == Counted(LinksIn(others, d, inside, to, holder))
    decreases entries, 2
  {
    FieldsToldTheSame(entries, others, d.refs, at, to, holder);
    PartsToldTheSame(d.parts, inside, entries, others, at, to, holder);
    MarksOfBoth(InFields(entries, d.refs, at, holder), InParts(entries, d.parts, inside, at, holder));
    MarksOfBoth(InFields(others, d.refs, to, holder), InParts(others, d.parts, inside, to, holder));
  }

  lemma PartIs(entries: seq<Entry>, collection: string, d: Declares, inside: Inside, at: string, holder: string)
    ensures (match Where(entries, Str(collection))
             case None => []
             case Some(k) => InEntry(entries[k], collection, d, inside, at, holder))
      == InItems(ItemsAt(entries, collection), collection, d, inside, at, holder)
  {
  }

  lemma {:induction false} PartsToldTheSame(
    parts: seq<(string, nat)>, inside: Inside, entries: seq<Entry>, others: seq<Entry>, at: string, to: string,
    holder: string)
    requires forall n :: 0 <= n < |parts| ==>
      PartMoved(inside(parts[n].1), inside, entries, parts[n].0, ItemsAt(others, parts[n].0))
    ensures Counted(InParts(entries, parts, inside, at, holder)) == Counted(InParts(others, parts, inside, to, holder))
    decreases entries, 1, |parts|
  {
    if parts != [] {
      var rest := parts[..|parts| - 1];
      var (collection, declared) := parts[|parts| - 1];
      PartsToldTheSame(rest, inside, entries, others, at, to, holder);
      PartToldTheSame(inside(declared), inside, entries, collection, ItemsAt(others, collection), at, to, holder);
      PartIs(entries, collection, inside(declared), inside, at, holder);
      PartIs(others, collection, inside(declared), inside, to, holder);
      MarksOfBoth(InParts(entries, rest, inside, at, holder),
                  InItems(ItemsAt(entries, collection), collection, inside(declared), inside, at, holder));
      MarksOfBoth(InParts(others, rest, inside, to, holder),
                  InItems(ItemsAt(others, collection), collection, inside(declared), inside, to, holder));
    }
  }

  lemma {:induction false} PartToldTheSame(
    d: Declares, inside: Inside, entries: seq<Entry>, collection: string, others: seq<Tree>, at: string, to: string,
    holder: string)
    requires PartMoved(d, inside, entries, collection, others)
    ensures Counted(InItems(ItemsAt(entries, collection), collection, d, inside, at, holder))
      == Counted(InItems(others, collection, d, inside, to, holder))
    decreases entries, 0
  {
    match Where(entries, Str(collection))
    case None =>
    case Some(k) => EntryToldTheSame(d, inside, entries[k], collection, others, at, to, holder);
  }

  lemma {:induction false} EntryToldTheSame(
    d: Declares, inside: Inside, e: Entry, collection: string, others: seq<Tree>, at: string, to: string, holder: string)
    requires EntryMoved(d, inside, e, others)
    ensures Counted(InItems(if e.value.List? then e.value.items else [], collection, d, inside, at, holder))
      == Counted(InItems(others, collection, d, inside, to, holder))
    decreases e
  {
    if e.value.List? {
      ItemsToldTheSame(d, inside, e.value.items, collection, others, at, to, holder);
    }
  }

  lemma {:induction false} ItemsToldTheSame(
    d: Declares, inside: Inside, items: seq<Tree>, collection: string, others: seq<Tree>, at: string, to: string,
    holder: string)
    requires ItemsMoved(d, inside, items, others)
    ensures Counted(InItems(items, collection, d, inside, at, holder))
      == Counted(InItems(others, collection, d, inside, to, holder))
    decreases items, 1
  {
    var before :| SameItems(before, others) && EachMoved(d, inside, items, before);
    EachToldTheSame(d, inside, items, before, collection, holder);
    EachIsNamed(d, inside, items, before);
    SummedInAnyOrder(before, others, collection, d, inside, holder);
    assert AllNamed(others) by {
      forall item | item in others && item.Mapping?
        ensures Places.Id(item).Some?
      {
        assert item in multiset(before);
      }
    }
    NamedItemsAreSummed(items, collection, d, inside, at, holder);
    NamedItemsAreSummed(others, collection, d, inside, to, holder);
  }

  lemma {:induction false} EachToldTheSame(
    d: Declares, inside: Inside, items: seq<Tree>, others: seq<Tree>, collection: string, holder: string)
    requires EachMoved(d, inside, items, others)
    ensures OfItems(items, collection, d, inside, holder) == OfItems(others, collection, d, inside, holder)
    decreases items, 0
  {
    hide OfItem, ItemMoved;
    if items != [] {
      var n := |items| - 1;
      assert ItemMoved(d, inside, items[n], others[n]);
      EachToldTheSame(d, inside, items[..n], others[..n], collection, holder);
      ItemToldTheSame(d, inside, items[n], others[n], collection, holder);
    }
  }

  lemma EachIsNamed(d: Declares, inside: Inside, items: seq<Tree>, others: seq<Tree>)
    requires EachMoved(d, inside, items, others)
    ensures AllNamed(items) && AllNamed(others)
  {
    hide Moved, Places.Id;
    forall k | 0 <= k < |items|
      ensures items[k].Mapping? ==> Places.Id(items[k]).Some?
      ensures others[k].Mapping? ==> Places.Id(others[k]).Some?
    {
      assert ItemMoved(d, inside, items[k], others[k]);
    }
  }

  lemma {:induction false} ItemToldTheSame(
    d: Declares, inside: Inside, item: Tree, other: Tree, collection: string, holder: string)
    requires ItemMoved(d, inside, item, other)
    ensures OfItem(item, collection, d, inside, holder) == OfItem(other, collection, d, inside, holder)
    decreases item
  {
    if item.Mapping? {
      var at := "" + collection + "/" + Digits(0) + "/";
      MovedIsToldTheSame(d, inside, item.entries, other.entries, at, at, Holder(holder, collection, item, 0));
      assert Holder(holder, collection, other, 0) == Holder(holder, collection, item, 0);
    }
  }

  // ---- and so told by the port

  /** The keys the port tells links by: what each value names read apart, a value that could name nothing not handed. */
  function Keys(marks: seq<Mark>, read: Tree -> Option<(Iri, string)>): (keys: seq<Key>)
  {
    if marks == [] then [] else Keys(marks[..|marks| - 1], read) + KeyOf(marks[|marks| - 1], read)
  }

  function KeyOf(mark: Mark, read: Tree -> Option<(Iri, string)>): (keys: seq<Key>)
  {
    match read(mark.value)
    case None => []
    case Some((target, part)) => [Key(mark.field, Some(mark.holder), target, part)]
  }

  lemma {:induction false} KeysWithout(marks: seq<Mark>, k: nat, read: Tree -> Option<(Iri, string)>)
    requires k < |marks|
    ensures multiset(Keys(marks, read))
      == multiset(Keys(marks[..k] + marks[k + 1..], read)) + multiset(KeyOf(marks[k], read))
    decreases |marks|
  {
    hide KeyOf, Keys;
    var n := |marks| - 1;
    assert marks == marks[..n] + [marks[n]];
    KeysOneMore(marks[..n], marks[n], read);
    if k < n {
      KeysWithout(marks[..n], k, read);
      assert marks[..k] + marks[k + 1..] == marks[..n][..k] + marks[..n][k + 1..] + [marks[n]];
      KeysOneMore(marks[..n][..k] + marks[..n][k + 1..], marks[n], read);
    } else {
      assert marks[..k] + marks[k + 1..] == marks[..n];
    }
  }

  lemma KeysOneMore(marks: seq<Mark>, last: Mark, read: Tree -> Option<(Iri, string)>)
    ensures multiset(Keys(marks + [last], read)) == multiset(Keys(marks, read)) + multiset(KeyOf(last, read))
  {
    assert (marks + [last])[..|marks|] == marks;
  }

  lemma {:induction false} KeysInAnyOrder(marks: seq<Mark>, others: seq<Mark>, read: Tree -> Option<(Iri, string)>)
    requires multiset(marks) == multiset(others)
    ensures multiset(Keys(marks, read)) == multiset(Keys(others, read))
    decreases |marks|
  {
    hide KeyOf;
    assert |marks| == |multiset(marks)| == |others|;
    if marks != [] {
      var n := |marks| - 1;
      assert marks[n] in multiset(marks);
      assert marks[n] in others;
      var k :| 0 <= k < |others| && others[k] == marks[n];
      OneLess(marks, n);
      OneLess(others, k);
      assert marks[..n] + marks[n + 1..] == marks[..n];
      KeysInAnyOrder(marks[..n], others[..k] + others[k + 1..], read);
      KeysWithout(others, k, read);
    }
  }

  /** Wherever the values and the items of an artifact are moved in their lists, at every depth, its links are the very
      links they were: the port tells the same ones apart, so what waited before waits still. */
  lemma MovedIsTheSameToThePort(
    d: Declares, inside: Inside, entries: seq<Entry>, others: seq<Entry>, read: Tree -> Option<(Iri, string)>)
    requires Moved(d, inside, entries, others)
    ensures ToldAll(Keys(Marks(LinksIn(entries, d, inside, "", "")), read))
      == ToldAll(Keys(Marks(LinksIn(others, d, inside, "", "")), read))
  {
    MovedIsToldTheSame(d, inside, entries, others, "", "", "");
    var marks, more := Marks(LinksIn(entries, d, inside, "", "")), Marks(LinksIn(others, d, inside, "", ""));
    hide LinksIn, Moved;
    KeysInAnyOrder(marks, more, read);
    ToldWhereverItStands(Keys(marks, read), Keys(more, read));
  }
}
