/** Links as three lists that are shown to agree: those carried in content, those handed to the port, and those
    stored and read back. */
module Links {
  import opened Iris
  import opened PortValues
  import opened Landing
  import opened Composition

  /** A value as a link with `under` and `waits` not yet filled in. */
  function AsLink(v: Value, ref: Ref): Link
  {
    Link(v.field, v.place, v.target, v.part, ref.targets, false, None, false, Some(v.holder), false)
  }

  /** The values an artifact carries in link fields, in the order it carries them. */
  function Carried(values: seq<Value>, declares: map<string, Ref>): (carried: seq<Value>)
    ensures forall n :: 0 <= n < |carried| ==> carried[n].field in declares
  {
    if values == [] then []
    else
      var carried := Carried(values[..|values| - 1], declares);
      var last := values[|values| - 1];
      if last.field in declares then carried + [last] else carried
  }

  function ValueKeys(values: seq<Value>): (keys: seq<Key>)
  {
    seq(|values|, n requires 0 <= n < |values| =>
      Key(values[n].field, Some(values[n].holder), values[n].target, values[n].part))
  }

  /** A link of no field and an empty holder, whose target is the kind and must be of kind TYPES. */
  function Implicit(kind: Iri): Link
  {
    Link("", "", kind, "", {TYPES}, true, None, false, Some(""), false)
  }

  /** A link carried, as it is handed: with the held type its target's IRI sits under, and whether it is one the store
      held waiting. */
  function HandedLink(values: seq<Value>, n: nat, declares: map<string, Ref>, c: Corpus, waited: set<Told>): Link
    requires n < |values| && values[n].field in declares
  {
    var told := ToldAt(ValueKeys(values), n);
    AsLink(values[n], declares[values[n].field]).(
      under := NearestType(c, values[n].target), waits := told.Some? && told.value in waited)
  }

  /** `Implicit` and then `HandedLink` of each carried value, in order. */
  function HandedLinks(a: Artifact, schema: Schema, c: Corpus, waited: set<Told>): (links: seq<Link>)
    ensures |links| == 1 + |Carried(a.body.values, schema.declares)|
    ensures links[0] == Implicit(a.kind)
    ensures var own := Carried(a.body.values, schema.declares);
      forall n :: 0 <= n < |own| ==> links[n + 1] == HandedLink(own, n, schema.declares, c, waited)
  {
    var own := Carried(a.body.values, schema.declares);
    [Implicit(a.kind)] +
    seq(|own|, n requires 0 <= n < |own| => HandedLink(own, n, schema.declares, c, waited))
  }

  /** The links an artifact carries, as a read of links gives them: never the one to its type. */
  function Linkings(source: Iri, a: Artifact, schema: Schema): (found: seq<Linking>)
  {
    var own := Carried(a.body.values, schema.declares);
    seq(|own|, n requires 0 <= n < |own| =>
      Linking(source, own[n].field, own[n].place, own[n].target, own[n].part, Some(own[n].holder)))
  }

  function AsLinking(source: Iri, l: Stored): Linking
  {
    Linking(source, l.field, l.place, l.target, l.part, l.holder)
  }

  /** The links an artifact held is stored with, as a read of links gives them. */
  function StoredLinkings(source: Iri, links: seq<Stored>): (found: seq<Linking>)
  {
    if links == [] then []
    else
      var found := StoredLinkings(source, links[..|links| - 1]);
      var last := links[|links| - 1];
      if last.implicit then found else found + [AsLinking(source, last)]
  }

  lemma {:induction false} StoredLinkingsHold(source: Iri, links: seq<Stored>)
    ensures forall l :: l in links && !l.implicit ==> AsLinking(source, l) in StoredLinkings(source, links)
    ensures forall each :: each in StoredLinkings(source, links) ==>
      exists l :: l in links && !l.implicit && each == AsLinking(source, l)
  {
    if links != [] {
      StoredLinkingsHold(source, links[..|links| - 1]);
      assert links == links[..|links| - 1] + [links[|links| - 1]];
    }
  }

  /** The implicit link at the front changes what no link into a part is told by. */
  lemma ToldBehindTheImplicit(a: Artifact, schema: Schema, c: Corpus, waited: set<Told>, n: nat)
    requires n < |Carried(a.body.values, schema.declares)|
    requires Carried(a.body.values, schema.declares)[n].part != ""
    ensures var own := Carried(a.body.values, schema.declares);
      ToldAt(LinkKeys(HandedLinks(a, schema, c, waited)), n + 1) == ToldAt(ValueKeys(own), n)
  {
    var own := Carried(a.body.values, schema.declares);
    var keys := LinkKeys(HandedLinks(a, schema, c, waited));
    var first := Key("", Some(""), a.kind, "");
    hide Carried;
    assert keys[..n + 1] == [first] + ValueKeys(own)[..n];
    assert multiset([first] + ValueKeys(own)[..n]) == multiset{first} + multiset(ValueKeys(own)[..n]);
    assert keys[n + 1] == ValueKeys(own)[n];
  }

  predicate ReadsAs(source: Iri, l: Stored, each: Linking)
  {
    !l.implicit && each == AsLinking(source, l)
  }

  lemma {:induction false} HandedReadBackSoFar(
    source: Iri, stored: seq<Stored>, found: seq<Linking>, n: nat)
    requires |stored| == |found| + 1 && n <= |found|
    requires stored[0].implicit
    requires forall k :: 0 <= k < |found| ==> ReadsAs(source, stored[k + 1], found[k])
    ensures StoredLinkings(source, stored[..n + 1]) == found[..n]
  {
    if n > 0 {
      HandedReadBackSoFar(source, stored, found, n - 1);
      assert stored[..n + 1][..n] == stored[..n];
      assert found[..n] == found[..n - 1] + [found[n - 1]];
    } else {
      assert StoredLinkings(source, stored[..1][..0]) == [];
    }
  }

  /** Landed and read back, an artifact's links are those it carries, in the order it carries them. */
  lemma HandedReadBack(source: Iri, a: Artifact, schema: Schema, c: Corpus, waited: set<Told>)
    ensures StoredLinkings(source, StoreAll(HandedLinks(a, schema, c, waited))) == Linkings(source, a, schema)
  {
    var own := Carried(a.body.values, schema.declares);
    var stored, found := StoreAll(HandedLinks(a, schema, c, waited)), Linkings(source, a, schema);
    forall k | 0 <= k < |found|
      ensures ReadsAs(source, stored[k + 1], found[k])
    {
      assert stored[k + 1] == AsStored(HandedLink(own, k, schema.declares, c, waited));
    }
    HandedReadBackSoFar(source, stored, found, |found|);
    assert stored[..|found| + 1] == stored && found[..|found|] == found;
  }

  /** What `StoreAll` makes of `HandedLinks`, whatever those were handed with. */
  function AsCarried(a: Artifact, schema: Schema): (stored: seq<Stored>)
  {
    var own := Carried(a.body.values, schema.declares);
    [AsStored(Implicit(a.kind))] +
    seq(|own|, n requires 0 <= n < |own| => AsStored(AsLink(own[n], schema.declares[own[n].field])))
  }

  /** Whatever a link is handed with, it is stored as it is carried. */
  lemma HandedAreStoredAsCarried(a: Artifact, schema: Schema, c: Corpus, waited: set<Told>)
    ensures StoreAll(HandedLinks(a, schema, c, waited)) == AsCarried(a, schema)
  {
    var own := Carried(a.body.values, schema.declares);
    var stored, carried := StoreAll(HandedLinks(a, schema, c, waited)), AsCarried(a, schema);
    forall n | 0 < n < |stored|
      ensures stored[n] == carried[n]
    {
      assert HandedLinks(a, schema, c, waited)[n] == HandedLink(own, n - 1, schema.declares, c, waited);
    }
  }
}
