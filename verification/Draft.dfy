/** An overlay: a store with maps and sets laid over it, and the corpus the two answer for together. Every read of
    the overlay is shown to be a read of that corpus. */
module Draft {
  import opened Iris
  import opened PortValues
  import opened Landing
  import opened Composition
  import opened Links
  import Order

  datatype Overlay = Overlay(
    store: Store, pending: map<Iri, Artifact>, removed: set<Iri>, numbers: map<Iri, nat>,
    made: map<Named, Artifact>, gone: set<Iri>)

  function Fresh(s: Store): Overlay
  {
    Overlay(s, map[], {}, map[], map[], {})
  }

  /** Lays an artifact over an IRI, which is then not removed; a type goes into `made` as well. */
  function Put(d: Overlay, i: Iri, a: Artifact): Overlay
  {
    d.(removed := d.removed - {i}, pending := d.pending[i := a],
       made := if Typed(a) then d.made[Named(i, a.number) := a] else d.made)
  }

  /** Adds an IRI to `removed` and to `gone`, and clears `made` under it. */
  function Taken(d: Overlay, i: Iri): Overlay
  {
    d.(removed := d.removed + {i}, gone := d.gone + {i}, made := map v | v in d.made && v.of != i :: d.made[v])
  }

  predicate Holds(d: Overlay, i: Iri)
  {
    i !in d.removed && (i in d.pending || i in d.store.rows)
  }

  /** Whether an IRI is in one of the overlay's two layers, so the store's row there is not read. */
  predicate Touched(d: Overlay, i: Iri)
  {
    i in d.pending || i in d.removed
  }

  function ArtifactAt(d: Overlay, i: Iri): Artifact
    requires Holds(d, i)
  {
    if i in d.pending then d.pending[i] else d.store.rows[i].content
  }

  /** Looks a version up layer by layer: the pending type if its own number is asked for, then `made`, then the
      store's `kept`, which `gone` shuts off as `removed` shuts off all three. */
  function TypeVersion(d: Overlay, v: Named): (found: Option<Artifact>)
  {
    var stored := if v in d.store.kept then Some(d.store.kept[v]) else None;
    if v.of in d.removed then None
    else if v.of !in d.pending then stored
    else if Typed(d.pending[v.of]) && d.pending[v.of].number == v.number then Some(d.pending[v.of])
    else if v in d.made then Some(d.made[v])
    else if v.of in d.gone then None
    else stored
  }

  /** One more than `numbers` says, than the held artifact's number if that says nothing, or than 0 where nothing is
      held. */
  function NextNumber(d: Overlay, i: Iri): nat
  {
    if !Holds(d, i) then 1
    else 1 + if i in d.numbers && d.numbers[i] != 0 then d.numbers[i] else ArtifactAt(d, i).number
  }

  function Numbered(d: Overlay, i: Iri): Overlay
  {
    d.(numbers := d.numbers[i := NextNumber(d, i)])
  }

  // ---- the draft as a corpus

  function HeldBy(d: Overlay): (held: map<Iri, Artifact>)
  {
    map i | i in d.store.rows.Keys + d.pending.Keys && Holds(d, i) :: ArtifactAt(d, i)
  }

  function KeptBy(d: Overlay): (kept: map<Named, Artifact>)
  {
    map v | v in d.store.kept.Keys + d.made.Keys + (set i | i in d.pending :: Named(i, d.pending[i].number))
            && TypeVersion(d, v).Some? :: TypeVersion(d, v).value
  }

  function View(d: Overlay): Corpus
  {
    Corpus(HeldBy(d), KeptBy(d))
  }

  function StoreView(s: Store): Corpus
  {
    Corpus(map i | i in s.rows :: s.rows[i].content, s.kept)
  }

  /** What a draft's view answers is what its reads answer. */
  lemma ViewReads(d: Overlay)
    ensures forall i :: i in View(d).held <==> Holds(d, i)
    ensures forall i :: Holds(d, i) ==> View(d).held[i] == ArtifactAt(d, i)
    ensures forall v :: TypeVersion(d, v) == if v in View(d).kept then Some(View(d).kept[v]) else None
  {
  }

  lemma FreshView(s: Store)
    ensures View(Fresh(s)) == StoreView(s)
  {
    assert HeldBy(Fresh(s)) == StoreView(s).held;
    assert KeptBy(Fresh(s)) == s.kept;
  }

  /** What a draft keeps of itself, whatever is put and removed. */
  ghost predicate Sound(d: Overlay)
  {
    && d.removed <= d.gone <= d.removed + d.pending.Keys
    && (forall v :: v in d.made ==> v.of in d.pending && v.of !in d.removed && Typed(d.made[v]))
    && (forall i :: i in d.pending && i !in d.removed && Typed(d.pending[i]) ==>
         Named(i, d.pending[i].number) in d.made && d.made[Named(i, d.pending[i].number)] == d.pending[i])
  }

  lemma KeptIs(d: Overlay, kept: map<Named, Artifact>)
    requires forall v :: TypeVersion(d, v) == if v in kept then Some(kept[v]) else None
    ensures KeptBy(d) == kept
  {
    ViewReads(d);
  }

  lemma PutReads(d: Overlay, i: Iri, a: Artifact, v: Named)
    requires Sound(d)
    requires Typed(a) || (v.of == i ==> TypeVersion(d, v).None?)
    ensures TypeVersion(Put(d, i, a), v) ==
      if Typed(a) && v == Named(i, a.number) then Some(a) else TypeVersion(d, v)
  {
  }

  lemma TakenReads(d: Overlay, i: Iri, v: Named)
    requires Sound(d)
    ensures TypeVersion(Taken(d, i), v) == if v.of == i then None else TypeVersion(d, v)
  {
  }

  lemma PutHolds(d: Overlay, i: Iri, a: Artifact)
    ensures HeldBy(Put(d, i, a)) == HeldBy(d)[i := a]
  {
  }

  lemma PutSound(d: Overlay, i: Iri, a: Artifact)
    requires Sound(d)
    ensures Sound(Put(d, i, a))
    ensures HeldBy(Put(d, i, a)) == HeldBy(d)[i := a]
  {
    PutHolds(d, i, a);
    hide HeldBy;
  }

  lemma TakenSound(d: Overlay, i: Iri)
    requires Sound(d)
    ensures Sound(Taken(d, i))
    ensures HeldBy(Taken(d, i)) == HeldBy(d) - {i}
  {
  }

  /** Putting an artifact changes what is held at its IRI, and keeps a type's version beside those kept, as long as
      something that is no type is put only where no version is kept. */
  lemma PutView(d: Overlay, i: Iri, a: Artifact)
    requires Sound(d)
    requires Typed(a) || forall v: Named :: v.of == i ==> v !in KeptBy(d)
    ensures Sound(Put(d, i, a))
    ensures HeldBy(Put(d, i, a)) == HeldBy(d)[i := a]
    ensures KeptBy(Put(d, i, a)) == if Typed(a) then KeptBy(d)[Named(i, a.number) := a] else KeptBy(d)
  {
    PutSound(d, i, a);
    ViewReads(d);
    var kept := if Typed(a) then KeptBy(d)[Named(i, a.number) := a] else KeptBy(d);
    forall v
      ensures TypeVersion(Put(d, i, a), v) == if v in kept then Some(kept[v]) else None
    {
      PutReads(d, i, a, v);
    }
    KeptIs(Put(d, i, a), kept);
  }

  /** Taking an artifact out takes what is held at its IRI, and every version kept under it. */
  lemma TakenView(d: Overlay, i: Iri)
    requires Sound(d)
    ensures Sound(Taken(d, i))
    ensures HeldBy(Taken(d, i)) == HeldBy(d) - {i}
    ensures KeptBy(Taken(d, i)) == map v | v in KeptBy(d) && v.of != i :: KeptBy(d)[v]
  {
    TakenSound(d, i);
    ViewReads(d);
    var kept := map v | v in KeptBy(d) && v.of != i :: KeptBy(d)[v];
    forall v
      ensures TypeVersion(Taken(d, i), v) == if v in kept then Some(kept[v]) else None
    {
      TakenReads(d, i, v);
    }
    KeptIs(Taken(d, i), kept);
  }

  // ---- links, versions and names read over the store

  /** `Linkings` of a pending artifact by the schema the overlay answers for its version; [] when that answers
      nothing. */
  function PutLinks(d: Overlay, source: Iri): (found: seq<Linking>)
  {
    if source !in d.pending || source in d.removed then []
    else
      var own := Kept(View(d), Conforming(d.pending[source]));
      if own.None? then [] else Linkings(source, d.pending[source], own.value.schema)
  }

  /** `PutLinks` for an IRI touched, the stored links for any other. */
  function Carries(d: Overlay, source: Iri): (found: seq<Linking>)
  {
    if Touched(d, source) then PutLinks(d, source)
    else StoredLinkings(source, Landing.Links(d.store, source))
  }

  /** A list filtered to one target. */
  function Into(links: seq<Linking>, target: Iri): (found: seq<Linking>)
  {
    if links == [] then []
    else
      var found := Into(links[..|links| - 1], target);
      var last := links[|links| - 1];
      if last.target == target then found + [last] else found
  }

  lemma {:induction false} IntoHolds(links: seq<Linking>, target: Iri)
    ensures forall each :: each in Into(links, target) <==> each in links && each.target == target
  {
    if links != [] {
      IntoHolds(links[..|links| - 1], target);
      assert links == links[..|links| - 1] + [links[|links| - 1]];
    }
  }

  /** The `Into` of every held artifact's `Carries`, joined in the order `Order.Sorted` puts their IRIs in. */
  ghost function LinksIn(d: Overlay, target: Iri): (found: seq<Linking>)
  {
    Order.Listed(Order.Sorted(HeldBy(d).Keys), map i | i in HeldBy(d) :: Into(Carries(d, i), target))
  }

  ghost function StoreLinksIn(s: Store, target: Iri): (found: seq<Linking>)
  {
    Order.Listed(Order.Sorted(s.rows.Keys),
                 map i | i in s.rows :: Into(StoredLinkings(i, s.rows[i].links), target))
  }

  lemma LinksInHolds(d: Overlay, target: Iri)
    ensures forall each :: each in LinksIn(d, target) <==>
      Holds(d, each.source) && each in Carries(d, each.source) && each.target == target
  {
    var lists := map i | i in HeldBy(d) :: Into(Carries(d, i), target);
    Order.ListedHolds(Order.Sorted(HeldBy(d).Keys), lists);
    forall each
      ensures each in LinksIn(d, target) <==>
        Holds(d, each.source) && each in Carries(d, each.source) && each.target == target
    {
      if each in LinksIn(d, target) {
        var i :| i in Order.Sorted(HeldBy(d).Keys) && i in lists && each in lists[i];
        IntoHolds(Carries(d, i), target);
        CarriesItsOwn(d, i);
        assert each.source == i;
      }
      if Holds(d, each.source) && each in Carries(d, each.source) && each.target == target {
        IntoHolds(Carries(d, each.source), target);
        assert each.source in lists && each in lists[each.source];
      }
    }
  }

  lemma CarriesItsOwn(d: Overlay, source: Iri)
    ensures forall each :: each in Carries(d, source) ==> each.source == source
  {
    StoredLinkingsHold(source, Landing.Links(d.store, source));
  }

  /** Whether a link is one the draft reads as waiting on an IRI it does not hold: among the store's waiting links, but
      for what the draft changed. */
  predicate WaitingIn(d: Overlay, each: Linking)
  {
    && each in Carries(d, each.source) && !Holds(d, each.target)
    && (Touched(d, each.source) || Waits(d.store, each.target, each.part))
  }

  /** The IRIs of one kind in `pending` or in the store's rows, less the removed. */
  function Ids(d: Overlay, kind: Iri): (ids: set<Iri>)
  {
    ((set i | i in d.pending && d.pending[i].kind == kind) + (set i | i in d.store.rows && d.store.rows[i].kind == kind))
    - d.removed
  }

  /** The numbers under an IRI in `made`, and in the store's `kept` unless it is gone. */
  function VersionsOf(d: Overlay, i: Iri): (numbers: set<nat>)
  {
    if i in d.removed then {}
    else
      (if i in d.gone then {} else set v | v in d.store.kept && v.of == i :: v.number)
      + (set v | v in d.made && v.of == i :: v.number)
  }

  /** The stored row's parts less the pending content's; empty where either is missing. */
  function Dropped(d: Overlay, i: Iri): set<string>
  {
    if i !in d.pending || i in d.removed || i !in d.store.rows then {}
    else d.store.rows[i].content.body.parts - d.pending[i].body.parts
  }

  /** Each type given that the draft leaves as the store holds it, with the revision it was read at. */
  function AsRead(d: Overlay, types: seq<Iri>): (read: seq<(Iri, nat)>)
    ensures forall each :: each in read <==>
      each.0 in types && !Touched(d, each.0) && each.0 in d.store.rows && Typed(d.store.rows[each.0].content)
      && each.1 == d.store.rows[each.0].content.revision
  {
    if types == [] then []
    else
      var read := AsRead(d, types[..|types| - 1]);
      var t := types[|types| - 1];
      assert types == types[..|types| - 1] + [t];
      if !Touched(d, t) && t in d.store.rows && Typed(d.store.rows[t].content) then
        read + [(t, d.store.rows[t].content.revision)]
      else read
  }
}
