/** Sets of one operation, drafted and landed where nothing links to anything but its type: what the examples are made
    of. */
module OneOperation {
  import opened Iris
  import opened PortValues
  import opened Landing
  import opened Composition
  import opened Links
  import opened Draft
  import opened Drafting
  import opened Invariants
  import opened Runs

  lemma EmptyOrHolding<T>(s: seq<T>)
    ensures s == [] || exists each :: each in s
  {
    if s != [] {
      assert s[0] in s;
    }
  }

  lemma OneActs(s: Store, op: Operation, e: Overlay, act: Act)
    requires Acted(Draft.Fresh(s), op) == Some((e, act))
    ensures Applied(s, [op]) == Some((e, [act]))
  {
    hide Acted;
    assert [op][..0] == [] && Applied(s, []) == Some((Draft.Fresh(s), [])) && [] + [act] == [act];
  }

  lemma OneIsDrafted(s: Store, op: Operation, d: Overlay, act: Act, c: Change)
    requires Applied(s, [op]) == Some((d, [act])) && Faultless(d, act) && KeptWhole(d, [act])
    requires act.left.Some? ==> TypedFor(d, act).Some?
    requires Guarded(d, HandedOver(d, [act], 0)) == c && !HeldBelow(d, HandedOver(d, [act], 0))
    ensures DraftSet(s, [op]) == Drafted(d, [act], [c], RemovesAType(act) || DefinesAType(act))
  {
    hide Applied, Faultless, KeptWhole, HandedOver, Guarded, HeldBelow, TypedFor, RemovesAType, DefinesAType;
    assert [act][0] == act;
    assert HandedAll(d, [act]).handed == [c];
  }

  /** A change that leaves nothing open, or nothing at all, is handed as it is. */
  lemma NothingOpen(d: Overlay, c: Change)
    requires forall i :: !Open(c, i)
    ensures Guarded(d, c) == c && !HeldBelow(d, c)
  {
    EmptyOrHolding(OpenIn(c));
    assert c.through + [] == c.through;
  }

  lemma OneIsWritten(t: Store, c: Change)
    requires Rev(t, c.artifact) == c.read && !Clashes(t, c)
    ensures WriteAll(t, [c]) == Landed(Write(t, c))
    ensures Changed([c]) == {c.artifact} && [c][LastAt([c], c.artifact)] == c
  {
    hide Write, Clashes;
    assert [c][..0] == [] && [c][0] == c;
    assert WriteAll(t, []) == Landed(t);
  }

  /** One change that may land, landed. */
  lemma OneLands(t: Store, c: Change)
    requires Rev(t, c.artifact) == c.read && !Clashes(t, c)
    requires forall each :: each in c.through ==> Rev(t, each.0) == each.1
    requires ChangeLands(t, Write(t, c), c) && !SeversAny(t, Write(t, c), {c.artifact})
    ensures Land(t, [c], []) == Landed(Write(t, c).(landings := t.landings + 1))
  {
    OneIsWritten(t, c);
    hide Write, Clashes, ChangeLands, SeversAny, WriteAll;
    assert Unmoved(t, [c]) && !IdsTaken(t, []) && t.entries + [] == t.entries;
    assert Write(t, c).landings == t.landings && Write(t, c).entries == t.entries by {
      WritingLeaves(t, [c]);
    }
    assert AllLand(t, Write(t, c), [c]);
  }

  // ---- where nothing links

  /** A store whose artifacts link only to their types. */
  predicate Unlinked(s: Store)
  {
    forall i, l :: i in s.rows && l in s.rows[i].links ==> l.implicit
  }

  lemma {:induction false} NoLinkings(i: Iri, links: seq<Stored>)
    requires forall l :: l in links ==> l.implicit
    ensures StoredLinkings(i, links) == []
  {
    if links != [] {
      NoLinkings(i, links[..|links| - 1]);
    }
  }

  lemma {:induction false} NoneWait(s: Store, links: seq<Stored>)
    requires forall l :: l in links ==> l.implicit
    ensures WaitingKeys(s, links) == []
  {
    if links != [] {
      NoneWait(s, links[..|links| - 1]);
    }
  }

  lemma NothingWaits(s: Store, i: Iri)
    requires Unlinked(s)
    ensures HeldWaiting(s, i) == {}
  {
    NoneWait(s, Landing.Links(s, i));
  }

  /** A draft that put nothing, over such a store, reads no link. */
  lemma NothingCarried(d: Overlay, i: Iri)
    requires Unlinked(d.store) && d.pending == map[]
    ensures Carries(d, i) == []
  {
    NoLinkings(i, Landing.Links(d.store, i));
  }

  lemma RemovedUnlinked(d: Overlay, act: Act)
    requires Unlinked(d.store) && d.pending == map[] && act.left.None?
    requires forall reader :: !ReadsType(d, reader, act.id)
    ensures Faultless(d, act) && KeptWhole(d, [act])
  {
    forall i
      ensures Carries(d, i) == []
    {
      NothingCarried(d, i);
    }
    LinksInHolds(d, act.id);
    hide ReadsType, LinksIn, NearestWas, View;
    assert forall each :: each !in LinksIn(d, act.id);
  }

  lemma OneIsCarried(v: Value, declares: map<string, Ref>)
    requires v.field in declares
    ensures Carried([v], declares) == [v]
  {
    assert [v][..0] == [] && Carried([], declares) == [];
  }

  lemma NoneIsCarried(declares: map<string, Ref>)
    ensures Carried([], declares) == []
  {
  }

  /** An artifact of one link is accepted as that link is. */
  lemma AcceptedByOne(d: Overlay, act: Act, declares: map<string, Ref>, v: Value)
    requires act.left.Some? && TypedFor(d, act).Some? && TypedFor(d, act).value.declares == declares
    requires act.left.value.body.values == [v] && v.field in declares
    ensures LinksAccepted(d, act) <==> Accepted(View(d), [v], 0, declares, HeldWaiting(d.store, act.id))
  {
    OneIsCarried(v, declares);
    hide Accepted;
  }

  /** One of no link is accepted. */
  lemma AcceptedByNone(d: Overlay, act: Act)
    requires act.left.Some? && TypedFor(d, act).Some? && act.left.value.body.values == []
    ensures LinksAccepted(d, act)
  {
    NoneIsCarried(TypedFor(d, act).value.declares);
  }

  /** A change whose artifact links to its type alone lands where that is a type. */
  lemma ImplicitAloneLands(t: Store, c: Change, kind: Iri)
    requires c.links == [Implicit(kind)] && kind in Write(t, c).rows && Write(t, c).rows[kind].kind == TYPES
    ensures ChangeLands(t, Write(t, c), c)
  {
    hide Write, HeldWaiting, ToldAt;
    assert Implicit(kind).kinds == {TYPES};
  }

  /** Nothing is severed of an artifact nothing links to. */
  lemma SeversNone(t: Store, c: Change)
    requires forall i, l :: i in t.rows && l in t.rows[i].links ==> l.target != c.artifact
    ensures !SeversAny(t, Write(t, c), {c.artifact})
  {
    forall i, l | i in Write(t, c).rows && l in Write(t, c).rows[i].links
      ensures !Severs(t, Write(t, c), {c.artifact}, i, l)
    {
    }
  }

  // ---- a type defined, and an artifact made

  const ANY: Body -> bool := b => true
  const NONE := Schema(map[], [], true, ANY)
  const BARE := Body("", [], {})

  /** A type at its first version. */
  function AType(schema: Schema): Artifact
  {
    Artifact(TYPES, 1, 1, BARE, 1, schema)
  }

  function ToKind(kind: Iri): seq<Stored>
  {
    [AsStored(Implicit(kind))]
  }

  /** A row of kind TYPES at revision 1, kept as number 1. */
  ghost predicate HoldsType(s: Store, i: Iri, schema: Schema)
  {
    && i in s.rows && s.rows[i].content == AType(schema) && s.rows[i].kind == TYPES && s.rows[i].revision == 1
    && Named(i, 1) in s.kept && s.kept[Named(i, 1)] == AType(schema)
  }

  /** A store of nothing but types, linking to nothing but theirs and reading no other. */
  ghost predicate OnlyTypes(s: Store)
  {
    && HoldsType(s, TYPES, NONE)
    && (forall i, l :: i in s.rows && l in s.rows[i].links ==> l == AsStored(Implicit(TYPES)))
    && (forall i :: i in s.rows ==> s.rows[i].kind == s.rows[i].content.kind == TYPES)
    && (forall v :: v in s.kept ==> v.of in s.rows && s.kept[v].schema.refers == [])
  }

  lemma OnlyTypesIsUnlinked(s: Store)
    requires OnlyTypes(s)
    ensures Unlinked(s)
  {
  }

  const STARTED := Store(map[TYPES := Row(TYPES, 1, AType(NONE), {}, [], 0)], map[Named(TYPES, 1) := AType(NONE)],
                         [Entry("0-0", "0")], 1)

  lemma StoresStart()
    ensures OnlyTypes(STARTED) && Metaschema(AType(NONE)) && Started(AType(NONE), Entry("0-0", "0")) == Landed(STARTED)
  {
    var c := Change(TYPES, Some(AType(NONE)), [], {}, 0, 1, [], TYPES, Some(1));
    OneIsWritten(EMPTY, c);
    StartedKeeps(AType(NONE), Entry("0-0", "0"));
    assert StoreAll([]) == [];
    assert Write(EMPTY, c).rows == STARTED.rows && Write(EMPTY, c).kept == STARTED.kept;
    assert [] + [Entry("0-0", "0")] == [Entry("0-0", "0")];
  }

  function Defining(name: Iri, schema: Schema): Operation
  {
    Create(name, Named(TYPES, 1), false, false, any => Some(BARE), schema)
  }

  function Defined(s: Store, name: Iri, schema: Schema): Store
  {
    s.(rows := s.rows[name := Row(TYPES, 1, AType(schema), {}, ToKind(TYPES), s.landings)],
       kept := s.kept[Named(name, 1) := AType(schema)], landings := s.landings + 1)
  }

  /** A type may be defined anywhere in a store of nothing but types. */
  lemma NoPlaceTaken(s: Store, name: Iri)
    requires OnlyTypes(s)
    ensures !PlaceTaken(Draft.Fresh(s), name)
  {
    var d := Draft.Fresh(s);
    OnlyTypesIsUnlinked(s);
    forall other, i
      ensures !Belongs(d, name, other, i)
    {
      forall each: Linking
        ensures each !in Carries(d, each.source)
      {
        NothingCarried(d, each.source);
      }
    }
  }

  function DefinedIn(s: Store, name: Iri, schema: Schema): Overlay
  {
    Put(Numbered(Draft.Fresh(s), name), name, AType(schema))
  }

  function DefinedAs(name: Iri, schema: Schema): Act
  {
    Act(true, name, 1, Named(TYPES, 1), Some(AType(schema)), NONE)
  }

  function DefinedBy(name: Iri, schema: Schema): Change
  {
    Change(name, Some(AType(schema)), [Implicit(TYPES)], {}, 0, 1, [(TYPES, 1)], TYPES, Some(1))
  }

  lemma HeldTypeReads(d: Overlay, kind: Iri, schema: Schema)
    requires HoldsType(d.store, kind, schema) && kind !in d.pending && d.removed == {} && d.gone == {}
    ensures SchemaOf(d, Named(kind, 1)) == Some(schema) && TypedAt(View(d), kind)
    ensures AsRead(d, [kind]) == [(kind, 1)]
  {
    ViewReads(d);
    assert ArtifactAt(d, kind) == AType(schema) && TypeVersion(d, Named(kind, 1)) == Some(AType(schema));
    hide View;
    assert [kind][..0] == [] && AsRead(d, []) == [];
  }

  lemma DefiningActs(s: Store, name: Iri, schema: Schema)
    requires OnlyTypes(s) && name !in s.rows
    ensures Acted(Draft.Fresh(s), Defining(name, schema)) == Some((DefinedIn(s, name, schema), DefinedAs(name, schema)))
  {
    NoPlaceTaken(s, name);
    HeldTypeReads(Draft.Fresh(s), TYPES, NONE);
    hide View, SchemaOf, PlaceTaken, HoldsType, NearestType;
  }

  /** What an artifact that links to its type alone is handed over as. */
  lemma AloneIsHanded(d: Overlay, act: Act, a: Artifact, schema: Schema, c: Change)
    requires act.left == Some(a) && act.revision == 1 && a.body.values == [] && TypedFor(d, act) == Some(schema)
    requires schema.refers == [] && (Typed(a) ==> a.schema.refers == []) && AsRead(d, [a.kind]) == [(a.kind, 1)]
    requires Typed(a) || Between(act.id, a.kind) == []
    requires c == Change(act.id, Some(a), [Implicit(a.kind)], a.body.parts, 0, 1, [(a.kind, 1)], a.kind,
                         if Typed(a) then Some(a.number) else None)
    ensures Guarded(d, HandedOver(d, [act], 0)) == c && !HeldBelow(d, HandedOver(d, [act], 0))
  {
    hide TypedFor, View, AsRead, HeldWaiting;
    NoneIsCarried(schema.declares);
    assert HandedLinks(a, schema, View(d), HeldWaiting(d.store, act.id)) == [Implicit(a.kind)];
    assert ReadThrough(a.kind, [], View(d)) == [a.kind] && ReadThrough(TYPES, [], View(d)) == [TYPES];
    assert ReadByTheVersionMade(d, a) == [] && [a.kind] + [] == [a.kind];
    assert IsLast([act], 0);
    assert HandedOver(d, [act], 0) == c;
    NothingOpen(d, c);
  }

  /** It has no fault, if its content fits. */
  lemma AloneIsFaultless(d: Overlay, act: Act, a: Artifact, schema: Schema)
    requires act.left == Some(a) && a.body.values == [] && TypedFor(d, act) == Some(schema) && schema.fits(a.body)
    requires Typed(a) ==> a.schema.sound && a.schema.refers == []
    requires Dropped(d, act.id) == {}
    ensures Faultless(d, act) && KeptWhole(d, [act])
  {
    hide TypedFor, View, LinksAccepted, LinksIn, Dropped;
    AcceptedByNone(d, act);
  }

  lemma DefiningIsDrafted(s: Store, name: Iri, schema: Schema)
    requires OnlyTypes(s) && name !in s.rows && schema.sound && schema.refers == []
    ensures DraftSet(s, [Defining(name, schema)])
      == Drafted(DefinedIn(s, name, schema), [DefinedAs(name, schema)], [DefinedBy(name, schema)], true)
  {
    var d, act := DefinedIn(s, name, schema), DefinedAs(name, schema);
    DefiningActs(s, name, schema);
    HeldTypeReads(d, TYPES, NONE);
    assert Holds(d, name) && TypedFor(d, act) == Some(NONE) && Dropped(d, name) == {};
    assert DefinesAType(act);
    hide DefinedIn, Acted, Applied, View, TypedFor, SchemaOf, AsRead, OnlyTypes, HandedOver, Guarded, HeldBelow, DraftSet;
    hide Faultless, KeptWhole, Dropped;
    AloneIsHanded(d, act, AType(schema), NONE, DefinedBy(name, schema));
    AloneIsFaultless(d, act, AType(schema), NONE);
    OneActs(s, Defining(name, schema), d, act);
    OneIsDrafted(s, Defining(name, schema), d, act, DefinedBy(name, schema));
  }

  lemma DefiningLands(s: Store, name: Iri, schema: Schema)
    requires OnlyTypes(s) && name !in s.rows && schema.sound && schema.refers == []
    ensures Land(s, [DefinedBy(name, schema)], []) == Landed(Defined(s, name, schema))
    ensures OnlyTypes(Defined(s, name, schema)) && HoldsType(Defined(s, name, schema), name, schema)
  {
    var c := DefinedBy(name, schema);
    ImplicitAloneLands(s, c, TYPES);
    NotHeldSeversNone(s, c);
    OneLands(s, c);
    assert StoreAll([Implicit(TYPES)]) == ToKind(TYPES);
  }

  /** A type held at another IRI is held still. */
  lemma DefinedKeepsType(s: Store, name: Iri, schema: Schema, i: Iri, own: Schema)
    requires HoldsType(s, i, own) && i != name
    ensures HoldsType(Defined(s, name, schema), i, own)
  {
  }

  lemma NotHeldSeversNone(s: Store, c: Change)
    requires c.artifact !in s.rows
    ensures !SeversAny(s, Write(s, c), {c.artifact})
  {
  }

  function Making(name: Iri, kind: Iri, body: Body): Operation
  {
    Create(name, Named(kind, 1), false, false, any => Some(body), NONE)
  }

  function AnArtifact(kind: Iri, body: Body): Artifact
  {
    Artifact(kind, 1, 1, body, 0, NONE)
  }

  function Made(s: Store, name: Iri, kind: Iri, body: Body): Store
  {
    s.(rows := s.rows[name := Row(kind, 1, AnArtifact(kind, body), body.parts, ToKind(kind), s.landings)],
       landings := s.landings + 1)
  }

  function MadeIn(s: Store, name: Iri, kind: Iri, body: Body): Overlay
  {
    Put(Draft.Fresh(s), name, AnArtifact(kind, body))
  }

  function MadeAs(name: Iri, kind: Iri, body: Body, schema: Schema): Act
  {
    Act(true, name, 1, Named(kind, 1), Some(AnArtifact(kind, body)), schema)
  }

  function MadeBy(name: Iri, kind: Iri, body: Body): Change
  {
    Change(name, Some(AnArtifact(kind, body)), [Implicit(kind)], body.parts, 0, 1, [(kind, 1)], kind, None)
  }

  lemma MakingActs(s: Store, name: Iri, kind: Iri, body: Body, schema: Schema)
    requires HoldsType(s, kind, schema) && kind != TYPES && Parent(name) == Some(kind) && name !in s.rows
    ensures Acted(Draft.Fresh(s), Making(name, kind, body))
      == Some((MadeIn(s, name, kind, body), MadeAs(name, kind, body, schema)))
  {
    HeldTypeReads(Draft.Fresh(s), kind, schema);
    hide View, SchemaOf, HoldsType;
  }

  /** What the draft reads of what it makes, and of the type it makes it of. */
  lemma MadeReads(s: Store, name: Iri, kind: Iri, body: Body, schema: Schema)
    requires HoldsType(s, kind, schema) && kind != name && name !in s.rows
    ensures var d := MadeIn(s, name, kind, body);
      && d.store == s && AsRead(d, [kind]) == [(kind, 1)] && Dropped(d, name) == {} && Holds(d, name)
      && TypedFor(d, MadeAs(name, kind, body, schema)) == Some(schema)
  {
    HeldTypeReads(MadeIn(s, name, kind, body), kind, schema);
    hide View, SchemaOf, HoldsType, AsRead;
  }

  lemma MakingIsDrafted(s: Store, name: Iri, kind: Iri, body: Body, schema: Schema)
    requires HoldsType(s, kind, schema) && kind != TYPES && Parent(name) == Some(kind) && name !in s.rows
    requires body.values == [] && schema.fits(body) && schema.refers == []
    ensures DraftSet(s, [Making(name, kind, body)])
      == Drafted(MadeIn(s, name, kind, body), [MadeAs(name, kind, body, schema)], [MadeBy(name, kind, body)], false)
  {
    var d, act, a := MadeIn(s, name, kind, body), MadeAs(name, kind, body, schema), AnArtifact(kind, body);
    MakingActs(s, name, kind, body, schema);
    MadeReads(s, name, kind, body, schema);
    assert !DefinesAType(act) && !RemovesAType(act) && Between(name, kind) == [];
    hide MadeIn, Acted, Applied, View, TypedFor, SchemaOf, AsRead, HandedOver, Guarded, HeldBelow, DraftSet;
    hide Faultless, KeptWhole, Dropped;
    AloneIsHanded(d, act, a, schema, MadeBy(name, kind, body));
    AloneIsFaultless(d, act, a, schema);
    OneActs(s, Making(name, kind, body), d, act);
    OneIsDrafted(s, Making(name, kind, body), d, act, MadeBy(name, kind, body));
  }

  lemma MakingLands(s: Store, name: Iri, kind: Iri, body: Body, schema: Schema)
    requires HoldsType(s, kind, schema) && kind != name && name !in s.rows && Unlinked(s)
    ensures Land(s, [MadeBy(name, kind, body)], []) == Landed(Made(s, name, kind, body))
    ensures Unlinked(Made(s, name, kind, body))
  {
    var c := MadeBy(name, kind, body);
    ImplicitAloneLands(s, c, kind);
    NotHeldSeversNone(s, c);
    OneLands(s, c);
    assert StoreAll([Implicit(kind)]) == ToKind(kind);
  }

  lemma MadeKeepsType(s: Store, name: Iri, kind: Iri, body: Body, i: Iri, own: Schema)
    requires HoldsType(s, i, own) && i != name
    ensures HoldsType(Made(s, name, kind, body), i, own)
  {
  }

  // ---- a type removed

  function Removing(name: Iri): Operation
  {
    Remove(name, None, true)
  }

  function Without(s: Store, name: Iri): Store
  {
    s.(rows := s.rows - {name}, kept := map v | v in s.kept && v.of != name :: s.kept[v], landings := s.landings + 1)
  }

  function RemovedAs(name: Iri, schema: Schema): Act
  {
    Act(false, name, 2, Named(TYPES, 1), None, schema)
  }

  function RemovedBy(name: Iri): Change
  {
    Change(name, None, [], {}, 1, 2, [], TYPES, None)
  }

  lemma NothingReads(s: Store, name: Iri, reader: Iri)
    requires OnlyTypes(s)
    ensures !ReadsType(Taken(Draft.Fresh(s), name), reader, name)
  {
    var d := Taken(Draft.Fresh(s), name);
    assert forall v :: TypeVersion(d, v).Some? ==> v in s.kept && TypeVersion(d, v).value == s.kept[v];
  }

  lemma RemovingIsDrafted(s: Store, name: Iri, schema: Schema)
    requires OnlyTypes(s) && HoldsType(s, name, schema)
    ensures DraftSet(s, [Removing(name)])
      == Drafted(Taken(Draft.Fresh(s), name), [RemovedAs(name, schema)], [RemovedBy(name)], true)
  {
    var d, act, c := Taken(Draft.Fresh(s), name), RemovedAs(name, schema), RemovedBy(name);
    assert Acted(Draft.Fresh(s), Removing(name)) == Some((d, act));
    OnlyTypesIsUnlinked(s);
    forall reader
      ensures !ReadsType(d, reader, name)
    {
      NothingReads(s, name, reader);
    }
    assert d.store == s && d.pending == map[] && RemovesAType(act) && HandedOver(d, [act], 0) == c;
    hide Acted, Applied, Faultless, KeptWhole, HandedOver, Guarded, HeldBelow, DraftSet, ReadsType, Taken, OnlyTypes;
    NothingOpen(d, c);
    OneActs(s, Removing(name), d, act);
    RemovedUnlinked(d, act);
    OneIsDrafted(s, Removing(name), d, act, c);
  }

  lemma RemovingLands(s: Store, name: Iri, schema: Schema)
    requires OnlyTypes(s) && HoldsType(s, name, schema) && name != TYPES
    ensures Land(s, [RemovedBy(name)], []) == Landed(Without(s, name))
    ensures Unlinked(Without(s, name))
  {
    var c := RemovedBy(name);
    SeversNone(s, c);
    OneLands(s, c);
    assert Write(s, c).(landings := s.landings + 1) == Without(s, name);
  }

  lemma WithoutKeepsType(s: Store, name: Iri, i: Iri, own: Schema)
    requires HoldsType(s, i, own) && i != name
    ensures HoldsType(Without(s, name), i, own)
  {
  }

  /** A type removed and an artifact of another made at its IRI, at the revision the type stood at. */
  lemma RemovedAndMade(s: Store, name: Iri, kind: Iri, other: Iri, own: Schema)
    requires OnlyTypes(s) && HoldsType(s, name, NONE) && HoldsType(s, kind, NONE) && HoldsType(s, other, own)
    requires name != kind && name != other && name != TYPES
    ensures var (u, v) := (Without(s, name), Made(Without(s, name), name, kind, BARE));
      && Land(s, [RemovedBy(name)], []) == Landed(u) && Land(u, [MadeBy(name, kind, BARE)], []) == Landed(v)
      && HoldsType(u, kind, NONE) && HoldsType(v, kind, NONE) && HoldsType(v, other, own) && name !in u.rows
      && v.rows.Keys == s.rows.Keys && v.rows[name].content == AnArtifact(kind, BARE) && v.landings == s.landings + 2
  {
    assert name in s.rows;
    var u := Without(s, name);
    assert Made(u, name, kind, BARE).rows.Keys == s.rows.Keys && name !in u.rows;
    hide OnlyTypes, HoldsType, Land, RemovedBy, MadeBy, Unlinked;
    RemovingLands(s, name, NONE);
    WithoutKeepsType(s, name, kind, NONE);
    WithoutKeepsType(s, name, other, own);
    MakingLands(u, name, kind, BARE, NONE);
    MadeKeepsType(u, name, kind, BARE, kind, NONE);
    MadeKeepsType(u, name, kind, BARE, other, own);
  }

  // ---- one after another

  /** A set of one operation drafted and landed while the write lock is held. */
  lemma LockedStep(w: World, op: Operation, d: Overlay, act: Act, c: Change, locked: bool, t: Store)
    requires DraftSet(w.store, [op]) == Drafted(d, [act], [c], locked) && Land(w.store, [c], []) == Landed(t)
    requires op.Create? || op.Revise? || op.Remove?
    ensures Next(w, LandsLocked([op], []), World(t, w.attempts))
  {
    hide DraftSet, Land;
    assert OfOneSort([op]);
  }

  /** A set drafted by the one client there is. */
  lemma DraftsStep(s: Store, ops: seq<Operation>)
    requires OfOneSort(ops) && DraftSet(s, ops).Drafted?
    ensures Next(World(s, map[]), Drafts(1, ops), World(s, map[1 := Attempt(s, ops)]))
  {
    hide DraftSet, OfOneSort;
    var none: map<nat, Attempt> := map[];
    assert none[1 := Attempt(s, ops)] == map[1 := Attempt(s, ops)];
  }

  lemma DefiningStep(s: Store, name: Iri, schema: Schema)
    requires OnlyTypes(s) && name !in s.rows && schema.sound && schema.refers == []
    ensures Next(World(s, map[]), LandsLocked([Defining(name, schema)], []), World(Defined(s, name, schema), map[]))
  {
    hide OnlyTypes, DraftSet, Land, Next, DefinedIn, DefinedAs, DefinedBy;
    DefiningIsDrafted(s, name, schema);
    DefiningLands(s, name, schema);
    LockedStep(World(s, map[]), Defining(name, schema), DefinedIn(s, name, schema), DefinedAs(name, schema),
               DefinedBy(name, schema), true, Defined(s, name, schema));
  }

  lemma RemovingStep(s: Store, name: Iri, schema: Schema, attempts: map<nat, Attempt>)
    requires OnlyTypes(s) && HoldsType(s, name, schema) && name != TYPES
    ensures Next(World(s, attempts), LandsLocked([Removing(name)], []), World(Without(s, name), attempts))
  {
    hide OnlyTypes, HoldsType, DraftSet, Land, Next, RemovedAs, RemovedBy, Taken, Without;
    RemovingIsDrafted(s, name, schema);
    RemovingLands(s, name, schema);
    LockedStep(World(s, attempts), Removing(name), Taken(Draft.Fresh(s), name), RemovedAs(name, schema),
               RemovedBy(name), true, Without(s, name));
  }

  lemma MakingStep(s: Store, name: Iri, kind: Iri, body: Body, schema: Schema, attempts: map<nat, Attempt>)
    requires HoldsType(s, kind, schema) && kind != TYPES && Parent(name) == Some(kind) && name !in s.rows && Unlinked(s)
    requires body.values == [] && schema.fits(body) && schema.refers == [] && kind != name
    ensures Next(World(s, attempts), LandsLocked([Making(name, kind, body)], []),
                 World(Made(s, name, kind, body), attempts))
  {
    hide HoldsType, DraftSet, Land, Next, MadeAs, MadeBy, MadeIn, Made, Unlinked;
    MakingIsDrafted(s, name, kind, body, schema);
    MakingLands(s, name, kind, body, schema);
    LockedStep(World(s, attempts), Making(name, kind, body), MadeIn(s, name, kind, body),
               MadeAs(name, kind, body, schema), MadeBy(name, kind, body), false, Made(s, name, kind, body));
  }

  // ---- an artifact revised

  /** Whatever an artifact holds, another content. */
  function Rewriting(body: Body): (Artifact, Schema) -> Option<(Body, Schema)>
  {
    (current: Artifact, schema: Schema) => Some((body, NONE))
  }

  function Revising(name: Iri, body: Body): Operation
  {
    Revise(name, None, None, Rewriting(body))
  }

  function At(kind: Iri, body: Body, n: nat): Artifact
  {
    Artifact(kind, 1, n, body, 0, NONE)
  }

  /** An artifact held at a revision, of the first version of its type. */
  ghost predicate HoldsAt(s: Store, name: Iri, kind: Iri, body: Body, n: nat)
  {
    && name in s.rows && s.rows[name].content == At(kind, body, n)
    && s.rows[name].kind == kind && s.rows[name].revision == n && s.rows[name].parts == body.parts
  }

  lemma MadeIsHeld(s: Store, name: Iri, kind: Iri, body: Body)
    ensures HoldsAt(Made(s, name, kind, body), name, kind, body, 1)
  {
  }

  lemma MadeKeepsAt(s: Store, name: Iri, kind: Iri, body: Body, i: Iri, its: Iri, own: Body, n: nat)
    requires HoldsAt(s, i, its, own, n) && i != name
    ensures HoldsAt(Made(s, name, kind, body), i, its, own, n)
  {
  }

  function RevisedTo(s: Store, name: Iri, kind: Iri, body: Body, n: nat): Store
    requires name in s.rows
  {
    s.(rows := s.rows[name := Row(kind, n, At(kind, body, n), body.parts, ToKind(kind), s.rows[name].born)],
       landings := s.landings + 1)
  }

  function RevisedIn(s: Store, name: Iri, kind: Iri, body: Body, n: nat): Overlay
  {
    Put(Draft.Fresh(s), name, At(kind, body, n))
  }

  function RevisedAs(name: Iri, kind: Iri, body: Body, n: nat, schema: Schema): Act
  {
    Act(false, name, n, Named(kind, 1), Some(At(kind, body, n)), schema)
  }

  function RevisedBy(name: Iri, kind: Iri, body: Body, n: nat): Change
    requires n > 0
  {
    Change(name, Some(At(kind, body, n)), [Implicit(kind)], body.parts, n - 1, n, [(kind, 1)], kind, None)
  }

  lemma RevisingActs(s: Store, name: Iri, kind: Iri, body: Body, was: Body, n: nat, schema: Schema)
    requires HoldsType(s, kind, schema) && kind != TYPES && n > 1 && HoldsAt(s, name, kind, was, n - 1)
    ensures Acted(Draft.Fresh(s), Revising(name, body))
      == Some((RevisedIn(s, name, kind, body, n), RevisedAs(name, kind, body, n, schema)))
  {
    HeldTypeReads(Draft.Fresh(s), kind, schema);
    hide View, SchemaOf, HoldsType;
  }

  lemma {:induction false} NoneLeft(i: Iri, a: Artifact, schema: Schema)
    requires a.body.values == []
    ensures Linkings(i, a, schema) == []
  {
    NoneIsCarried(schema.declares);
  }

  /** A draft of one artifact that carries no link, over a store that holds none, reads none. */
  lemma NoneCarriedByOne(d: Overlay, name: Iri, i: Iri)
    requires Unlinked(d.store) && d.pending.Keys == {name} && d.pending[name].body.values == []
    ensures Carries(d, i) == []
  {
    NoLinkings(i, Landing.Links(d.store, i));
    if i == name {
      var own := Kept(View(d), Conforming(d.pending[name]));
      if own.Some? {
        NoneLeft(name, d.pending[name], own.value.schema);
      }
    }
    hide View;
  }

  lemma NothingIsDropped(d: Overlay, act: Act)
    requires Unlinked(d.store) && d.pending.Keys == {act.id} && d.pending[act.id].body.values == []
    ensures KeptWhole(d, [act])
  {
    forall i
      ensures Carries(d, i) == []
    {
      NoneCarriedByOne(d, act.id, i);
    }
    LinksInHolds(d, act.id);
    hide LinksIn, Dropped;
  }

  lemma RevisedReads(s: Store, name: Iri, kind: Iri, body: Body, n: nat, schema: Schema)
    requires HoldsType(s, kind, schema) && kind != name && name in s.rows
    ensures var d := RevisedIn(s, name, kind, body, n);
      && d.store == s && AsRead(d, [kind]) == [(kind, 1)] && Holds(d, name)
      && TypedFor(d, RevisedAs(name, kind, body, n, schema)) == Some(schema)
  {
    HeldTypeReads(RevisedIn(s, name, kind, body, n), kind, schema);
    hide View, SchemaOf, HoldsType, AsRead;
  }

  lemma RevisedIsHanded(d: Overlay, name: Iri, kind: Iri, body: Body, n: nat, schema: Schema)
    requires n > 1
    requires TypedFor(d, RevisedAs(name, kind, body, n, schema)) == Some(schema) && AsRead(d, [kind]) == [(kind, 1)]
    requires body.values == [] && schema.refers == [] && kind != TYPES
    ensures var plain := HandedOver(d, [RevisedAs(name, kind, body, n, schema)], 0);
      Guarded(d, plain) == RevisedBy(name, kind, body, n) && !HeldBelow(d, plain)
  {
    var act, c := RevisedAs(name, kind, body, n, schema), RevisedBy(name, kind, body, n);
    hide TypedFor, View, AsRead, HeldWaiting;
    NoneIsCarried(schema.declares);
    assert HandedLinks(At(kind, body, n), schema, View(d), HeldWaiting(d.store, name)) == [Implicit(kind)];
    assert ReadThrough(kind, [], View(d)) == [kind] && [kind] + [] == [kind] && IsLast([act], 0);
    assert HandedOver(d, [act], 0) == c;
    NothingOpen(d, c);
  }

  lemma RevisingIsDrafted(s: Store, name: Iri, kind: Iri, body: Body, was: Body, n: nat, schema: Schema)
    requires HoldsType(s, kind, schema) && kind != TYPES && n > 1 && HoldsAt(s, name, kind, was, n - 1) && Unlinked(s) && kind != name
    requires body.values == [] && schema.fits(body) && schema.refers == []
    ensures DraftSet(s, [Revising(name, body)]) == Drafted(
      RevisedIn(s, name, kind, body, n), [RevisedAs(name, kind, body, n, schema)], [RevisedBy(name, kind, body, n)], false)
  {
    var d, act := RevisedIn(s, name, kind, body, n), RevisedAs(name, kind, body, n, schema);
    RevisingActs(s, name, kind, body, was, n, schema);
    RevisedReads(s, name, kind, body, n, schema);
    assert d.pending.Keys == {name} && d.pending[name].body.values == [] && !DefinesAType(act) && !RemovesAType(act);
    hide RevisedIn, Acted, Applied, View, TypedFor, AsRead, HandedOver, Guarded, HeldBelow, DraftSet, KeptWhole;
    hide Unlinked, HoldsType, HoldsAt, LinksAccepted;
    RevisedIsHanded(d, name, kind, body, n, schema);
    NothingIsDropped(d, act);
    AcceptedByNone(d, act);
    OneActs(s, Revising(name, body), d, act);
    assert Faultless(d, act);
    OneIsDrafted(s, Revising(name, body), d, act, RevisedBy(name, kind, body, n));
  }

  lemma RevisingLands(s: Store, name: Iri, kind: Iri, body: Body, was: Body, n: nat, schema: Schema)
    requires HoldsType(s, kind, schema) && n > 1 && HoldsAt(s, name, kind, was, n - 1) && kind != name
    requires forall i, l :: i in s.rows && l in s.rows[i].links ==> l.target != name
    ensures Land(s, [RevisedBy(name, kind, body, n)], []) == Landed(RevisedTo(s, name, kind, body, n))
  {
    var c := RevisedBy(name, kind, body, n);
    ImplicitAloneLands(s, c, kind);
    SeversNone(s, c);
    OneLands(s, c);
    assert StoreAll([Implicit(kind)]) == ToKind(kind);
  }

  lemma RevisingStep(
    s: Store, name: Iri, kind: Iri, body: Body, was: Body, n: nat, schema: Schema, attempts: map<nat, Attempt>)
    requires HoldsType(s, kind, schema) && kind != TYPES && n > 1 && HoldsAt(s, name, kind, was, n - 1) && Unlinked(s) && kind != name
    requires body.values == [] && schema.fits(body) && schema.refers == []
    requires forall i, l :: i in s.rows && l in s.rows[i].links ==> l.target != name
    ensures name in s.rows && Next(World(s, attempts), LandsLocked([Revising(name, body)], []),
                                   World(RevisedTo(s, name, kind, body, n), attempts))
  {
    assert name in s.rows;
    hide HoldsType, HoldsAt, DraftSet, Land, Next, RevisedAs, RevisedBy, RevisedIn, RevisedTo, Unlinked;
    RevisingIsDrafted(s, name, kind, body, was, n, schema);
    RevisingLands(s, name, kind, body, was, n, schema);
    LockedStep(World(s, attempts), Revising(name, body), RevisedIn(s, name, kind, body, n),
               RevisedAs(name, kind, body, n, schema), RevisedBy(name, kind, body, n), false, RevisedTo(s, name, kind, body, n));
  }
}
