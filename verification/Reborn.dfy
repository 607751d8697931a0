/** A run whose last landing is not borne: a set drafted while a type was held, landed once that type was removed and its
    IRI held again by something that is no type. Each revision the port compares stands, each IRI it asks for is held, and
    the link it lands waits under a type its field does not allow. */
module Reborn {
  import opened Iris
  import opened PortValues
  import opened Landing
  import opened Composition
  import opened Links
  import opened Draft
  import opened Drafting
  import opened Invariants
  import opened LateLanding
  import opened Runs
  import opened OneOperation

  const THING := Iri("h", [], "thing")
  const KIND := Iri("h", [], "kind")
  const LABEL := Iri("h", ["kind"], "label")
  const LINKER := Iri("h", ["thing"], "linker")
  const AWAITED := Iri("h", ["kind", "label"], "awaited")

  const ABOUT := Schema(map["about" := Ref({LABEL}, false)], [], true, ANY)
  const INTO := Value("about", "", "about", AWAITED, "")
  const CARRYING := Body("", [INTO], {})
  const LINKING := AnArtifact(THING, CARRYING)

  lemma Apart()
    ensures LABEL != KIND && LABEL != THING && KIND != THING && LABEL != TYPES && KIND != TYPES && THING != TYPES
    ensures LINKER !in {TYPES, KIND, THING, LABEL} && AWAITED !in {TYPES, KIND, THING, LABEL, LINKER}
    ensures Parent(LABEL) == Some(KIND) && Parent(AWAITED) == Some(LABEL) && Parent(LINKER) == Some(THING)
    ensures Parent(KIND) == None
  {
    assert AWAITED.within[..1] == LABEL.within;
    assert LABEL.within != LINKER.within;
  }

  // ---- three types defined

  function OfKinds(): Store
  {
    Defined(STARTED, KIND, NONE)
  }

  function OfThings(): Store
  {
    Defined(OfKinds(), THING, ABOUT)
  }

  function OfLabels(): Store
  {
    Defined(OfThings(), LABEL, NONE)
  }

  lemma TheyAreDefined()
    ensures OnlyTypes(STARTED) && OnlyTypes(OfKinds()) && OnlyTypes(OfThings()) && OnlyTypes(OfLabels())
    ensures Land(STARTED, [DefinedBy(KIND, NONE)], []) == Landed(OfKinds()) && KIND !in STARTED.rows
    ensures Land(OfKinds(), [DefinedBy(THING, ABOUT)], []) == Landed(OfThings()) && THING !in OfKinds().rows
    ensures Land(OfThings(), [DefinedBy(LABEL, NONE)], []) == Landed(OfLabels()) && LABEL !in OfThings().rows
    ensures HoldsType(OfLabels(), THING, ABOUT) && HoldsType(OfLabels(), KIND, NONE) && HoldsType(OfLabels(), LABEL, NONE)
    ensures OfLabels().rows.Keys == {TYPES, KIND, THING, LABEL}
  {
    Apart();
    StoresStart();
    hide OnlyTypes, HoldsType, Land, DefinedBy;
    DefiningLands(STARTED, KIND, NONE);
    DefiningLands(OfKinds(), THING, ABOUT);
    DefiningLands(OfThings(), LABEL, NONE);
    DefinedKeepsType(OfKinds(), THING, ABOUT, KIND, NONE);
    DefinedKeepsType(OfThings(), LABEL, NONE, KIND, NONE);
    DefinedKeepsType(OfThings(), LABEL, NONE, THING, ABOUT);
  }

  // ---- one removed, and its IRI held again

  function Unlabelled(): Store
  {
    Without(OfLabels(), LABEL)
  }

  function Relabelled(): Store
  {
    Made(Unlabelled(), LABEL, KIND, BARE)
  }

  lemma ItIsHeldAgain()
    ensures Land(OfLabels(), [RemovedBy(LABEL)], []) == Landed(Unlabelled())
    ensures Land(Unlabelled(), [MadeBy(LABEL, KIND, BARE)], []) == Landed(Relabelled())
    ensures HoldsType(Unlabelled(), KIND, NONE) && HoldsType(Relabelled(), KIND, NONE) && HoldsType(Relabelled(), THING, ABOUT)
    ensures Relabelled().rows.Keys == {TYPES, KIND, THING, LABEL} && LABEL !in Unlabelled().rows
    ensures Relabelled().rows[LABEL].content == AnArtifact(KIND, BARE) && Relabelled().landings == OfLabels().landings + 2
  {
    TheyAreDefined();
    Apart();
    hide OnlyTypes, HoldsType, Land, RemovedBy, MadeBy, OfLabels, Made, Without;
    RemovedAndMade(OfLabels(), LABEL, KIND, THING, ABOUT);
  }

  // ---- the set drafted before

  /** One artifact made, linking to an IRI not held that sits under the type. */
  const LINKS := Making(LINKER, THING, CARRYING)
  const ACT := MadeAs(LINKER, THING, CARRYING, ABOUT)
  const LINK := Link("about", "about", AWAITED, "", {LABEL}, false, Some(LABEL), false, Some(""), false)
  const CHANGE := Change(LINKER, Some(LINKING), [Implicit(THING), LINK], {}, 0, 1, [(THING, 1)], THING, None)

  /** Where the set is drafted: with the type its artifact is of, and the type its link waits under. */
  ghost predicate Awaiting(s: Store)
  {
    OnlyTypes(s) && HoldsType(s, THING, ABOUT) && HoldsType(s, LABEL, NONE) && s.rows.Keys == {TYPES, KIND, THING, LABEL}
  }

  function TheDraft(s: Store): Overlay
  {
    MadeIn(s, LINKER, THING, CARRYING)
  }

  /** What its draft reads there. */
  ghost predicate ReadSo(d: Overlay)
  {
    && TypedFor(d, ACT) == Some(ABOUT) && AsRead(d, [THING]) == [(THING, 1)]
    && AWAITED !in View(d).held && NearestType(View(d), AWAITED) == Some(LABEL)
    && HeldWaiting(d.store, LINKER) == {} && Dropped(d, LINKER) == {}
  }

  lemma TheTypeIsRead(d: Overlay)
    requires HoldsType(d.store, LABEL, NONE) && d.store.rows.Keys == {TYPES, KIND, THING, LABEL}
    requires d.pending.Keys == {LINKER} && d.removed == {} && d.gone == {}
    ensures AWAITED !in View(d).held && NearestType(View(d), AWAITED) == Some(LABEL)
  {
    Apart();
    HeldTypeReads(d, LABEL, NONE);
    ViewReads(d);
    hide View, SchemaOf, HoldsType, AsRead;
    assert !Holds(d, AWAITED);
  }

  lemma TheDraftReads(s: Store)
    requires Awaiting(s)
    ensures ReadSo(TheDraft(s))
  {
    Apart();
    assert TheDraft(s).pending.Keys == {LINKER} && TheDraft(s).store == s;
    hide View, SchemaOf, HoldsType, OnlyTypes, HeldWaiting, AsRead, TypedFor, Dropped, NearestType;
    MadeReads(s, LINKER, THING, CARRYING, ABOUT);
    OnlyTypesIsUnlinked(s);
    NothingWaits(s, LINKER);
    TheTypeIsRead(TheDraft(s));
  }

  lemma TheLinksAreHanded(d: Overlay)
    requires ReadSo(d)
    ensures HandedLinks(LINKING, ABOUT, View(d), {}) == [Implicit(THING), LINK]
  {
    OneIsCarried(INTO, ABOUT.declares);
    hide View, TypedFor, AsRead, HeldWaiting, Dropped, Carried, NearestType;
    assert HandedLink([INTO], 0, ABOUT.declares, View(d), {}) == LINK;
  }

  lemma NothingIsOpen()
    ensures forall i :: !Open(CHANGE, i)
  {
    Apart();
    assert Between(LINKER, THING) == [] && Between(AWAITED, LABEL) == [];
  }

  lemma TheChangeIsHanded(d: Overlay)
    requires ReadSo(d)
    ensures Guarded(d, HandedOver(d, [ACT], 0)) == CHANGE && !HeldBelow(d, HandedOver(d, [ACT], 0))
  {
    TheLinksAreHanded(d);
    NothingIsOpen();
    hide View, TypedFor, AsRead, HeldWaiting, Dropped, HandedLinks, NearestType, Open;
    assert ReadThrough(THING, [], View(d)) == [THING] && [THING] + [] == [THING] && IsLast([ACT], 0);
    assert HandedOver(d, [ACT], 0) == CHANGE;
    NothingOpen(d, CHANGE);
  }

  lemma TheLinkIsAccepted(c: Corpus)
    requires AWAITED !in c.held && NearestType(c, AWAITED) == Some(LABEL)
    ensures Accepted(c, [INTO], 0, ABOUT.declares, {})
  {
    assert LandsIn(c, INTO, ABOUT.declares["about"]);
  }

  lemma TheChangeIsFaultless(d: Overlay)
    requires ReadSo(d)
    ensures Faultless(d, ACT) && KeptWhole(d, [ACT]) && TypedFor(d, ACT).Some?
    ensures !RemovesAType(ACT) && !DefinesAType(ACT)
  {
    Apart();
    TheLinkIsAccepted(View(d));
    hide View, TypedFor, AsRead, HeldWaiting, Dropped, Accepted, LinksAccepted, LinksIn, NearestType;
    AcceptedByOne(d, ACT, ABOUT.declares, INTO);
  }

  lemma TheSetIsDrafted(s: Store)
    requires Awaiting(s)
    ensures DraftSet(s, [LINKS]) == Drafted(TheDraft(s), [ACT], [CHANGE], false)
  {
    var d := TheDraft(s);
    Apart();
    MakingActs(s, LINKER, THING, CARRYING, ABOUT);
    TheDraftReads(s);
    hide ReadSo, Awaiting, Acted, Applied, DraftSet, Faultless, KeptWhole, HandedOver, Guarded, HeldBelow, TypedFor;
    hide RemovesAType, DefinesAType, OnlyTypes, HoldsType;
    TheChangeIsHanded(d);
    TheChangeIsFaultless(d);
    OneActs(s, LINKS, d, ACT);
    OneIsDrafted(s, LINKS, d, ACT, CHANGE);
  }

  // ---- landed where the type is held no more

  /** What the port asks of the links: that the IRI one waits under is held. */
  lemma TheLinksLand(t: Store)
    requires HoldsType(t, THING, ABOUT) && t.rows.Keys == {TYPES, KIND, THING, LABEL}
    ensures ChangeLands(t, Write(t, CHANGE), CHANGE) && Rev(t, LINKER) == 0 && Rev(t, THING) == 1 && LINKER !in t.rows
  {
    Apart();
    var x := Write(t, CHANGE);
    assert x.rows[THING] == t.rows[THING] && LABEL in x.rows && AWAITED !in x.rows;
    hide HeldWaiting, ToldAt, Write;
    assert Landing.Lands(x, LINK, ToldAt(LinkKeys(CHANGE.links), 1), HeldWaiting(t, LINKER));
    assert Landing.Lands(x, Implicit(THING), ToldAt(LinkKeys(CHANGE.links), 0), HeldWaiting(t, LINKER));
  }

  function TheEnd(): Store
  {
    Write(Relabelled(), CHANGE).(landings := Relabelled().landings + 1)
  }

  lemma TheSetLands()
    ensures Land(Relabelled(), [CHANGE], []) == Landed(TheEnd())
  {
    ItIsHeldAgain();
    hide Relabelled, Unlabelled, OfLabels, Write, ChangeLands, HoldsType, Land;
    TheLinksLand(Relabelled());
    NotHeldSeversNone(Relabelled(), CHANGE);
    OneLands(Relabelled(), CHANGE);
  }

  lemma ItIsNotBorne()
    ensures !Bears(Relabelled(), [CHANGE])
  {
    ItIsHeldAgain();
    Apart();
    var c := StoreView(Relabelled());
    assert !TypedAt(c, LABEL) && TypedAt(c, KIND);
    hide Relabelled, StoreView, TypedAt, HoldsType;
    assert NearestType(c, LABEL) == Some(KIND);
    assert !StandsUnder(c, LINK);
    assert [CHANGE][0].links[1] == LINK;
    assert AWAITED !in Relabelled().rows && AWAITED !in Changed([CHANGE]);
  }

  // ---- the run

  function TheSteps(): seq<Step>
  {
    [LandsLocked([Defining(KIND, NONE)], []), LandsLocked([Defining(THING, ABOUT)], []),
     LandsLocked([Defining(LABEL, NONE)], []), Drafts(1, [LINKS]), LandsLocked([Removing(LABEL)], []),
     LandsLocked([Making(LABEL, KIND, BARE)], []), LandsFirst(1, [])]
  }

  function Waiting(): map<nat, Attempt>
  {
    map[1 := Attempt(OfLabels(), [LINKS])]
  }

  function TheWorlds(): seq<World>
  {
    [World(STARTED, map[]), World(OfKinds(), map[]), World(OfThings(), map[]), World(OfLabels(), map[]),
     World(OfLabels(), Waiting()), World(Unlabelled(), Waiting()), World(Relabelled(), Waiting()), World(TheEnd(), map[])]
  }

  lemma TypesAreDefined()
    ensures Next(World(STARTED, map[]), LandsLocked([Defining(KIND, NONE)], []), World(OfKinds(), map[]))
    ensures Next(World(OfKinds(), map[]), LandsLocked([Defining(THING, ABOUT)], []), World(OfThings(), map[]))
    ensures Next(World(OfThings(), map[]), LandsLocked([Defining(LABEL, NONE)], []), World(OfLabels(), map[]))
  {
    TheyAreDefined();
    hide OnlyTypes, HoldsType, Land, Next, Defining, Defined;
    DefiningStep(STARTED, KIND, NONE);
    DefiningStep(OfKinds(), THING, ABOUT);
    DefiningStep(OfThings(), LABEL, NONE);
  }

  lemma TheSetIsOfOneSort()
    ensures OfOneSort([LINKS])
  {
    assert LINKS.Create?;
  }

  lemma TheSetIsDraftedBefore()
    ensures Next(World(OfLabels(), map[]), Drafts(1, [LINKS]), World(OfLabels(), Waiting()))
  {
    TheyAreDefined();
    TheSetIsOfOneSort();
    assert Awaiting(OfLabels());
    hide OnlyTypes, HoldsType, DraftSet, Land, OfLabels, TheDraft, LINKS, Next, OfOneSort, Awaiting, DefinedBy;
    TheSetIsDrafted(OfLabels());
    DraftsStep(OfLabels(), [LINKS]);
  }

  lemma ItIsRemovedAndHeldAgain()
    ensures Next(World(OfLabels(), Waiting()), LandsLocked([Removing(LABEL)], []), World(Unlabelled(), Waiting()))
    ensures Next(World(Unlabelled(), Waiting()), LandsLocked([Making(LABEL, KIND, BARE)], []),
                 World(Relabelled(), Waiting()))
  {
    Apart();
    TheyAreDefined();
    ItIsHeldAgain();
    hide OnlyTypes, HoldsType, Land, Next, Made, Without, Waiting, Removing, Making, OfLabels, Unlinked;
    RemovingStep(OfLabels(), LABEL, NONE, Waiting());
    RemovingLands(OfLabels(), LABEL, NONE);
    MakingStep(Unlabelled(), LABEL, KIND, BARE, NONE, Waiting());
  }

  lemma TheSetLandsAfter()
    ensures Next(World(Relabelled(), Waiting()), LandsFirst(1, []), World(TheEnd(), map[]))
    ensures !BorneIn(World(Relabelled(), Waiting()), LandsFirst(1, []))
  {
    TheyAreDefined();
    TheSetLands();
    ItIsNotBorne();
    hide OnlyTypes, HoldsType, DraftSet, Land, OfLabels, Relabelled, TheEnd, TheDraft, Bears, LINKS;
    TheSetIsDrafted(OfLabels());
    assert Waiting() - {1} == map[];
  }

  lemma TheyAreARun()
    ensures IsRun(TheWorlds(), TheSteps()) && |TheSteps()| == 7
    ensures !BorneIn(TheWorlds()[6], TheSteps()[6])
  {
    StoresStart();
    TypesAreDefined();
    TheSetIsDraftedBefore();
    ItIsRemovedAndHeldAgain();
    TheSetLandsAfter();
    hide Next, BorneIn, OfKinds, OfThings, OfLabels, Unlabelled, Relabelled, TheEnd, Waiting, Defining, Removing, Making;
    hide OnlyTypes, HoldsType, Land;
    forall k | 0 <= k < 7
      ensures Next(TheWorlds()[k], TheSteps()[k], TheWorlds()[k + 1])
    {
      assert k == 0 || k == 1 || k == 2 || k == 3 || k == 4 || k == 5 || k == 6;
    }
  }

  lemma OnlyTheLastLandsLate(k: nat)
    requires k < 6
    ensures BorneIn(TheWorlds()[k], TheSteps()[k])
  {
    assert !TheSteps()[k].LandsFirst?;
    hide TheWorlds, Bears, DraftSet;
  }

  /** Three types are defined; a set is drafted whose link waits under one; that type is removed and its IRI held again by
      an artifact; and the set lands, as it was drafted, leaving the link waiting where its field does not allow. Every
      store before keeps what every store should, and the one its landing leaves does not. */
  lemma AnIriHeldAgainIsNotTold() returns (worlds: seq<World>, steps: seq<Step>)
    ensures IsRun(worlds, steps) && !IsBorneRun(worlds, steps) && |worlds| == 8
    ensures forall k :: 0 <= k < 7 ==> WellKept(worlds[k])
    ensures !Inv(worlds[7].store)
  {
    hide *;
    worlds, steps := TheWorlds(), TheSteps();
    TheyAreARun();
    RunBegins(worlds, steps);
    forall k | 0 <= k < 6
      ensures BorneIn(worlds[k], steps[k])
    {
      OnlyTheLastLandsLate(k);
    }
    forall k | 0 <= k < 7
      ensures WellKept(worlds[k])
    {
      KeptSoFar(worlds, steps, k);
    }
    StepOfARun(worlds, steps, 6);
    StepsKeepWhereBorne(worlds[6], steps[6], worlds[7]);
    NotBorneAt(worlds, steps, 6);
  }

  lemma NotBorneAt(worlds: seq<World>, steps: seq<Step>, k: nat)
    requires k < |steps| && k < |worlds| && !BorneIn(worlds[k], steps[k])
    ensures !IsBorneRun(worlds, steps)
  {
    hide BorneIn, IsRun;
  }
}
