/** A run whose last landing is not serial: of a set whose first change, acted over by its second, links into a part that
    is gone where the set lands. Drafted afresh there it is refused; the port, handed no link of that change, lands it. */
module ActedOver {
  import opened Iris
  import opened PortValues
  import opened Landing
  import opened Composition
  import opened Links
  import opened Draft
  import opened Drafting
  import opened Invariants
  import opened Agreement
  import opened Serial
  import opened Runs
  import opened OneOperation

  const THING := Iri("h", [], "thing")
  const LINKER := Iri("h", ["thing"], "linker")
  const LINKED := Iri("h", ["thing"], "linked")

  const DECLARING := Schema(map["about" := Ref({THING}, true)], [], true, ANY)
  const PART: Part := "items/one"
  const PARTED := Body("", [], {PART})
  const INTO := Value("about", "", "about", LINKED, PART)
  const LINKING := Body("", [INTO], {})

  lemma Apart()
    ensures LINKER != LINKED && LINKER != THING && LINKED != THING && THING != TYPES && LINKER != TYPES && LINKED != TYPES
    ensures Parent(LINKER) == Some(THING) && Parent(LINKED) == Some(THING)
  {
  }

  /** Where the set is drafted, and where it lands: an artifact that links nothing, and one with some parts. */
  ghost predicate Linkable(s: Store, parts: set<Part>)
  {
    && HoldsType(s, THING, DECLARING) && HoldsAt(s, LINKER, THING, BARE, 1) && Unlinked(s)
    && LINKED in s.rows && s.rows[LINKED].content.kind == THING && s.rows[LINKED].content.body.parts == parts
  }

  /** Linked into a part, then not linked at all. */
  function TheSet(): seq<Operation>
  {
    [Revising(LINKER, LINKING), Revising(LINKER, BARE)]
  }

  const LAST := At(THING, BARE, 3)

  function TheDraft(s: Store): Overlay
  {
    Put(RevisedIn(s, LINKER, THING, LINKING, 2), LINKER, LAST)
  }

  const FIRST := RevisedAs(LINKER, THING, LINKING, 2, DECLARING)
  const SECOND := Act(false, LINKER, 3, Named(THING, 1), Some(LAST), DECLARING)

  /** The changes it is handed over as: the first handing no link, the second the one to its type. */
  const ONE := Change(LINKER, Some(At(THING, LINKING, 2)), [], {}, 1, 2, [], THING, None)
  const OTHER := Change(LINKER, Some(LAST), [Implicit(THING)], {}, 2, 3, [(THING, 1)], THING, None)

  lemma SecondActs(s: Store)
    requires HoldsType(s, THING, DECLARING)
    ensures Acted(RevisedIn(s, LINKER, THING, LINKING, 2), TheSet()[1]) == Some((TheDraft(s), SECOND))
  {
    HeldTypeReads(RevisedIn(s, LINKER, THING, LINKING, 2), THING, DECLARING);
    hide View, SchemaOf, HoldsType;
  }

  lemma AppliedByTwo(s: Store, ops: seq<Operation>, mid: Overlay, d: Overlay, acts: seq<Act>)
    requires |ops| == |acts| == 2
    requires Acted(Draft.Fresh(s), ops[0]) == Some((mid, acts[0])) && Acted(mid, ops[1]) == Some((d, acts[1]))
    ensures Applied(s, ops) == Some((d, acts))
  {
    hide Acted;
    var one := ops[..|ops| - 1];
    assert one[..|one| - 1] == [] && one[0] == ops[0];
    assert [] + [acts[0]] == [acts[0]] && [acts[0]] + [acts[1]] == acts;
    assert Applied(s, []) == Some((Draft.Fresh(s), []));
    assert Applied(s, one) == Some((mid, [acts[0]]));
  }

  lemma TheSetActs(s: Store, parts: set<Part>)
    requires Linkable(s, parts)
    ensures Applied(s, TheSet()) == Some((TheDraft(s), [FIRST, SECOND]))
  {
    Apart();
    hide Acted, Put, Applied, HoldsType, HoldsAt, Unlinked, RevisedIn, RevisedAs, Revising;
    RevisingActs(s, LINKER, THING, LINKING, BARE, 2, DECLARING);
    SecondActs(s);
    AppliedByTwo(s, TheSet(), RevisedIn(s, LINKER, THING, LINKING, 2), TheDraft(s), [FIRST, SECOND]);
  }

  /** What its draft reads: the schema of both changes, and the artifact the first links into. */
  ghost predicate ReadSo(d: Overlay, parts: set<Part>)
  {
    && TypedFor(d, FIRST) == Some(DECLARING) && TypedFor(d, SECOND) == Some(DECLARING)
    && AsRead(d, [THING]) == [(THING, 1)] && HeldWaiting(d.store, LINKER) == {}
    && LINKED in View(d).held && View(d).held[LINKED].kind == THING && View(d).held[LINKED].body.parts == parts
  }

  lemma TheDraftReads(s: Store, parts: set<Part>)
    requires Linkable(s, parts)
    ensures ReadSo(TheDraft(s), parts)
  {
    var d := TheDraft(s);
    Apart();
    HeldTypeReads(d, THING, DECLARING);
    NothingWaits(s, LINKER);
    ViewReads(d);
    assert d.store == s && Holds(d, LINKER) && Holds(d, LINKED) && ArtifactAt(d, LINKED) == s.rows[LINKED].content;
    hide View, SchemaOf, HoldsType, HoldsAt, Unlinked, HeldWaiting, AsRead, TheDraft;
  }

  lemma FirstIsHanded(d: Overlay)
    requires TypedFor(d, FIRST).Some?
    ensures var plain := HandedOver(d, [FIRST, SECOND], 0); Guarded(d, plain) == ONE && !HeldBelow(d, plain)
  {
    var acts := [FIRST, SECOND];
    assert acts[1].id == acts[0].id && !IsLast(acts, 0);
    assert AsRead(d, []) == [];
    assert HandedOver(d, acts, 0) == ONE;
    NothingOpen(d, ONE);
  }

  lemma SecondIsHanded(d: Overlay, parts: set<Part>)
    requires ReadSo(d, parts)
    ensures var plain := HandedOver(d, [FIRST, SECOND], 1); Guarded(d, plain) == OTHER && !HeldBelow(d, plain)
  {
    var acts := [FIRST, SECOND];
    hide View, TypedFor, AsRead, HeldWaiting;
    NoneIsCarried(DECLARING.declares);
    assert HandedLinks(LAST, DECLARING, View(d), HeldWaiting(d.store, LINKER)) == [Implicit(THING)];
    assert ReadThrough(THING, [], View(d)) == [THING] && [THING] + [] == [THING] && IsLast(acts, 1);
    assert HandedOver(d, acts, 1) == OTHER;
    NothingOpen(d, OTHER);
  }

  lemma HandedByTwo(d: Overlay, first: Act, second: Act, one: Change, other: Change)
    requires var acts := [first, second];
      && AllTyped(d, acts)
      && Guarded(d, HandedOver(d, acts, 0)) == one && !HeldBelow(d, HandedOver(d, acts, 0))
      && Guarded(d, HandedOver(d, acts, 1)) == other && !HeldBelow(d, HandedOver(d, acts, 1))
    requires !RemovesAType(first) && !DefinesAType(first) && !RemovesAType(second) && !DefinesAType(second)
    ensures HandedAll(d, [first, second]) == Drafted(d, [first, second], [one, other], false)
  {
    hide HandedOver, Guarded, HeldBelow, TypedFor;
    assert HandedAll(d, [first, second]).handed == [one, other];
  }

  lemma BothTyped(d: Overlay)
    requires TypedFor(d, FIRST).Some? && TypedFor(d, SECOND).Some?
    ensures AllTyped(d, [FIRST, SECOND])
    ensures !RemovesAType(FIRST) && !DefinesAType(FIRST) && !RemovesAType(SECOND) && !DefinesAType(SECOND)
  {
    hide TypedFor;
  }

  lemma TheSetIsHanded(d: Overlay, parts: set<Part>)
    requires ReadSo(d, parts)
    ensures AllTyped(d, [FIRST, SECOND])
    ensures HandedAll(d, [FIRST, SECOND]) == Drafted(d, [FIRST, SECOND], [ONE, OTHER], false)
  {
    assert TypedFor(d, FIRST).Some? && TypedFor(d, SECOND).Some?;
    hide *;
    BothTyped(d);
    FirstIsHanded(d);
    SecondIsHanded(d, parts);
    HandedByTwo(d, FIRST, SECOND, ONE, OTHER);
  }

  /** The link into the part is accepted exactly where the part is. */
  lemma IntoLands(c: Corpus, parts: set<Part>)
    requires LINKED in c.held && c.held[LINKED].kind == THING && c.held[LINKED].body.parts == parts
    ensures Accepted(c, [INTO], 0, DECLARING.declares, {}) <==> PART in parts
  {
    assert LandsIn(c, INTO, DECLARING.declares["about"]) <==> PART in parts;
  }

  lemma BothStand(d: Overlay, parts: set<Part>)
    requires ReadSo(d, parts)
    ensures Stands(d, [FIRST, SECOND], 0) && Stands(d, [FIRST, SECOND], 1) && Faultless(d, SECOND)
    ensures Faultless(d, FIRST) <==> PART in parts
  {
    IntoLands(View(d), parts);
    hide TypedFor, View, HeldWaiting, Accepted, AsRead, LinksAccepted;
    AcceptedByOne(d, FIRST, DECLARING.declares, INTO);
    AcceptedByNone(d, SECOND);
    assert !IsLast([FIRST, SECOND], 0) by {
      assert [FIRST, SECOND][1].id == [FIRST, SECOND][0].id;
    }
  }

  lemma NothingIsDroppedByTwo(s: Store)
    requires HoldsAt(s, LINKER, THING, BARE, 1)
    ensures KeptWhole(TheDraft(s), [FIRST, SECOND])
  {
    assert Dropped(TheDraft(s), LINKER) == {};
    hide LinksIn;
  }

  lemma PlannedByTwo(s: Store, ops: seq<Operation>, d: Overlay, first: Act, second: Act)
    requires Applied(s, ops) == Some((d, [first, second])) && KeptWhole(d, [first, second])
    requires Stands(d, [first, second], 0) && Stands(d, [first, second], 1) && Faultless(d, second)
    requires AllTyped(d, [first, second])
    ensures Planned(s, ops) == HandedAll(d, [first, second])
    ensures DraftSet(s, ops).Drafted? <==> Faultless(d, first)
  {
    var acts := [first, second];
    hide Applied, KeptWhole, Stands, Faultless, HandedAll;
    assert acts[0] == first && acts[1] == second && |acts| == 2;
    assert HandedAll(d, acts).Drafted? by {
      HandedIsDrafted(d, acts);
    }
  }

  lemma HandedIsDrafted(d: Overlay, acts: seq<Act>)
    requires AllTyped(d, acts)
    ensures HandedAll(d, acts).Drafted?
  {
  }

  /** The set is drafted without a fault where the part is; where it is not, but for the link acted over. */
  lemma TheSetIsDrafted(s: Store, parts: set<Part>)
    requires Linkable(s, parts)
    ensures Planned(s, TheSet()) == Drafted(TheDraft(s), [FIRST, SECOND], [ONE, OTHER], false)
    ensures DraftSet(s, TheSet()).Drafted? <==> PART in parts
  {
    TheDraftReads(s, parts);
    TheSetActs(s, parts);
    assert HoldsAt(s, LINKER, THING, BARE, 1);
    hide *;
    NothingIsDroppedByTwo(s);
    BothStand(TheDraft(s), parts);
    TheSetIsHanded(TheDraft(s), parts);
    PlannedByTwo(s, TheSet(), TheDraft(s), FIRST, SECOND);
  }

  // ---- the run

  function OfThings(): Store
  {
    Defined(STARTED, THING, DECLARING)
  }

  function WithLinker(): Store
  {
    Made(OfThings(), LINKER, THING, BARE)
  }

  function WithBoth(): Store
  {
    Made(WithLinker(), LINKED, THING, PARTED)
  }

  function Unparted(): Store
    requires LINKED in WithBoth().rows
  {
    RevisedTo(WithBoth(), LINKED, THING, BARE, 2)
  }

  lemma ThingsAreDefined()
    ensures OnlyTypes(STARTED) && THING !in STARTED.rows && HoldsType(OfThings(), THING, DECLARING)
    ensures OfThings().rows.Keys == {TYPES, THING} && Unlinked(OfThings())
  {
    Apart();
    StoresStart();
    hide OnlyTypes, HoldsType, Unlinked, Land;
    DefiningLands(STARTED, THING, DECLARING);
    OnlyTypesIsUnlinked(OfThings());
  }

  /** Two artifacts made of a type, one after the other. */
  lemma BothAreMade(s: Store)
    requires HoldsType(s, THING, DECLARING) && s.rows.Keys == {TYPES, THING} && Unlinked(s)
    ensures var u := Made(s, LINKER, THING, BARE);
      && HoldsType(u, THING, DECLARING) && LINKED !in u.rows && Unlinked(u)
      && var v := Made(u, LINKED, THING, PARTED);
        && HoldsType(v, THING, DECLARING) && HoldsAt(v, LINKED, THING, PARTED, 1) && HoldsAt(v, LINKER, THING, BARE, 1)
        && Unlinked(v)
  {
    Apart();
    var u := Made(s, LINKER, THING, BARE);
    assert u.rows.Keys == {TYPES, THING, LINKER};
    hide HoldsType, HoldsAt, Unlinked, Land, Made;
    MakingLands(s, LINKER, THING, BARE, DECLARING);
    MadeKeepsType(s, LINKER, THING, BARE, THING, DECLARING);
    MadeIsHeld(s, LINKER, THING, BARE);
    MakingLands(u, LINKED, THING, PARTED, DECLARING);
    MadeKeepsType(u, LINKED, THING, PARTED, THING, DECLARING);
    MadeKeepsAt(u, LINKED, THING, PARTED, LINKER, THING, BARE, 1);
    MadeIsHeld(u, LINKED, THING, PARTED);
  }

  lemma TheyAreMade()
    ensures OnlyTypes(STARTED) && THING !in STARTED.rows && HoldsType(OfThings(), THING, DECLARING)
    ensures LINKER !in OfThings().rows && Unlinked(OfThings())
    ensures HoldsType(WithLinker(), THING, DECLARING) && LINKED !in WithLinker().rows && Unlinked(WithLinker())
    ensures HoldsType(WithBoth(), THING, DECLARING) && HoldsAt(WithBoth(), LINKED, THING, PARTED, 1)
    ensures HoldsAt(WithBoth(), LINKER, THING, BARE, 1) && Unlinked(WithBoth())
  {
    Apart();
    ThingsAreDefined();
    hide OnlyTypes, HoldsType, HoldsAt, Unlinked, OfThings, Made;
    BothAreMade(OfThings());
  }

  lemma NothingLinksIntoIt()
    ensures forall i, l :: i in WithBoth().rows && l in WithBoth().rows[i].links ==> l.target != LINKED
  {
    Apart();
    forall i, l | i in WithBoth().rows && l in WithBoth().rows[i].links
      ensures l.target == TYPES || l.target == THING
    {
      assert i == TYPES || i == THING || i == LINKER || i == LINKED;
    }
  }

  lemma BothLinkable()
    ensures LINKED in WithBoth().rows && Linkable(WithBoth(), {PART}) && Linkable(Unparted(), {})
  {
    TheyAreMade();
    Apart();
    assert LINKED in WithBoth().rows && WithBoth().rows[LINKED].content == AnArtifact(THING, PARTED);
    hide WithBoth, Unlinked;
    UnpartedStands(WithBoth());
  }

  lemma UnpartedStands(s: Store)
    requires Linkable(s, {PART})
    ensures Linkable(RevisedTo(s, LINKED, THING, BARE, 2), {})
  {
    Apart();
  }

  function Waiting(): map<nat, Attempt>
  {
    map[1 := Attempt(WithBoth(), TheSet())]
  }

  function TheSteps(): seq<Step>
  {
    [LandsLocked([Defining(THING, DECLARING)], []), LandsLocked([Making(LINKER, THING, BARE)], []),
     LandsLocked([Making(LINKED, THING, PARTED)], []), Drafts(1, TheSet()),
     LandsLocked([Revising(LINKED, BARE)], []), LandsFirst(1, [])]
  }

  function TheWorlds(end: Store): seq<World>
    requires LINKED in WithBoth().rows
  {
    [World(STARTED, map[]), World(OfThings(), map[]), World(WithLinker(), map[]), World(WithBoth(), map[]),
     World(WithBoth(), Waiting()), World(Unparted(), Waiting()), World(end, map[])]
  }

  lemma TheStepsBefore()
    ensures LINKED in WithBoth().rows
    ensures Next(World(STARTED, map[]), LandsLocked([Defining(THING, DECLARING)], []), World(OfThings(), map[]))
    ensures Next(World(OfThings(), map[]), LandsLocked([Making(LINKER, THING, BARE)], []), World(WithLinker(), map[]))
    ensures Next(World(WithLinker(), map[]), LandsLocked([Making(LINKED, THING, PARTED)], []), World(WithBoth(), map[]))
    ensures Next(World(WithBoth(), Waiting()), LandsLocked([Revising(LINKED, BARE)], []), World(Unparted(), Waiting()))
  {
    Apart();
    TheyAreMade();
    NothingLinksIntoIt();
    assert LINKED in WithBoth().rows;
    hide OnlyTypes, HoldsType, HoldsAt, Unlinked, Land, Next, Defining, Making, Revising, Defined, Made, RevisedTo;
    DefiningStep(STARTED, THING, DECLARING);
    MakingStep(OfThings(), LINKER, THING, BARE, DECLARING, map[]);
    MakingStep(WithLinker(), LINKED, THING, PARTED, DECLARING, map[]);
    RevisingStep(WithBoth(), LINKED, THING, BARE, PARTED, 2, DECLARING, Waiting());
  }

  lemma TheSetIsDraftedBefore()
    ensures Next(World(WithBoth(), map[]), Drafts(1, TheSet()), World(WithBoth(), Waiting()))
  {
    BothLinkable();
    assert AllRevisions(TheSet());
    hide DraftSet, Land, WithBoth, Linkable, TheSet, Planned, Next;
    TheSetIsDrafted(WithBoth(), {PART});
    DraftsStep(WithBoth(), TheSet());
  }

  lemma LivesOnInBoth(s: Store, r: Drafted)
    requires LINKED in s.rows && r.Drafted?
    ensures NoneReborn(s, RevisedTo(s, LINKED, THING, BARE, 2), r)
  {
  }

  /** The set lands where the part is gone, handed alike there. */
  lemma TheSetLandsAfter(s: Store, t: Store)
    requires Linkable(s, {PART}) && Linkable(t, {}) && Inv(t)
    ensures DraftSet(s, TheSet()) == Drafted(TheDraft(s), [FIRST, SECOND], [ONE, OTHER], false)
    ensures Land(t, [ONE, OTHER], []).Landed? && DraftSet(t, TheSet()).Refused?
  {
    assert AllRevisions(TheSet()) && !IdsTaken(t, []);
    hide DraftSet, Land, Linkable, TheSet, Planned, Inv, IdsTaken, TheDraft;
    TheSetIsDrafted(s, {PART});
    DraftedIsPlanned(s, TheSet());
    TheSetIsDrafted(t, {});
    AcceptedSetsLand(t, TheSet(), []);
  }

  lemma LateStep(s: Store, t: Store, r: Drafted, end: Store)
    requires DraftSet(s, TheSet()) == r && r.Drafted? && !r.locked && Land(t, r.handed, []) == Landed(end)
    requires NoneReborn(s, t, r)
    ensures Next(World(t, map[1 := Attempt(s, TheSet())]), LandsFirst(1, []), World(end, map[]))
    ensures NoneRebornIn(World(t, map[1 := Attempt(s, TheSet())]), LandsFirst(1, []))
  {
    hide DraftSet, Land, TheSet, NoneReborn;
    assert map[1 := Attempt(s, TheSet())] - {1} == map[];
  }

  lemma TheRunSoFar(end: Store)
    requires LINKED in WithBoth().rows
    ensures |TheWorlds(end)| == |TheSteps()| + 1 == 7 && Runs.Fresh(TheWorlds(end)[0])
    ensures forall k :: 0 <= k < 5 ==>
      Next(TheWorlds(end)[k], TheSteps()[k], TheWorlds(end)[k + 1]) && !TheSteps()[k].LandsFirst?
  {
    StoresStart();
    TheStepsBefore();
    TheSetIsDraftedBefore();
    hide Next, OfThings, WithLinker, WithBoth, Unparted, Waiting, Defining, Making, Revising, TheSet, DraftSet, Planned;
    forall k | 0 <= k < 5
      ensures Next(TheWorlds(end)[k], TheSteps()[k], TheWorlds(end)[k + 1]) && !TheSteps()[k].LandsFirst?
    {
      assert k == 0 || k == 1 || k == 2 || k == 3 || k == 4;
    }
  }

  /** One more step that lands nothing late keeps a world. */
  lemma {:induction false} KeptWhereNoneIsLate(worlds: seq<World>, steps: seq<Step>, k: nat)
    requires k <= |steps| < |worlds| && Runs.Fresh(worlds[0])
    requires forall j :: 0 <= j < k ==> Next(worlds[j], steps[j], worlds[j + 1]) && !steps[j].LandsFirst?
    ensures WellKept(worlds[k])
  {
    hide Next, WellKept, Runs.Fresh, DraftSet;
    if k == 0 {
      FreshIsKept(worlds[0]);
    } else {
      KeptWhereNoneIsLate(worlds, steps, k - 1);
      StepsKeep(worlds[k - 1], steps[k - 1], worlds[k]);
    }
  }

  lemma KeptBefore()
    ensures LINKED in WithBoth().rows && Inv(Unparted())
  {
    BothLinkable();
    assert TheWorlds(STARTED)[5].store == Unparted();
    hide WithBoth, Unparted, Linkable, TheWorlds, Next, WellKept, Runs.Fresh, Inv;
    TheRunSoFar(STARTED);
    KeptWhereNoneIsLate(TheWorlds(STARTED), TheSteps(), 5);
    WellKeptIsKept(TheWorlds(STARTED)[5]);
  }

  lemma TheEndIsReached() returns (end: Store)
    ensures LINKED in WithBoth().rows
    ensures Next(World(Unparted(), Waiting()), LandsFirst(1, []), World(end, map[]))
    ensures NoneRebornIn(World(Unparted(), Waiting()), LandsFirst(1, []))
    ensures DraftSet(WithBoth(), TheSet()).Drafted? && DraftSet(Unparted(), TheSet()).Refused?
  {
    KeptBefore();
    BothLinkable();
    hide WithBoth, Linkable, TheSet, DraftSet, Land, Next, NoneReborn, NoneRebornIn, Inv, RevisedTo;
    TheSetLandsAfter(WithBoth(), Unparted());
    end := Land(Unparted(), [ONE, OTHER], []).store;
    LivesOnInBoth(WithBoth(), DraftSet(WithBoth(), TheSet()));
    LateStep(WithBoth(), Unparted(), DraftSet(WithBoth(), TheSet()), end);
  }

  lemma TheWaitingSet(end: Store)
    requires LINKED in WithBoth().rows
    ensures TheWorlds(end)[5] == World(Unparted(), Waiting()) && TheWorlds(end)[6] == World(end, map[])
    ensures TheSteps()[5] == LandsFirst(1, []) && 1 in Waiting() && Waiting()[1] == Attempt(WithBoth(), TheSet())
    ensures AllRevisions(TheSet()) && |TheSet()| == 2
  {
    hide WithBoth, Unparted;
  }

  /** A type is defined and two artifacts made of it, one with a part; a set is drafted that changes the other twice, first
      to link into the part and then not to; the part is dropped; and the set lands, as it was drafted, though nothing it
      read was held again and drafted where it lands it is refused. */
  lemma ALateSetThatIsNotSerial() returns (worlds: seq<World>, steps: seq<Step>)
    ensures IsUnbrokenRun(worlds, steps) && |worlds| == 7 && |steps| == 6 && steps[5] == LandsFirst(1, [])
    ensures 1 in worlds[5].attempts && AllRevisions(worlds[5].attempts[1].ops) && |worlds[5].attempts[1].ops| == 2
    ensures DraftSet(worlds[5].attempts[1].base, worlds[5].attempts[1].ops).Drafted?
    ensures DraftSet(worlds[5].store, worlds[5].attempts[1].ops).Refused?
  {
    hide *;
    var end := TheEndIsReached();
    worlds, steps := TheWorlds(end), TheSteps();
    TheRunSoFar(end);
    TheWaitingSet(end);
    UnbrokenByParts(worlds, steps);
  }

  lemma UnbrokenByParts(worlds: seq<World>, steps: seq<Step>)
    requires |worlds| == |steps| + 1 == 7 && Runs.Fresh(worlds[0])
    requires forall k :: 0 <= k < 5 ==> Next(worlds[k], steps[k], worlds[k + 1]) && !steps[k].LandsFirst?
    requires Next(worlds[5], steps[5], worlds[6]) && NoneRebornIn(worlds[5], steps[5])
    ensures IsUnbrokenRun(worlds, steps)
  {
    hide Next, Runs.Fresh, NoneReborn, DraftSet;
    forall k | 0 <= k < |steps|
      ensures Next(worlds[k], steps[k], worlds[k + 1]) && NoneRebornIn(worlds[k], steps[k])
    {
      assert k < 5 || k == 5;
    }
  }
}
