/** What every store holds fits its type: the content of each artifact, the links it carries into parts, and the types
    themselves. A set that leaves anything else is refused; and the version an artifact conforms to never falls. */
module Fitting {
  import opened Iris
  import opened PortValues
  import opened Landing
  import opened Composition
  import opened Links
  import opened Draft
  import opened Drafting
  import opened Invariants
  import opened Applying
  import opened Agreement
  import opened Keeping
  import opened Serial
  import opened Runs

  // ---- what fits

  /** Whether content fits a schema: its shape, and each link into a part in a field declared to allow parts. */
  ghost predicate FitsSchema(body: Body, schema: Schema)
  {
    && schema.fits(body)
    && forall n :: 0 <= n < |body.values| && body.values[n].part != "" && body.values[n].field in schema.declares ==>
         schema.declares[body.values[n].field].parts
  }

  /** Whether an artifact fits the version of its type it conforms to, as a corpus keeps that. */
  ghost predicate FitsItsType(c: Corpus, i: Iri)
    requires i in c.held
  {
    var v := Named(c.held[i].kind, c.held[i].conforms);
    v in c.kept && FitsSchema(c.held[i].body, c.kept[v].schema)
  }

  /** Whether a version kept is a type's: its keywords where they are read, and not built on a version of itself. */
  ghost predicate IsBuiltOnOthers(v: Named, schema: Schema)
  {
    schema.sound && forall n :: 0 <= n < |schema.refers| && schema.refers[n].whole ==> schema.refers[n].to.of != v.of
  }

  ghost predicate AllFit(c: Corpus)
  {
    && (forall i :: i in c.held ==> FitsItsType(c, i))
    && (forall v :: v in c.kept ==> IsBuiltOnOthers(v, c.kept[v].schema))
  }

  // ---- a set that leaves anything else is refused

  /** Whether a schema is the one what an operation left is judged by: of the version that conforms to, as the set leaves
      the corpus; or, of what a set both makes and takes out with its type, the one the operation acted with. */
  ghost predicate JudgedBy(c: Corpus, act: Act, a: Artifact, schema: Schema)
  {
    var v := Named(a.kind, a.conforms);
    if act.id !in c.held && a.kind !in c.held then schema == act.acted
    else a.kind in c.held && c.held[a.kind].kind == TYPES && v in c.kept && c.kept[v].schema == schema
  }

  /** Whether a set leaves no fault in what one of its operations left. */
  ghost predicate LeftWithoutFault(c: Corpus, act: Act, a: Artifact, schema: Schema)
  {
    && JudgedBy(c, act, a, schema) && FitsSchema(a.body, schema)
    && (a.kind == TYPES ==>
         IsBuiltOnOthers(Named(act.id, 0), a.schema)
         && forall n :: 0 <= n < |a.schema.refers| ==> a.schema.refers[n].to in c.kept && TypedAt(c, a.schema.refers[n].to.of))
  }

  lemma {:induction false} CarriedHas(values: seq<Value>, declares: map<string, Ref>, n: nat)
    requires n < |values| && values[n].field in declares
    ensures values[n] in Links.Carried(values, declares)
  {
    if n < |values| - 1 {
      CarriedHas(values[..|values| - 1], declares, n);
    }
  }

  lemma AcceptedAllowsParts(d: Overlay, act: Act, n: nat)
    requires act.left.Some? && TypedFor(d, act).Some? && LinksAccepted(d, act) && n < |act.left.value.body.values|
    requires act.left.value.body.values[n].field in TypedFor(d, act).value.declares
    requires act.left.value.body.values[n].part != ""
    ensures TypedFor(d, act).value.declares[act.left.value.body.values[n].field].parts
  {
    var values, declares := act.left.value.body.values, TypedFor(d, act).value.declares;
    CarriedHas(values, declares, n);
    var own := Links.Carried(values, declares);
    var m :| 0 <= m < |own| && own[m] == values[n];
    assert Accepted(View(d), own, m, declares, HeldWaiting(d.store, act.id));
    hide Links.Carried, View, HeldWaiting, TypedFor;
  }

  lemma TypedForIsJudging(d: Overlay, act: Act, schema: Schema)
    requires act.left.Some?
    ensures TypedFor(d, act) == Some(schema) <==> JudgedBy(View(d), act, act.left.value, schema)
  {
    ViewReads(d);
    hide View;
  }

  lemma TypesAreJudged(d: Overlay, i: Iri, schema: Schema)
    ensures IsAType(d, i, schema) <==>
      IsBuiltOnOthers(Named(i, 0), schema)
      && forall n :: 0 <= n < |schema.refers| ==> schema.refers[n].to in View(d).kept && TypedAt(View(d), schema.refers[n].to.of)
  {
    hide View;
  }

  lemma FaultlessLeaves(d: Overlay, act: Act)
    requires act.left.Some? && Shaped(d, act) && LinksAccepted(d, act)
    requires Typed(act.left.value) ==> IsAType(d, act.id, act.left.value.schema)
    ensures LeftWithoutFault(View(d), act, act.left.value, TypedFor(d, act).value)
  {
    var schema, a := TypedFor(d, act).value, act.left.value;
    TypedForIsJudging(d, act, schema);
    TypesAreJudged(d, act.id, a.schema);
    forall n | 0 <= n < |a.body.values| && a.body.values[n].part != "" && a.body.values[n].field in schema.declares
      ensures schema.declares[a.body.values[n].field].parts
    {
      AcceptedAllowsParts(d, act, n);
    }
    hide View, TypedFor, LinksAccepted, IsAType;
  }

  /** Whether every link content carries in fields a schema declares lands, or is one that waited and still waits. */
  ghost predicate EachAccepted(d: Overlay, act: Act, body: Body, schema: Schema)
  {
    var own := Links.Carried(body.values, schema.declares);
    forall n :: 0 <= n < |own| ==> Accepted(View(d), own, n, schema.declares, HeldWaiting(d.store, act.id))
  }

  /** Whether what an operation left, or that it left nothing, has no fault as its set leaves the corpus. */
  ghost predicate WithoutFault(d: Overlay, act: Act)
  {
    match act.left
    case None => FaultlessRemoval(d, act)
    case Some(a) => exists schema :: LeftWithoutFault(View(d), act, a, schema) && EachAccepted(d, act, a.body, schema)
  }

  lemma FaultlessExactly(d: Overlay, act: Act)
    ensures Faultless(d, act) <==> WithoutFault(d, act)
  {
    hide View, Links.Carried, FaultlessRemoval, HeldWaiting;
    if act.left.Some? {
      var a := act.left.value;
      if Faultless(d, act) {
        FaultlessLeaves(d, act);
        var schema := TypedFor(d, act).value;
        hide TypedFor, LeftWithoutFault, Accepted;
        assert EachAccepted(d, act, a.body, schema);
      }
      if WithoutFault(d, act) {
        var schema :| LeftWithoutFault(View(d), act, a, schema) && EachAccepted(d, act, a.body, schema);
        TypedForIsJudging(d, act, schema);
        TypesAreJudged(d, act.id, a.schema);
        hide TypedFor, IsAType, Accepted;
      }
    }
  }

  /** A set is drafted exactly when each of its operations acts and leaves no fault: nothing but content that fits the
      version it conforms to, links that land or wait, and types that read only kept versions of others; and when no link
      from outside it is left into a part it drops. */
  lemma DraftedExactly(s: Store, ops: seq<Operation>)
    ensures DraftSet(s, ops).Drafted? <==>
      && Applied(s, ops).Some?
      && var (d, acts) := Applied(s, ops).value;
        (forall k :: 0 <= k < |acts| ==> WithoutFault(d, acts[k])) && KeptWhole(d, acts)
  {
    hide Applied, Faultless, WithoutFault, KeptWhole;
    if Applied(s, ops).Some? {
      var (d, acts) := Applied(s, ops).value;
      forall k | 0 <= k < |acts|
        ensures Faultless(d, acts[k]) <==> WithoutFault(d, acts[k])
      {
        FaultlessExactly(d, acts[k]);
      }
    }
  }

  /** Whether nothing a set left alone links into a part that what the set puts there lacks. */
  ghost predicate NoPartIsMissed(s: Store, put: map<Iri, Artifact>)
  {
    forall i, l :: i in s.rows && i !in put && l in s.rows[i].links && !l.implicit && l.target in put && l.target in s.rows ==>
      (l.part in s.rows[l.target].content.body.parts ==> l.part in put[l.target].body.parts)
  }

  /** A set of creates or revisions drops no part linked into from outside exactly when the store holds no link into one
      from an artifact the set leaves alone. */
  lemma KeptWholeExactlyWhen(s: Store, ops: seq<Operation>)
    requires Inv(s) && AllPut(ops) && Applied(s, ops).Some?
    ensures var (d, acts) := Applied(s, ops).value;
      KeptWhole(d, acts) <==> NoPartIsMissed(s, d.pending)
  {
    var (d, acts) := Applied(s, ops).value;
    AppliedIsReady(s, ops);
    LastIsPending(s, ops);
    assert d.store == s && d.removed == {} && d.pending.Keys == ActedOn(acts);
    hide Applied, Inv, Ready, LeavesPending;
    if KeptWhole(d, acts) {
      WholeMissesNone(d, acts);
    }
    if NoPartIsMissed(s, d.pending) {
      MissingNoneIsWhole(d, acts);
    }
  }

  lemma WholeMissesNone(d: Overlay, acts: seq<Act>)
    requires d.removed == {} && d.pending.Keys == ActedOn(acts) && KeptWhole(d, acts)
    ensures NoPartIsMissed(d.store, d.pending)
  {
    var s := d.store;
    forall i, l | i in s.rows && i !in d.pending && l in s.rows[i].links && !l.implicit && l.target in d.pending
      && l.target in s.rows && l.part in s.rows[l.target].content.body.parts
      ensures l.part in d.pending[l.target].body.parts
    {
      StoredLinkingsHold(i, s.rows[i].links);
      LinksInHolds(d, l.target);
      var each := AsLinking(i, l);
      assert each in LinksIn(d, l.target);
      assert l.target in ActedOn(acts);
      var k :| 0 <= k < |acts| && acts[k].id == l.target;
      hide LinksIn;
    }
  }

  lemma MissingNoneIsWhole(d: Overlay, acts: seq<Act>)
    requires d.removed == {} && d.pending.Keys == ActedOn(acts) && NoPartIsMissed(d.store, d.pending)
    ensures KeptWhole(d, acts)
  {
    var s := d.store;
    forall k, each | 0 <= k < |acts| && each in LinksIn(d, acts[k].id) && each.part in Dropped(d, acts[k].id)
      ensures Touched(d, each.source)
    {
      LinksInHolds(d, acts[k].id);
      if !Touched(d, each.source) {
        StoredLinkingsHold(each.source, s.rows[each.source].links);
        assert false;
      }
    }
  }

  // ---- and what is not refused is what every store holds

  lemma StandingFits(d: Overlay, acts: seq<Act>, k: nat, a: Artifact)
    requires k < |acts| && Stands(d, acts, k) && IsLast(acts, k) && acts[k].left == Some(a)
    requires acts[k].id in View(d).held && View(d).held[acts[k].id] == a
    ensures FitsItsType(View(d), acts[k].id)
  {
    FaultlessLeaves(d, acts[k]);
    hide View, TypedFor, LinksAccepted, IsAType;
  }

  lemma PlannedStands(s: Store, ops: seq<Operation>, k: nat)
    requires Planned(s, ops).Drafted? && k < |Planned(s, ops).acts|
    ensures Stands(Planned(s, ops).draft, Planned(s, ops).acts, k)
  {
    hide Applied, Stands, KeptWhole;
  }

  lemma PendingFits(s: Store, ops: seq<Operation>, i: Iri)
    requires Inv(s) && AllPut(ops) && Planned(s, ops).Drafted? && i in Planned(s, ops).draft.pending
    ensures var c := View(Planned(s, ops).draft); i in c.held && FitsItsType(c, i)
  {
    var r := Planned(s, ops);
    hide *;
    DraftedPuts(s, ops);
    LastChanges(r.acts, r.handed);
    var k := LastAt(r.handed, i);
    AsManyChanges(r.acts, r.handed);
    PlannedStands(s, ops, k);
    PendingIsHeld(r.draft, r.acts, k);
    StandingFits(r.draft, r.acts, k, r.draft.pending[i]);
  }

  lemma AsManyChanges(acts: seq<Act>, changes: seq<Change>)
    requires AllBare(acts, changes)
    ensures |acts| == |changes|
  {
  }

  lemma PendingIsHeld(d: Overlay, acts: seq<Act>, k: nat)
    requires LeavesPending(d, acts) && k < |acts| && IsLast(acts, k)
    ensures var i := acts[k].id;
      i in d.pending && i in View(d).held && View(d).held[i] == d.pending[i] && acts[k].left == Some(d.pending[i])
  {
    ViewReads(d);
    assert acts[k].id in ActedOn(acts);
    hide View;
  }

  /** What keeps its content, and every version it conforms to, fits as it did. */
  lemma FitsStill(c: Corpus, e: Corpus, i: Iri)
    requires i in c.held && FitsItsType(c, i) && i in e.held && e.held[i] == c.held[i]
    requires var v := Conforming(c.held[i]); v in e.kept && v in c.kept && e.kept[v] == c.kept[v]
    ensures FitsItsType(e, i)
  {
  }

  lemma MadeIsBuiltOnOthers(s: Store, ops: seq<Operation>, v: Named, k: nat)
    requires Planned(s, ops).Drafted? && AllBare(Planned(s, ops).acts, Planned(s, ops).handed)
    requires Makes(Planned(s, ops).handed, k, v)
    ensures IsBuiltOnOthers(v, Planned(s, ops).handed[k].content.value.schema)
  {
    var r := Planned(s, ops);
    assert Stands(r.draft, r.acts, k) && Bare(r.acts[k], r.handed[k]);
    TypesAreJudged(r.draft, r.acts[k].id, r.acts[k].left.value.schema);
    hide View, Planned, TypedFor, LinksAccepted, IsAType;
  }

  /** What a set of creates or revisions leaves, beside what it was drafted over: whatever it did not put as it was held,
      every version as it was kept, and no version more but those it makes. */
  ghost predicate LeavesThePut(c: Corpus, r: Drafted, e: Corpus)
    requires r.Drafted?
  {
    && (forall i :: i in e.held && i !in r.draft.pending ==> i in c.held && e.held[i] == c.held[i])
    && KeepsAndAdds(c.kept, r.handed, e.kept)
  }

  lemma LandedKeeps(s: Store, ops: seq<Operation>, entries: seq<Entry>)
    requires Inv(s) && OfOneSort(ops) && AllPut(ops) && Planned(s, ops).Drafted?
    requires Land(s, Planned(s, ops).handed, entries).Landed?
    ensures KeepsAndAdds(s.kept, Planned(s, ops).handed, Land(s, Planned(s, ops).handed, entries).store.kept)
  {
    PutContents(s, ops, entries);
    hide Planned, Inv, VersionsStay, Rises, KeepsAndAdds;
    WritingKeepsAndAdds(s, Planned(s, ops).handed);
    hide WriteAll, AllLand, SeversAny, Unmoved, IdsTaken;
  }

  lemma LandedHolds(s: Store, ops: seq<Operation>, entries: seq<Entry>)
    requires Inv(s) && OfOneSort(ops) && AllPut(ops) && Planned(s, ops).Drafted?
    requires Land(s, Planned(s, ops).handed, entries).Landed?
    ensures var r := Planned(s, ops);
      var e := StoreView(Land(s, r.handed, entries).store);
      && e == View(r.draft) && AllBare(r.acts, r.handed)
      && forall i :: i in e.held && i !in r.draft.pending ==> i in StoreView(s).held && e.held[i] == StoreView(s).held[i]
  {
    DraftedPuts(s, ops);
    LandedView(s, ops, entries);
    var r := Planned(s, ops);
    hide Planned, Inv, Land, Ready, HandsOver, KeptWhole, AllBare, Applied;
    ViewReads(r.draft);
    hide View;
  }

  lemma PutsLeaveThePut(s: Store, ops: seq<Operation>, entries: seq<Entry>)
    requires Inv(s) && OfOneSort(ops) && AllPut(ops) && Planned(s, ops).Drafted?
    requires Land(s, Planned(s, ops).handed, entries).Landed?
    ensures var r := Planned(s, ops);
      var e := StoreView(Land(s, r.handed, entries).store);
      LeavesThePut(StoreView(s), r, e) && e == View(r.draft) && AllBare(r.acts, r.handed) && Conform(StoreView(s))
  {
    assert Conform(StoreView(s));
    hide Planned, Inv, Land, View, AllBare, KeepsAndAdds, Conform;
    LandedKeeps(s, ops, entries);
    LandedHolds(s, ops, entries);
  }

  lemma KeptIsBuiltOnOthers(s: Store, ops: seq<Operation>, c: Corpus, e: Corpus, v: Named)
    requires Planned(s, ops).Drafted? && AllBare(Planned(s, ops).acts, Planned(s, ops).handed)
    requires LeavesThePut(c, Planned(s, ops), e) && AllFit(c) && v in e.kept
    ensures IsBuiltOnOthers(v, e.kept[v].schema)
  {
    hide Planned, AllBare, IsBuiltOnOthers, FitsItsType;
    if v !in c.kept {
      var k :| Makes(Planned(s, ops).handed, k, v);
      MadeIsBuiltOnOthers(s, ops, v, k);
    }
  }

  lemma LeftFits(c: Corpus, r: Drafted, e: Corpus, i: Iri)
    requires r.Drafted? && LeavesThePut(c, r, e) && AllFit(c) && Conform(c) && i in e.held && i !in r.draft.pending
    ensures FitsItsType(e, i)
  {
    hide FitsItsType, IsBuiltOnOthers;
    FitsStill(c, e, i);
  }

  lemma PutsKeepFit(s: Store, ops: seq<Operation>, entries: seq<Entry>)
    requires Inv(s) && AllFit(StoreView(s)) && OfOneSort(ops) && AllPut(ops) && Planned(s, ops).Drafted?
    requires Land(s, Planned(s, ops).handed, entries).Landed?
    ensures AllFit(StoreView(Land(s, Planned(s, ops).handed, entries).store))
  {
    var r := Planned(s, ops);
    var c, e := StoreView(s), StoreView(Land(s, r.handed, entries).store);
    hide *;
    PutsLeaveThePut(s, ops, entries);
    forall i | i in e.held
      ensures FitsItsType(e, i)
    {
      if i in r.draft.pending {
        PendingFits(s, ops, i);
      } else {
        LeftFits(c, r, e, i);
      }
    }
    forall v | v in e.kept
      ensures IsBuiltOnOthers(v, e.kept[v].schema)
    {
      KeptIsBuiltOnOthers(s, ops, c, e, v);
    }
    EachFits(e);
  }

  lemma EachFits(c: Corpus)
    requires forall i :: i in c.held ==> FitsItsType(c, i)
    requires forall v :: v in c.kept ==> IsBuiltOnOthers(v, c.kept[v].schema)
    ensures AllFit(c)
  {
  }

  /** Whether a corpus holds and keeps no more than another. */
  ghost predicate NoMore(e: Corpus, c: Corpus)
  {
    && (forall i :: i in e.held ==> i in c.held && e.held[i] == c.held[i])
    && (forall v :: v in e.kept ==> v in c.kept && e.kept[v] == c.kept[v])
  }

  lemma FewerFit(c: Corpus, e: Corpus)
    requires AllFit(c) && NoMore(e, c) && Conform(e)
    ensures AllFit(e)
  {
    hide FitsItsType, IsBuiltOnOthers;
    forall i | i in e.held
      ensures FitsItsType(e, i)
    {
      FitsStillThere(c, e, i);
    }
  }

  lemma FitsStillThere(c: Corpus, e: Corpus, i: Iri)
    requires NoMore(e, c) && i in e.held && FitsItsType(c, i) && Conforming(e.held[i]) in e.kept
    ensures FitsItsType(e, i)
  {
  }

  lemma ClearedIsNoMore(s: Store, removed: set<Iri>)
    ensures NoMore(Cleared(s, removed), StoreView(s))
  {
  }

  lemma RemovalsLeave(s: Store, ops: seq<Operation>, entries: seq<Entry>)
    requires Inv(s) && AllRemovals(ops) && Planned(s, ops).Drafted?
    requires Land(s, Planned(s, ops).handed, entries).Landed?
    ensures StoreView(Land(s, Planned(s, ops).handed, entries).store) == Cleared(s, Planned(s, ops).draft.removed)
  {
    var r := Planned(s, ops);
    RemovalsClear(s, ops);
    LandedView(s, ops, entries);
    hide Planned, Inv, Land, View, AllBare, FaultlessRemoval, Applied;
    ClearingView(r.draft);
  }

  lemma InvConforms(s: Store)
    requires Inv(s)
    ensures Conform(StoreView(s))
  {
    hide RowsKept, Placed, Referring, LinkedWell, Paced, StoreView, Conform;
  }

  lemma RemovalsKeepFit(s: Store, ops: seq<Operation>, entries: seq<Entry>)
    requires Inv(s) && AllFit(StoreView(s)) && AllRemovals(ops) && Planned(s, ops).Drafted?
    requires Land(s, Planned(s, ops).handed, entries).Landed?
    ensures AllFit(StoreView(Land(s, Planned(s, ops).handed, entries).store))
  {
    var r := Planned(s, ops);
    var t := Land(s, r.handed, entries).store;
    hide *;
    RemovalsKeepInv(s, ops, entries);
    RemovalsLeave(s, ops, entries);
    InvConforms(t);
    ClearedIsNoMore(s, r.draft.removed);
    FewerFit(StoreView(s), StoreView(t));
  }

  /** A set landed where it was drafted keeps everything fitting its type, and every type built on others. */
  lemma LandedAsDraftedKeepsFit(s: Store, ops: seq<Operation>, entries: seq<Entry>)
    requires Inv(s) && AllFit(StoreView(s)) && OfOneSort(ops) && Planned(s, ops).Drafted?
    requires Land(s, Planned(s, ops).handed, entries).Landed?
    ensures AllFit(StoreView(Land(s, Planned(s, ops).handed, entries).store))
  {
    if AllRemovals(ops) {
      RemovalsKeepFit(s, ops, entries);
    } else {
      PutsKeepFit(s, ops, entries);
    }
  }

  lemma RecordingKeepsFit(s: Store, entries: seq<Entry>)
    requires Land(s, [], entries).Landed?
    ensures StoreView(Land(s, [], entries).store) == StoreView(s)
  {
    assert WriteAll(s, []) == Landed(s);
  }

  lemma StartedFits(meta: Artifact, entry: Entry, s: Store)
    requires Metaschema(meta) && Started(meta, entry) == Landed(s)
    ensures AllFit(StoreView(s))
  {
    var c := Change(TYPES, Some(meta), [], {}, 0, 1, [], TYPES, Some(1));
    assert [c][..0] == [];
    assert WriteAll(EMPTY, []) == Landed(EMPTY);
    assert WriteAll(EMPTY, [c]).store == Write(EMPTY, c);
    assert StoreView(s).held.Keys == {TYPES} && StoreView(s).kept.Keys == {Named(TYPES, 1)};
  }

  lemma FreshFits(w: World)
    requires Runs.Fresh(w)
    ensures AllFit(StoreView(w.store))
  {
    var meta, entry :| Metaschema(meta) && Started(meta, entry) == Landed(w.store);
    StartedFits(meta, entry, w.store);
  }

  lemma AStepKeepsFit(w: World, step: Step, x: World)
    requires WellKept(w) && Next(w, step, x) && NoneRebornIn(w, step) && AllFit(StoreView(w.store))
    ensures AllFit(StoreView(x.store))
  {
    if SetOf(w, step).Some? {
      var (ops, entries) := SetOf(w, step).value;
      StepsAreSerial(w, step, x);
      assert Inv(w.store);
      hide *;
      LandedAsDraftedKeepsFit(w.store, ops, entries);
    } else if step.Records? {
      RecordingKeepsFit(w.store, step.entries);
    }
  }

  /** In every store of every unbroken run: each artifact's content fits the version of its type it conforms to, each link
      it carries into a part is in a field that allows parts, and every version kept is of a type that is one. */
  lemma {:induction false} EveryRunHoldsWhatFits(worlds: seq<World>, steps: seq<Step>, k: nat)
    requires IsUnbrokenRun(worlds, steps) && k < |worlds|
    ensures AllFit(StoreView(worlds[k].store))
  {
    hide *;
    UnbrokenRunsAreBorne(worlds, steps);
    BorneRunBegins(worlds, steps);
    if k == 0 {
      FreshFits(worlds[0]);
    } else {
      EveryRunHoldsWhatFits(worlds, steps, k - 1);
      AStepOfARun(worlds, steps, k - 1);
      AnUnbrokenStep(worlds, steps, k - 1);
      AStepKeepsFit(worlds[k - 1], steps[k - 1], worlds[k]);
    }
  }

  // ---- the version conformed to never falls

  /** Whether what a draft puts over what its store holds conforms to no lower version than that. */
  ghost predicate ConformsNoLower(d: Overlay)
  {
    forall i :: i in d.pending && i in d.store.rows ==> d.pending[i].conforms >= d.store.rows[i].content.conforms
  }

  lemma ActingConformsNoLower(d: Overlay, op: Operation)
    requires (op.Create? || op.Revise?) && Acted(d, op).Some?
    ensures var act := Acted(d, op).value.1;
      act.left.Some? && (Holds(d, act.id) ==> act.left.value.conforms >= ArtifactAt(d, act.id).conforms)
  {
  }

  lemma OneMoreConformsNoLower(d: Overlay, e: Overlay, act: Act)
    requires ConformsNoLower(d) && d.removed == {} && act.left.Some?
    requires Holds(d, act.id) ==> act.left.value.conforms >= ArtifactAt(d, act.id).conforms
    requires e.store == d.store && e.pending == d.pending[act.id := act.left.value]
    ensures ConformsNoLower(e)
  {
  }

  lemma NothingPutConformsNoLower(s: Store)
    ensures ConformsNoLower(Draft.Fresh(s)) && Applied(s, []) == Some((Draft.Fresh(s), []))
  {
  }

  lemma ReadyTakesNone(d: Overlay)
    requires Ready(d)
    ensures d.removed == {}
  {
  }

  lemma {:induction false} AppliedConformsNoLower(s: Store, ops: seq<Operation>)
    requires Inv(s) && AllPut(ops) && Applied(s, ops).Some?
    ensures ConformsNoLower(Applied(s, ops).value.0)
  {
    if ops == [] {
      NothingPutConformsNoLower(s);
    } else {
      var n := |ops| - 1;
      assert AllPut(ops[..n]) && (ops[n].Create? || ops[n].Revise?);
      hide *;
      var d, acts, e, act := LastOperation(s, ops);
      AppliedConformsNoLower(s, ops[..n]);
      AppliedIsReady(s, ops[..n]);
      OneMorePut(d, ops[n]);
      ReadyTakesNone(d);
      ActingConformsNoLower(d, ops[n]);
      OneMoreConformsNoLower(d, e, act);
    }
  }

  /** Whether nothing that lives on in a later store conforms to a lower version there. */
  ghost predicate NoneFalls(s: Store, t: Store)
  {
    forall i :: OneLife(s, t, i) ==> s.rows[i].content.conforms <= t.rows[i].content.conforms
  }

  lemma PutsLetNoneFall(s: Store, ops: seq<Operation>, entries: seq<Entry>)
    requires Inv(s) && OfOneSort(ops) && AllPut(ops) && Planned(s, ops).Drafted?
    requires Land(s, Planned(s, ops).handed, entries).Landed?
    ensures NoneFalls(s, Land(s, Planned(s, ops).handed, entries).store)
  {
    var r := Planned(s, ops);
    var t := Land(s, r.handed, entries).store;
    hide *;
    DraftedPuts(s, ops);
    AppliedConformsNoLower(s, ops);
    LandedHolds(s, ops, entries);
    PutContents(s, ops, entries);
    PutRowsConformNoLower(s, r.draft, t);
  }

  lemma PutRowsConformNoLower(s: Store, d: Overlay, t: Store)
    requires d.store == s && ConformsNoLower(d)
    requires forall i :: i in t.rows && i in d.pending ==> t.rows[i].content == d.pending[i]
    requires forall i :: i in StoreView(t).held && i !in d.pending ==>
      i in StoreView(s).held && StoreView(t).held[i] == StoreView(s).held[i]
    ensures NoneFalls(s, t)
  {
    forall i | OneLife(s, t, i)
      ensures s.rows[i].content.conforms <= t.rows[i].content.conforms
    {
      assert i in StoreView(t).held && StoreView(t).held[i] == t.rows[i].content;
      assert StoreView(s).held[i] == s.rows[i].content;
    }
  }

  lemma RowsStayLetNoneFall(s: Store, t: Store)
    requires forall i :: i in t.rows ==> i in s.rows && t.rows[i] == s.rows[i]
    ensures NoneFalls(s, t)
  {
  }

  lemma RemovalsLetNoneFall(s: Store, ops: seq<Operation>, entries: seq<Entry>)
    requires AllRemovals(ops) && Planned(s, ops).Drafted?
    requires Land(s, Planned(s, ops).handed, entries).Landed?
    ensures NoneFalls(s, Land(s, Planned(s, ops).handed, entries).store)
  {
    var r := Planned(s, ops);
    RemovalsClear(s, ops);
    hide Planned, Applied, AllBare, FaultlessRemoval, WriteAll, AllLand, SeversAny, Unmoved, NoneFalls;
    RowsAfterRemovals(s, r.handed);
    RowsStayLetNoneFall(s, Land(s, r.handed, entries).store);
  }

  lemma AStepLetsNoneFall(w: World, step: Step, x: World)
    requires WellKept(w) && Next(w, step, x) && NoneRebornIn(w, step)
    ensures NoneFalls(w.store, x.store)
  {
    if SetOf(w, step).Some? {
      var (ops, entries) := SetOf(w, step).value;
      StepsAreSerial(w, step, x);
      WellKeptIsKept(w);
      hide Inv, Planned, Land, NoneFalls, WellKept, Next, NoneRebornIn, RowsKept;
      if AllRemovals(ops) {
        RemovalsLetNoneFall(w.store, ops, entries);
      } else {
        PutsLetNoneFall(w.store, ops, entries);
      }
    } else if step.Records? {
      RecordingKeepsFit(w.store, step.entries);
      assert WriteAll(w.store, []) == Landed(w.store);
    }
  }

  lemma NoneFallsOnwards(s: Store, t: Store, u: Store)
    requires RowsKept(s) && Evolved(s, t) && Evolved(t, u) && NoneFalls(s, t) && NoneFalls(t, u)
    ensures NoneFalls(s, u)
  {
    hide RowsKept, Evolved;
    forall i | OneLife(s, u, i)
      ensures s.rows[i].content.conforms <= u.rows[i].content.conforms
    {
      LifeInBetween(s, t, u, i);
    }
  }

  lemma NoneFallsAtOnce(s: Store)
    ensures NoneFalls(s, s)
  {
  }

  /** Over every unbroken run, for as long as an artifact lives on, the version of its type it conforms to never falls. */
  lemma {:induction false} EveryRunLetsNoneFall(worlds: seq<World>, steps: seq<Step>, j: nat, k: nat)
    requires IsUnbrokenRun(worlds, steps) && j <= k < |worlds|
    ensures NoneFalls(worlds[j].store, worlds[k].store)
    decreases k
  {
    hide *;
    UnbrokenRunsAreBorne(worlds, steps);
    BorneRunBegins(worlds, steps);
    if j == k {
      NoneFallsAtOnce(worlds[j].store);
    } else {
      EveryRunLetsNoneFall(worlds, steps, j, k - 1);
      AStepOfARun(worlds, steps, j);
      AStepOfARun(worlds, steps, k - 1);
      AnUnbrokenStep(worlds, steps, k - 1);
      RunsEvolve(worlds, steps, j, k - 1);
      AStepLetsNoneFall(worlds[k - 1], steps[k - 1], worlds[k]);
      NoneFallsOnwards(worlds[j].store, worlds[k - 1].store, worlds[k].store);
    }
  }
}
