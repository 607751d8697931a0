/** The links the store holds are those contents carry: each artifact's stored links are its implicit one and, in the
    order it carries them, the links its content carries in the fields its own version of its type declares. With them,
    when a set of removals the draft accepts lands. */
module Carrying {
  import opened Iris
  import opened PortValues
  import opened Landing
  import opened Composition
  import opened Links
  import opened Draft
  import opened Drafting
  import opened Invariants
  import opened Applying
  import opened Agreement
  import opened Keeping
  import opened Runs

  /** The type of types, as a store is started with it, holds no link; every other artifact's are those it carries. */
  ghost predicate RowCarries(kept: map<Named, Artifact>, i: Iri, r: Row)
  {
    || (i == TYPES && r.links == [])
    || (Conforming(r.content) in kept && r.links == AsCarried(r.content, kept[Conforming(r.content)].schema))
  }

  ghost predicate AllCarry(s: Store)
  {
    forall i :: i in s.rows ==> RowCarries(s.kept, i, s.rows[i])
  }

  lemma PutRowCarries(d: Overlay, kept: map<Named, Artifact>, i: Iri, a: Artifact, c: Change, r: Row)
    requires HandsOver(d, i, a, c) && kept == View(d).kept && r.content == a && r.links == StoreAll(c.links)
    ensures RowCarries(kept, i, r)
  {
    HandedAreStoredAsCarried(a, Kept(View(d), Conforming(a)).value.schema, View(d), HeldWaiting(d.store, i));
  }

  lemma AllPutRowsCarry(s: Store, d: Overlay, changes: seq<Change>, t: Store)
    requires AllCarry(s) && t.kept == View(d).kept
    requires forall v :: v in s.kept ==> v in t.kept && t.kept[v] == s.kept[v]
    requires forall i :: i in t.rows ==> Left(s, changes, i) == Some(t.rows[i])
    requires forall i :: i in Changed(changes) ==>
      i in d.pending && HandsOver(d, i, d.pending[i], changes[LastAt(changes, i)])
    ensures AllCarry(t)
  {
    hide HandsOver, AsCarried, View;
    forall i | i in t.rows
      ensures RowCarries(t.kept, i, t.rows[i])
    {
      if i in Changed(changes) {
        var c := changes[LastAt(changes, i)];
        assert HandsOver(d, i, d.pending[i], c);
        HandingIs(d, i, c);
        PutRowCarries(d, t.kept, i, d.pending[i], c, t.rows[i]);
      } else {
        assert t.rows[i] == s.rows[i] && RowCarries(s.kept, i, s.rows[i]);
      }
    }
  }

  lemma HandingIs(d: Overlay, i: Iri, c: Change)
    requires i in d.pending && HandsOver(d, i, d.pending[i], c)
    ensures c.content == Some(d.pending[i])
  {
  }

  lemma PutsCarry(s: Store, ops: seq<Operation>, entries: seq<Entry>)
    requires Inv(s) && AllCarry(s) && OfOneSort(ops) && AllPut(ops) && Planned(s, ops).Drafted?
    requires Land(s, Planned(s, ops).handed, entries).Landed?
    ensures AllCarry(Land(s, Planned(s, ops).handed, entries).store)
  {
    var r := Planned(s, ops);
    var t := Land(s, r.handed, entries).store;
    DraftedPuts(s, ops);
    LandedView(s, ops, entries);
    LandedRows(s, ops, entries);
    VersionsKeptAndMade(s, ops);
    assert t.kept == StoreView(t).kept == KeptBy(r.draft);
    hide Planned, Land, Inv, Ready, KeptWhole, AllBare, LeavesPending, AllCarry, RowsKept;
    AllPutRowsCarry(s, r.draft, r.handed, t);
  }

  lemma RemovalsCarry(s: Store, ops: seq<Operation>, entries: seq<Entry>)
    requires Inv(s) && AllCarry(s) && AllRemovals(ops) && Planned(s, ops).Drafted?
    requires Land(s, Planned(s, ops).handed, entries).Landed?
    ensures AllCarry(Land(s, Planned(s, ops).handed, entries).store)
  {
    var r := Planned(s, ops);
    var t := Land(s, r.handed, entries).store;
    RemovalsKeepInv(s, ops, entries);
    DraftedRemovals(s, ops);
    ClearingView(r.draft);
    assert t.rows == WriteAll(s, r.handed).store.rows;
    assert t.kept == StoreView(WriteAll(s, r.handed).store).kept == Cleared(s, r.draft.removed).kept;
    assert Conform(StoreView(t));
    hide Planned, Land, Inv, WriteAll, AllBare, FaultlessRemoval, AsCarried;
    forall i | i in t.rows
      ensures RowCarries(t.kept, i, t.rows[i])
    {
      assert RowCarries(s.kept, i, s.rows[i]);
      assert i in StoreView(t).held && Conforming(StoreView(t).held[i]) in t.kept;
    }
  }

  lemma LandedAsDraftedCarries(s: Store, ops: seq<Operation>, entries: seq<Entry>)
    requires Inv(s) && AllCarry(s) && OfOneSort(ops) && Planned(s, ops).Drafted?
    requires Land(s, Planned(s, ops).handed, entries).Landed?
    ensures AllCarry(Land(s, Planned(s, ops).handed, entries).store)
  {
    if AllRemovals(ops) {
      RemovalsCarry(s, ops, entries);
    } else {
      PutsCarry(s, ops, entries);
    }
  }

  lemma RecordingCarries(s: Store, entries: seq<Entry>)
    requires AllCarry(s) && Land(s, [], entries).Landed?
    ensures AllCarry(Land(s, [], entries).store)
  {
    assert WriteAll(s, []) == Landed(s);
  }

  lemma StartedCarries(meta: Artifact, entry: Entry, s: Store)
    requires Metaschema(meta) && Started(meta, entry) == Landed(s)
    ensures AllCarry(s)
  {
    var c := Change(TYPES, Some(meta), [], {}, 0, 1, [], TYPES, Some(1));
    assert [c][..0] == [];
    assert WriteAll(EMPTY, []) == Landed(EMPTY);
    assert WriteAll(EMPTY, [c]).store == Write(EMPTY, c);
  }

  lemma FreshCarries(w: World)
    requires Runs.Fresh(w)
    ensures AllCarry(w.store)
  {
    var meta, entry :| Metaschema(meta) && Started(meta, entry) == Landed(w.store);
    StartedCarries(meta, entry, w.store);
  }

  lemma AStepCarries(w: World, step: Step, x: World)
    requires WellKept(w) && Next(w, step, x) && NoneRebornIn(w, step) && AllCarry(w.store)
    ensures AllCarry(x.store)
  {
    if SetOf(w, step).Some? {
      var (ops, entries) := SetOf(w, step).value;
      StepsAreSerial(w, step, x);
      assert Inv(w.store);
      hide *;
      LandedAsDraftedCarries(w.store, ops, entries);
    } else if step.Records? {
      RecordingCarries(w.store, step.entries);
    }
  }

  /** `AllCarry` holds throughout an unbroken run: stored links are always `AsCarried` of the content and of the
      schema its version was made with. */
  lemma {:induction false} EveryRunStoresWhatIsCarried(worlds: seq<World>, steps: seq<Step>, k: nat)
    requires IsUnbrokenRun(worlds, steps) && k < |worlds|
    ensures AllCarry(worlds[k].store)
  {
    hide *;
    UnbrokenRunsAreBorne(worlds, steps);
    BorneRunBegins(worlds, steps);
    if k == 0 {
      FreshCarries(worlds[0]);
    } else {
      EveryRunStoresWhatIsCarried(worlds, steps, k - 1);
      AStepOfARun(worlds, steps, k - 1);
      AnUnbrokenStep(worlds, steps, k - 1);
      AStepCarries(worlds[k - 1], steps[k - 1], worlds[k]);
    }
  }

  // ---- when removals land

  /** Whether something left is of a kind whose type is taken out. */
  ghost predicate LeavesItsKind(s: Store, removed: set<Iri>)
  {
    exists i :: i in s.rows && i !in removed && s.rows[i].kind in removed
  }

  lemma RemovedIsLinkedByItsKindOnly(s: Store, d: Overlay, acts: seq<Act>, t: Store, i: Iri, l: Stored)
    requires RowsKept(s) && AllCarry(s) && Clearing(d) && d.store == s && d.removed == ActedOn(acts)
    requires forall k :: 0 <= k < |acts| ==> FaultlessRemoval(d, acts[k])
    requires i in s.rows && i !in d.removed && l in s.rows[i].links && l.target in d.removed
    ensures s.rows[i].kind in d.removed
  {
    assert RowCarries(s.kept, i, s.rows[i]) && RowKept(i, s.rows[i], s.landings);
    if l.implicit {
      var n :| 0 <= n < |s.rows[i].links| && s.rows[i].links[n] == l;
      assert n == 0;
    } else {
      var k :| 0 <= k < |acts| && acts[k].id == l.target;
      assert FaultlessRemoval(d, acts[k]);
      StoredLinkingsHold(i, s.rows[i].links);
      LinksInHolds(d, l.target);
      assert false;
    }
  }

  /** A set of removals the draft accepts lands exactly when it leaves no artifact of a type it takes out: of everything
      the port asks of one, that alone is not asked above it. */
  lemma RemovalsLandWhenNoneIsLeftOfTheirKind(s: Store, ops: seq<Operation>, entries: seq<Entry>)
    requires Inv(s) && AllCarry(s) && AllRemovals(ops) && Planned(s, ops).Drafted? && !IdsTaken(s, entries)
    ensures Land(s, Planned(s, ops).handed, entries).Landed?
      <==> !LeavesItsKind(s, Changed(Planned(s, ops).handed))
    ensures LeavesItsKind(s, Changed(Planned(s, ops).handed)) ==> Land(s, Planned(s, ops).handed, entries) == Linked
  {
    var r := Planned(s, ops);
    var o := Land(s, r.handed, entries);
    AcceptedRemovalsLandOrAreLinked(s, ops, entries);
    DraftedRemovals(s, ops);
    var written := WriteAll(s, r.handed).store;
    var removed := Changed(r.handed);
    if o.Landed? && LeavesItsKind(s, removed) {
      RemovalsTargetNone(s, r.handed, entries);
      var i :| i in s.rows && i !in removed && s.rows[i].kind in removed;
      assert RowKept(i, s.rows[i], s.landings);
      TypeStays(s, removed, i);
      assert false;
    }
    if o.Linked? && !LeavesItsKind(s, removed) {
      assert SeversAny(s, written, removed);
      var i, l :| i in written.rows && l in written.rows[i].links && Severs(s, written, removed, i, l);
      RemovedIsLinkedByItsKindOnly(s, r.draft, r.acts, written, i, l);
      assert false;
    }
  }
}
