/** A set drafted on the store it lands on keeps what every store kb reaches keeps. */
module Keeping {
  import opened Iris
  import opened PortValues
  import opened Landing
  import opened Composition
  import opened Links
  import opened Draft
  import opened Drafting
  import opened Invariants
  import opened Applying
  import opened Agreement

  // ---- creates and revisions

  ghost predicate MadeBy(acts: seq<Act>, a: Artifact)
  {
    Typed(a) && exists k :: 0 <= k < |acts| && acts[k].left == Some(a)
  }

  /** Each version a draft of creates or revisions keeps is one the store kept, as it kept it, or one an operation of
      the set made; and none of the store's is lost. */
  ghost predicate KeepsAndMakes(s: Store, kept: map<Named, Artifact>, acts: seq<Act>)
  {
    && (forall v :: v in s.kept ==> v in kept && kept[v] == s.kept[v])
    && (forall v :: v in kept && v !in s.kept ==> MadeBy(acts, kept[v]))
  }

  lemma OneMoreMade(s: Store, kept: map<Named, Artifact>, acts: seq<Act>, act: Act)
    requires KeepsAndMakes(s, kept, acts) && act.left.Some?
    requires Typed(act.left.value) ==> Named(act.id, act.left.value.number) !in kept
    ensures KeepsAndMakes(s,
      if Typed(act.left.value) then kept[Named(act.id, act.left.value.number) := act.left.value] else kept, acts + [act])
  {
    var all := acts + [act];
    var a := act.left.value;
    var grown := if Typed(a) then kept[Named(act.id, a.number) := a] else kept;
    forall v | v in grown && v !in s.kept
      ensures MadeBy(all, grown[v])
    {
      if v in kept && grown[v] == kept[v] {
        var k :| 0 <= k < |acts| && acts[k].left == Some(kept[v]);
        assert all[k] == acts[k];
      } else {
        assert all[|acts|] == act;
      }
    }
  }

  lemma {:induction false} VersionsKeptAndMade(s: Store, ops: seq<Operation>)
    requires Inv(s) && AllPut(ops) && Applied(s, ops).Some?
    ensures KeepsAndMakes(s, KeptBy(Applied(s, ops).value.0), Applied(s, ops).value.1)
  {
    if ops == [] {
      FreshIsReady(s);
    } else {
      var n := |ops| - 1;
      var d, acts, e, act := LastOperation(s, ops);
      hide Applied, Acted, KeptBy, HeldBy, KeepsAndMakes;
      VersionsKeptAndMade(s, ops[..n]);
      AppliedIsReady(s, ops[..n]);
      OneMorePut(d, ops[n]);
      if Typed(act.left.value) {
        NumberIsFree(View(d), act.id, act.left.value);
      }
      OneMoreMade(s, KeptBy(d), acts, act);
    }
  }

  /** Every version a version made refers to is kept, as every version the store kept refers to kept ones. */
  lemma MadeReferToKept(s: Store, d: Overlay, acts: seq<Act>)
    requires Referring(StoreView(s)) && KeepsAndMakes(s, KeptBy(d), acts)
    requires forall k :: 0 <= k < |acts| ==> Stands(d, acts, k)
    ensures Referring(View(d))
  {
    hide HeldBy, KeptBy, LinksAccepted;
    var kept := KeptBy(d);
    forall v, n | v in kept && 0 <= n < |kept[v].schema.refers|
      ensures kept[v].schema.refers[n].to in kept
    {
      if v in s.kept {
        assert kept[v] == s.kept[v];
        assert s.kept[v].schema.refers[n].to in s.kept;
      } else {
        assert MadeBy(acts, kept[v]);
        var k :| 0 <= k < |acts| && acts[k].left == Some(kept[v]);
        assert Stands(d, acts, k);
        assert IsAType(d, acts[k].id, kept[v].schema);
      }
    }
  }

  lemma ReferringAfterPuts(s: Store, ops: seq<Operation>)
    requires Inv(s) && AllPut(ops) && Planned(s, ops).Drafted?
    ensures Referring(View(Planned(s, ops).draft))
  {
    var r := Planned(s, ops);
    DraftedPuts(s, ops);
    VersionsKeptAndMade(s, ops);
    assert forall k :: 0 <= k < |r.acts| ==> Stands(r.draft, r.acts, k);
    hide Planned, Applied, Ready, KeptWhole, AllBare, HandsOver, LeavesPending, Stands, KeepsAndMakes, View;
    MadeReferToKept(s, r.draft, r.acts);
  }

  /** Each operation makes of a type the version numbered as the revision it leaves it at. */
  lemma {:induction false} AppliedIsPaced(s: Store, ops: seq<Operation>)
    requires Inv(s) && AllPut(ops) && Applied(s, ops).Some?
    ensures Paced(View(Applied(s, ops).value.0))
  {
    if ops == [] {
      FreshIsReady(s);
    } else {
      var d, acts, e, act := LastOperation(s, ops);
      hide Applied, Acted, View, Placed, Versioned, Referring, LinkedWell, RowsKept;
      AppliedIsPaced(s, ops[..|ops| - 1]);
      AppliedIsReady(s, ops[..|ops| - 1]);
      OneMorePut(d, ops[|ops| - 1]);
      PutKeepsPace(View(d), act);
    }
  }

  lemma PutKeepsPace(c: Corpus, act: Act)
    requires Paced(c) && PutsOn(c, act)
    ensures Paced(PutIn(c, act.id, act.left.value))
  {
    var e := PutIn(c, act.id, act.left.value);
    forall i | TypedAt(e, i)
      ensures e.held[i].number == e.held[i].revision
    {
      assert i in c.held ==> (TypedAt(e, i) <==> TypedAt(c, i));
    }
  }

  /** What a set of creates or revisions puts over what the store holds is of its kind, at a later revision. */
  ghost predicate Rises(d: Overlay)
  {
    forall i :: i in d.pending && i in d.store.rows ==>
      d.pending[i].kind == d.store.rows[i].content.kind && d.pending[i].revision > d.store.rows[i].content.revision
  }

  lemma OneMoreRises(d: Overlay, e: Overlay, act: Act)
    requires Rises(d) && d.removed == {} && PutsOn(View(d), act)
    requires e.store == d.store && e.pending == d.pending[act.id := act.left.value]
    ensures Rises(e)
  {
    ViewReads(d);
  }

  lemma {:induction false} RevisionsRise(s: Store, ops: seq<Operation>)
    requires Inv(s) && AllPut(ops) && Applied(s, ops).Some?
    ensures Rises(Applied(s, ops).value.0)
  {
    if ops != [] {
      var d, acts, e, act := LastOperation(s, ops);
      hide Applied, Acted, Rises, PutsOn, View;
      RevisionsRise(s, ops[..|ops| - 1]);
      AppliedIsReady(s, ops[..|ops| - 1]);
      OneMorePut(d, ops[|ops| - 1]);
      assert d.removed == {};
      OneMoreRises(d, e, act);
    }
  }

  /** A link handed, as it is stored, lands where its field allows, or waits under a type its field allows. */
  lemma HandedIsWellLinked(d: Overlay, i: Iri, a: Artifact, c: Change, l: Stored)
    requires HandsOver(d, i, a, c) && l in StoreAll(c.links)
    ensures WellLinked(View(d), l)
  {
    var schema := Kept(View(d), Conforming(a)).value.schema;
    var own := Carried(a.body.values, schema.declares);
    var n :| 0 <= n < |c.links| && l == AsStored(c.links[n]);
    if n == 0 {
      assert l == AsStored(Implicit(a.kind));
    } else {
      assert c.links[n] == HandedLink(own, n - 1, schema.declares, View(d), HeldWaiting(d.store, i));
      assert Accepted(View(d), own, n - 1, schema.declares, HeldWaiting(d.store, i));
    }
  }

  lemma LinkedWellAfterPuts(s: Store, d: Overlay, changes: seq<Change>, t: Store)
    requires d.store == s && StoreView(t) == View(d) && LeftWellLinked(d)
    requires forall i :: Touched(d, i) <==> i in Changed(changes)
    requires forall i :: i in t.rows ==> Left(s, changes, i) == Some(t.rows[i])
    requires forall i :: i in Changed(changes) ==>
      i in d.pending && HandsOver(d, i, d.pending[i], changes[LastAt(changes, i)])
    ensures LinkedWell(t)
  {
    hide View, StoreView, HandsOver, WellLinked;
    forall i, l | i in t.rows && l in t.rows[i].links
      ensures WellLinked(StoreView(t), l)
    {
      if i in Changed(changes) {
        HandedIsWellLinked(d, i, d.pending[i], changes[LastAt(changes, i)], l);
      } else {
        assert t.rows[i] == s.rows[i];
      }
    }
  }

  lemma PutsKeepInv(s: Store, ops: seq<Operation>, entries: seq<Entry>)
    requires Inv(s) && OfOneSort(ops) && AllPut(ops) && Planned(s, ops).Drafted?
    requires Land(s, Planned(s, ops).handed, entries).Landed?
    ensures Inv(Land(s, Planned(s, ops).handed, entries).store)
  {
    var r := Planned(s, ops);
    var t := Land(s, r.handed, entries).store;
    DraftedPuts(s, ops);
    DraftedFrame(s, ops);
    LandedView(s, ops, entries);
    LandedRows(s, ops, entries);
    ReferringAfterPuts(s, ops);
    AppliedIsPaced(s, ops);
    hide Planned, Land, Applied, KeptWhole, AllBare, HandsOver, LeavesPending, InFrame, Sound, KindsKept;
    hide RowsKept, Placed, Versioned, Referring, View, StoreView, LinkedWell, Paced;
    LinkedWellAfterPuts(s, r.draft, r.handed, t);
  }

  // ---- removals

  /** Whether a set of removals leaves an artifact's links alone: none lands on what it takes out. */
  ghost predicate NoTargetGone(s: Store, removed: set<Iri>)
  {
    forall i, l :: i in s.rows && i !in removed && l in s.rows[i].links ==> l.target !in removed
  }

  /** Whether no version left kept refers to one of a type it takes out. */
  ghost predicate NoneReadGone(s: Store, removed: set<Iri>)
  {
    forall v, n :: v in s.kept && v.of !in removed && 0 <= n < |s.kept[v].schema.refers| ==>
      s.kept[v].schema.refers[n].to.of !in removed
  }

  predicate WaitsUnder(s: Store, i: Iri, l: Stored, t: Iri)
  {
    && i in s.rows && l in s.rows[i].links && !l.implicit && l.target !in s.rows
    && NearestType(StoreView(s), l.target) == Some(t)
  }

  /** Whether no link left alone waits under a type it takes out. */
  ghost predicate NoneWaitsUnderGone(s: Store, removed: set<Iri>)
  {
    forall i, l, t :: i !in removed && WaitsUnder(s, i, l, t) ==> t !in removed
  }

  lemma RemovedIsNoTarget(s: Store, changes: seq<Change>, entries: seq<Entry>, i: Iri, l: Stored)
    requires RowsKept(s) && Land(s, changes, entries).Landed?
    requires forall k :: 0 <= k < |changes| ==> changes[k].content.None?
    requires i in s.rows && i !in Changed(changes) && l in s.rows[i].links
    ensures l.target !in Changed(changes) || l.target !in s.rows
  {
    WritingLeaves(s, changes);
    var written := WriteAll(s, changes).store;
    assert Left(s, changes, i) == Some(s.rows[i]);
    assert i in written.rows && written.rows[i] == s.rows[i];
    assert !Severs(s, written, Changed(changes), i, l);
    assert l.target in s.rows ==> RowKept(l.target, s.rows[l.target], s.landings);
  }

  lemma AKeptVersionReads(d: Overlay, v: Named, n: nat)
    requires Clearing(d) && v in d.store.kept && v.of !in d.removed && n < |d.store.kept[v].schema.refers|
    ensures ReadsType(d, v.of, d.store.kept[v].schema.refers[n].to.of)
  {
    assert v == Named(v.of, v.number);
    assert v.number in VersionsOf(d, v.of);
    assert TypeVersion(d, v) == Some(d.store.kept[v]);
  }

  lemma RemovedIsNotRead(s: Store, d: Overlay, act: Act, v: Named, n: nat)
    requires RowsKept(s) && Versioned(StoreView(s)) && Referring(StoreView(s))
    requires Clearing(d) && d.store == s && TakesFrom(s, act) && FaultlessRemoval(d, act) && act.id in d.removed
    requires v in s.kept && v.of !in d.removed && n < |s.kept[v].schema.refers|
    ensures s.kept[v].schema.refers[n].to.of != act.id
  {
    var w := s.kept[v].schema.refers[n].to;
    if w.of == act.id {
      assert w in StoreView(s).kept && TypedAt(StoreView(s), w.of) && TypedAt(StoreView(s), v.of);
      assert RowKept(v.of, s.rows[v.of], s.landings);
      assert v.of in Ids(d, TYPES);
      AKeptVersionReads(d, v, n);
      assert false;
    }
  }

  lemma RemovedIsNotWaitedUnder(s: Store, d: Overlay, act: Act, i: Iri, l: Stored)
    requires Clearing(d) && d.store == s && TakesFrom(s, act) && FaultlessRemoval(d, act) && i !in d.removed
    ensures !WaitsUnder(s, i, l, act.id)
  {
    if WaitsUnder(s, i, l, act.id) {
      NearestTypeStands(StoreView(s), l.target, act.id);
      ClearingView(d);
      assert forall b :: TypedAt(View(d), b) ==> TypedAt(StoreView(s), b);
      NearestWasStands(View(d), l.target, act.id);
      StoredLinkingsHold(i, s.rows[i].links);
      assert WaitingIn(d, AsLinking(i, l));
      assert InTheWay(d, act);
      assert false;
    }
  }

  lemma RemovalsReadNone(s: Store, d: Overlay, acts: seq<Act>)
    requires RowsKept(s) && Versioned(StoreView(s)) && Referring(StoreView(s))
    requires Clearing(d) && d.store == s && d.removed == ActedOn(acts)
    requires forall k :: 0 <= k < |acts| ==> TakesFrom(s, acts[k]) && FaultlessRemoval(d, acts[k])
    ensures NoneReadGone(s, d.removed) && NoneWaitsUnderGone(s, d.removed)
  {
    hide RowsKept, Versioned, Referring, FaultlessRemoval, TakesFrom, WaitsUnder;
    forall v, n | v in s.kept && v.of !in d.removed && 0 <= n < |s.kept[v].schema.refers|
      ensures s.kept[v].schema.refers[n].to.of !in d.removed
    {
      forall k | 0 <= k < |acts|
        ensures s.kept[v].schema.refers[n].to.of != acts[k].id
      {
        RemovedIsNotRead(s, d, acts[k], v, n);
      }
    }
    forall i, l, t | i !in d.removed && WaitsUnder(s, i, l, t)
      ensures t !in d.removed
    {
      forall k | 0 <= k < |acts|
        ensures t != acts[k].id
      {
        RemovedIsNotWaitedUnder(s, d, acts[k], i, l);
      }
    }
  }

  lemma RemovalsTargetNone(s: Store, changes: seq<Change>, entries: seq<Entry>)
    requires RowsKept(s) && Land(s, changes, entries).Landed? && Changed(changes) <= s.rows.Keys
    requires forall k :: 0 <= k < |changes| ==> changes[k].content.None?
    ensures NoTargetGone(s, Changed(changes))
  {
    forall i, l | i in s.rows && i !in Changed(changes) && l in s.rows[i].links
      ensures l.target !in Changed(changes)
    {
      RemovedIsNoTarget(s, changes, entries, i, l);
    }
  }

  /** The type of an artifact left alone is left alone. */
  lemma TypeStays(s: Store, removed: set<Iri>, i: Iri)
    requires RowsKept(s) && NoTargetGone(s, removed) && i in s.rows && i !in removed
    ensures s.rows[i].content.kind !in removed
  {
    assert RowKept(i, s.rows[i], s.landings);
    if i != s.rows[i].kind {
      assert AsStored(Implicit(s.rows[i].kind)) in s.rows[i].links;
      assert AsStored(Implicit(s.rows[i].kind)).target == s.rows[i].kind;
    }
  }

  lemma ClearedConforms(s: Store, removed: set<Iri>)
    requires RowsKept(s) && Conform(StoreView(s)) && NoTargetGone(s, removed)
    ensures Conform(Cleared(s, removed))
  {
    var c, e := StoreView(s), Cleared(s, removed);
    forall i | i in e.held
      ensures Conforming(e.held[i]) in e.kept
    {
      assert i in c.held && e.held[i] == c.held[i] == s.rows[i].content;
      assert Conforming(c.held[i]) in c.kept && Conforming(c.held[i]).of == c.held[i].kind;
      TypeStays(s, removed, i);
    }
  }

  lemma ClearedIsVersioned(s: Store, removed: set<Iri>)
    requires RowsKept(s) && Versioned(StoreView(s)) && NoTargetGone(s, removed)
    ensures Versioned(Cleared(s, removed))
  {
    var c, e := StoreView(s), Cleared(s, removed);
    hide NoTargetGone, RowsKept;
    ClearedConforms(s, removed);
    hide Conform;
    assert forall i :: TypedAt(e, i) <==> TypedAt(c, i) && i !in removed;
    assert forall v :: v in e.kept <==> v in c.kept && v.of !in removed;
    assert KeptAreTyped(e);
    assert NumbersRun(e);
    assert StandsAtLast(e);
  }

  lemma ClearedIsPlaced(s: Store, removed: set<Iri>)
    requires RowsKept(s) && Settled(StoreView(s)) && NoTargetGone(s, removed)
    ensures Placed(Cleared(s, removed))
  {
    var c, e := StoreView(s), Cleared(s, removed);
    forall i | i in e.held && !Typed(e.held[i])
      ensures NearestType(e, i) == Some(e.held[i].kind)
    {
      TypeStays(s, removed, i);
      assert TypedAt(c, c.held[i].kind);
      NearestWithFewer(c, e, i);
    }
  }

  lemma ClearedIsWellLinked(s: Store, removed: set<Iri>, i: Iri, l: Stored)
    requires NoTargetGone(s, removed) && NoneWaitsUnderGone(s, removed)
    requires i in s.rows && i !in removed && l in s.rows[i].links && WellLinked(StoreView(s), l)
    ensures WellLinked(Cleared(s, removed), l)
  {
    var c, e := StoreView(s), Cleared(s, removed);
    if !l.implicit && l.target !in c.held {
      var t := NearestType(c, l.target).value;
      assert WaitsUnder(s, i, l, t);
      NearestTypeStands(c, l.target, t);
      assert forall b :: TypedAt(e, b) ==> TypedAt(c, b);
      NearestWithFewer(c, e, l.target);
    }
  }

  lemma RemovalsKeepInv(s: Store, ops: seq<Operation>, entries: seq<Entry>)
    requires Inv(s) && AllRemovals(ops) && Planned(s, ops).Drafted?
    requires Land(s, Planned(s, ops).handed, entries).Landed?
    ensures Inv(Land(s, Planned(s, ops).handed, entries).store)
  {
    var r := Planned(s, ops);
    var removed, t := r.draft.removed, Land(s, r.handed, entries).store;
    DraftedRemovals(s, ops);
    LandedView(s, ops, entries);
    ClearingView(r.draft);
    RemovalsReadNone(s, r.draft, r.acts);
    RemovalsTargetNone(s, r.handed, entries);
    assert t.rows == WriteAll(s, r.handed).store.rows;
    hide Planned, Land, Applied, AllBare, WriteAll, FaultlessRemoval, RowsKept, Placed, Versioned;
    ClearedIsVersioned(s, removed);
    ClearedIsPlaced(s, removed);
    assert Referring(Cleared(s, removed));
    forall i, l | i in t.rows && l in t.rows[i].links
      ensures WellLinked(StoreView(t), l)
    {
      ClearedIsWellLinked(s, removed, i, l);
    }
  }

  /** A set of one sort drafted on the store it lands on keeps everything: every artifact under its type, every link
      landing or waiting where it may, every version named kept. */
  lemma LandedAsDraftedKeepsInv(s: Store, ops: seq<Operation>, entries: seq<Entry>)
    requires Inv(s) && OfOneSort(ops) && Planned(s, ops).Drafted?
    requires Land(s, Planned(s, ops).handed, entries).Landed?
    ensures Inv(Land(s, Planned(s, ops).handed, entries).store)
  {
    if AllRemovals(ops) {
      RemovalsKeepInv(s, ops, entries);
    } else {
      PutsKeepInv(s, ops, entries);
    }
  }
}
