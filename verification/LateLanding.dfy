/** Exactly when a set landed on a later store than it was drafted on leaves what every store kb reaches keeps. The
    port's comparisons hold in it, but they ask of an IRI only its revision, and of the IRI a waiting link sits under
    only that something is held there. */
module LateLanding {
  import opened Iris
  import opened PortValues
  import opened Landing
  import opened Composition
  import opened Links
  import opened Draft
  import opened Drafting
  import opened Invariants
  import opened Applying
  import opened Agreement
  import opened Keeping
  import opened Serial

  // ---- what the store a set lands on bears

  /** Each artifact the changes leave something of, where one stands already, is of the kind they give it. */
  predicate KindsStand(t: Store, changes: seq<Change>)
  {
    forall k :: 0 <= k < |changes| && changes[k].content.Some? && changes[k].artifact in t.rows ==>
      t.rows[changes[k].artifact].kind == changes[k].kind
  }

  /** Whether an artifact's kind, and each type a version it makes refers to, is a held type. */
  predicate NamesTypes(c: Corpus, a: Artifact)
  {
    TypedAt(c, a.kind) && (Typed(a) ==> forall n :: 0 <= n < |a.schema.refers| ==> TypedAt(c, a.schema.refers[n].to.of))
  }

  predicate TypesStand(t: Store, changes: seq<Change>)
  {
    forall k :: 0 <= k < |changes| && changes[k].content.Some? ==> NamesTypes(StoreView(t), changes[k].content.value)
  }

  /** Whether the IRI a link was drafted to wait under is a type, or the nearest type above that is one it may land on. */
  predicate StandsUnder(c: Corpus, l: Link)
  {
    && l.under.Some?
    && (|| TypedAt(c, l.under.value)
        || (NearestType(c, l.under.value).Some? && NearestType(c, l.under.value).value in l.kinds))
  }

  /** `StandsUnder` for each link in the changes whose target will have no row. */
  predicate LinksStand(t: Store, changes: seq<Change>)
  {
    forall k, n ::
      0 <= k < |changes| && 0 <= n < |changes[k].links| && !changes[k].links[n].implicit
      && changes[k].links[n].target !in t.rows && changes[k].links[n].target !in Changed(changes) ==>
        StandsUnder(StoreView(t), changes[k].links[n])
  }

  /** The artifacts a set takes out. */
  function TakenOut(changes: seq<Change>): (removed: set<Iri>)
  {
    set k | 0 <= k < |changes| && changes[k].content.None? :: changes[k].artifact
  }

  /** Whether a link left alone may wait under the nearest type that stays above its target. */
  ghost predicate MayWait(t: Store, removed: set<Iri>, l: Stored)
  {
    NearestType(Cleared(t, removed), l.target).Some? && NearestType(Cleared(t, removed), l.target).value in l.kinds
  }

  /** So for each that waits under a type a set takes out. */
  ghost predicate WaitingStand(t: Store, removed: set<Iri>)
  {
    forall i, l, u :: i !in removed && u in removed && WaitsUnder(t, i, l, u) ==> MayWait(t, removed, l)
  }

  /** What a store bears, of the changes landed on it. */
  ghost predicate Bears(t: Store, changes: seq<Change>)
  {
    && KindsStand(t, changes) && TypesStand(t, changes) && LinksStand(t, changes)
    && NoneReadGone(t, TakenOut(changes)) && WaitingStand(t, TakenOut(changes))
  }

  /** A set drafted on one store, not one to land only under the lock, landing on another, whatever happened between. */
  ghost predicate LandsOn(s: Store, t: Store, ops: seq<Operation>, entries: seq<Entry>)
  {
    && Inv(s) && Inv(t) && OfOneSort(ops) && Planned(s, ops).Drafted? && !Planned(s, ops).locked
    && Land(t, Planned(s, ops).handed, entries).Landed?
  }

  /** The store it leaves. */
  ghost function After(s: Store, t: Store, ops: seq<Operation>, entries: seq<Entry>): Store
    requires LandsOn(s, t, ops, entries)
  {
    Land(t, Planned(s, ops).handed, entries).store
  }

  // ---- what a set of creates or revisions leaves where it lands

  /** The rows a set leaves: what its draft put, and every other as it was. */
  ghost predicate RowsWritten(t: Store, r: Drafted, x: Store)
    requires r.Drafted?
  {
    && x.rows.Keys == t.rows.Keys + r.draft.pending.Keys && Changed(r.handed) == r.draft.pending.Keys
    && (forall i :: i in x.rows && i !in r.draft.pending ==> x.rows[i] == t.rows[i])
    && (forall i :: i in r.draft.pending ==>
         && x.rows[i].content == r.draft.pending[i] && x.rows[i].kind == r.draft.pending[i].kind
         && x.rows[i].links == StoreAll(r.handed[LastAt(r.handed, i)].links)
         && x.rows[i].born == if i in t.rows then t.rows[i].born else t.landings)
  }

  /** What a set puts, change by change. */
  ghost predicate PutsAll(r: Drafted)
    requires r.Drafted?
  {
    && Changed(r.handed) == r.draft.pending.Keys
    && (forall k :: 0 <= k < |r.handed| ==> r.handed[k].content.Some?)
    && (forall i :: i in r.draft.pending ==> HandsOver(r.draft, i, r.draft.pending[i], r.handed[LastAt(r.handed, i)]))
  }

  lemma DraftedPutsAll(s: Store, ops: seq<Operation>)
    requires Inv(s) && AllPut(ops) && Planned(s, ops).Drafted?
    ensures PutsAll(Planned(s, ops)) && Planned(s, ops).draft.store == s
  {
    var r := Planned(s, ops);
    DraftedPuts(s, ops);
    hide Planned, Ready, Applied, KeptWhole, HandsOver, Inv;
    forall k | 0 <= k < |r.handed|
      ensures r.handed[k].content.Some?
    {
      assert Bare(r.acts[k], r.handed[k]);
    }
  }

  /** What landing anywhere leaves is what its changes write. */
  lemma LandedIsWritten(t: Store, changes: seq<Change>, entries: seq<Entry>)
    requires Land(t, changes, entries).Landed?
    ensures var x := Land(t, changes, entries).store;
      && WriteAll(t, changes).Landed? && x.rows == WriteAll(t, changes).store.rows
      && x.kept == WriteAll(t, changes).store.kept && x.landings == t.landings + 1
      && AllLand(t, WriteAll(t, changes).store, changes) && Unmoved(t, changes)
      && !SeversAny(t, WriteAll(t, changes).store, Changed(changes))
      && (forall i :: i in x.rows <==> Left(t, changes, i).Some?)
      && (forall i :: i in x.rows ==> Left(t, changes, i) == Some(x.rows[i]))
      && (forall v: Named :: v.of !in Changed(changes) ==>
           (v in x.kept <==> v in t.kept) && (v in t.kept ==> x.kept[v] == t.kept[v]))
  {
    WritingLeaves(t, changes);
  }

  lemma RowOfAPut(t: Store, d: Overlay, changes: seq<Change>, i: Iri, a: Artifact, row: Option<Row>)
    requires i in Changed(changes) && HandsOver(d, i, a, changes[LastAt(changes, i)]) && Left(t, changes, i) == row
    requires forall k :: 0 <= k < |changes| ==> changes[k].content.Some?
    ensures row.Some? && row.value.content == a && row.value.kind == a.kind
    ensures row.value.links == StoreAll(changes[LastAt(changes, i)].links)
    ensures row.value.born == if i in t.rows then t.rows[i].born else t.landings
  {
  }

  lemma RowsOfPuts(t: Store, r: Drafted, x: Store)
    requires r.Drafted? && PutsAll(r)
    requires forall i :: i in x.rows <==> Left(t, r.handed, i).Some?
    requires forall i :: i in x.rows ==> Left(t, r.handed, i) == Some(x.rows[i])
    ensures RowsWritten(t, r, x)
  {
    hide HandsOver, StoreAll, LastAt, Born;
    forall i | i in r.draft.pending
      ensures i in x.rows && x.rows[i].content == r.draft.pending[i] && x.rows[i].kind == r.draft.pending[i].kind
      ensures x.rows[i].links == StoreAll(r.handed[LastAt(r.handed, i)].links)
      ensures x.rows[i].born == if i in t.rows then t.rows[i].born else t.landings
    {
      RowOfAPut(t, r.draft, r.handed, i, r.draft.pending[i], Left(t, r.handed, i));
    }
  }

  lemma RowsOfPutsKept(t: Store, r: Drafted, x: Store)
    requires r.Drafted? && PutsAll(r) && RowsKept(t) && x.landings == t.landings + 1
    requires forall i :: i in x.rows ==> Left(t, r.handed, i) == Some(x.rows[i])
    ensures RowsKept(x)
  {
    hide HandsOver, RowsKept, Left;
    RowsAfterWriting(t, r.draft, r.handed, x);
    assert x.(landings := t.landings + 1) == x;
  }

  lemma LateRows(s: Store, t: Store, ops: seq<Operation>, entries: seq<Entry>)
    requires LandsOn(s, t, ops, entries) && AllPut(ops)
    ensures var (r, x) := (Planned(s, ops), After(s, t, ops, entries));
      PutsAll(r) && RowsWritten(t, r, x) && RowsKept(x)
  {
    DraftedPutsAll(s, ops);
    LandedIsWritten(t, Planned(s, ops).handed, entries);
    assert RowsKept(t);
    hide Planned, Land, WriteAll, PutsAll, RowsKept, Inv, AllLand, SeversAny;
    RowsOfPuts(t, Planned(s, ops), After(s, t, ops, entries));
    RowsOfPutsKept(t, Planned(s, ops), After(s, t, ops, entries));
  }

  /** What the draft keeps, and what the store a set lands on then keeps: each what was kept there before, and beside it
      the versions the set makes. */
  lemma LateKept(s: Store, t: Store, ops: seq<Operation>, entries: seq<Entry>)
    requires LandsOn(s, t, ops, entries) && AllPut(ops)
    ensures var (r, x) := (Planned(s, ops), After(s, t, ops, entries));
      && KeepsAndAdds(s.kept, r.handed, View(r.draft).kept) && KeepsAndAdds(t.kept, r.handed, x.kept)
  {
    var r := Planned(s, ops);
    DraftedPuts(s, ops);
    DraftedPutsAll(s, ops);
    LandedIsWritten(t, r.handed, entries);
    WritingPuts(s, ops, r.handed);
    hide Planned, Land, WriteAll, Inv, AllLand, SeversAny, HandsOver, Ready, LeavesPending, KeepsAndAdds, KeptWhole, AllBare;
    WritingKeepsAndAdds(s, r.handed);
    WritingKeepsAndAdds(t, r.handed);
    assert StoreView(WriteAll(s, r.handed).store).kept == View(r.draft).kept;
  }

  lemma {:induction false} RevisionsAreOfHeld(s: Store, ops: seq<Operation>)
    requires AllRevisions(ops) && Applied(s, ops).Some?
    ensures Applied(s, ops).value.0.pending.Keys <= s.rows.Keys && Applied(s, ops).value.0.store == s
  {
    if ops != [] {
      var n := |ops| - 1;
      var d, acts, e, act := LastOperation(s, ops);
      RevisionsAreOfHeld(s, ops[..n]);
      assert ops[n].Revise?;
    }
  }

  /** What a set puts where nothing was held is no type. */
  lemma UnheldIsNoType(s: Store, ops: seq<Operation>, i: Iri)
    requires Inv(s) && OfOneSort(ops) && AllPut(ops) && Planned(s, ops).Drafted? && !Planned(s, ops).locked
    requires i in Planned(s, ops).draft.pending && i !in s.rows
    ensures !Typed(Planned(s, ops).draft.pending[i])
  {
    var r := Planned(s, ops);
    DraftedPuts(s, ops);
    AppliedSay(s, ops);
    assert i in ActedOn(r.acts);
    var k :| 0 <= k < |r.acts| && r.acts[k].id == i;
    HandedAs(s, ops, k);
    hide Inv, Planned, Ready, HandsOver, KeptWhole, Stands, AllBare;
    if AllRevisions(ops) {
      RevisionsAreOfHeld(s, ops);
      assert false;
    } else {
      assert AllCreates(ops) && Says(ops[k], r.acts[k]);
    }
  }

  /** Whether what a draft puts at an IRI stands in both stores at one revision, or in neither: put over one of its kind,
      or, where none stood, no type. */
  ghost predicate StandsAlikeAt(s: Store, t: Store, d: Overlay, i: Iri)
    requires i in d.pending
  {
    && (i in s.rows <==> i in t.rows) && Rev(s, i) == Rev(t, i)
    && if i in s.rows then d.pending[i].kind == s.rows[i].kind else !Typed(d.pending[i])
  }

  ghost predicate StandsAlike(s: Store, t: Store, d: Overlay)
  {
    forall i :: i in d.pending ==> StandsAlikeAt(s, t, d, i)
  }

  lemma LateRevisions(s: Store, t: Store, ops: seq<Operation>, entries: seq<Entry>)
    requires LandsOn(s, t, ops, entries) && AllPut(ops)
    ensures forall i :: i in Planned(s, ops).draft.pending ==> Rev(s, i) == Rev(t, i)
  {
    var r := Planned(s, ops);
    DraftedPuts(s, ops);
    WritingPuts(s, ops, r.handed);
    LandedIsWritten(t, r.handed, entries);
    hide Planned, Land, WriteAll, Inv, AllLand, SeversAny, HandsOver, LeavesPending, KeptWhole, AllBare, Applied, Ready;
    WrittenOnBoth(s, t, r.handed);
  }

  lemma DraftedKeepsKinds(s: Store, ops: seq<Operation>, i: Iri)
    requires Inv(s) && AllPut(ops) && Planned(s, ops).Drafted?
    requires i in Planned(s, ops).draft.pending && i in s.rows
    ensures Planned(s, ops).draft.pending[i].kind == s.rows[i].kind
  {
    DraftedPuts(s, ops);
    hide Planned, Applied, HandsOver, LeavesPending, KeptWhole, AllBare, Settled, LeftWellLinked;
  }

  lemma LateStandsAlikeAt(s: Store, t: Store, ops: seq<Operation>, i: Iri)
    requires Inv(s) && Inv(t) && OfOneSort(ops) && AllPut(ops) && Planned(s, ops).Drafted? && !Planned(s, ops).locked
    requires i in Planned(s, ops).draft.pending && Rev(s, i) == Rev(t, i)
    ensures StandsAlikeAt(s, t, Planned(s, ops).draft, i)
  {
    assert RowsKept(s) && RowsKept(t);
    hide Planned, Inv, RowsKept, AllPut, OfOneSort, Rev;
    HeldIsRevised(s, i);
    HeldIsRevised(t, i);
    if i in s.rows {
      DraftedKeepsKinds(s, ops, i);
    } else {
      UnheldIsNoType(s, ops, i);
    }
  }

  lemma LateStandsAlike(s: Store, t: Store, ops: seq<Operation>, entries: seq<Entry>)
    requires LandsOn(s, t, ops, entries) && AllPut(ops)
    ensures StandsAlike(s, t, Planned(s, ops).draft)
  {
    LateRevisions(s, t, ops, entries);
    hide Planned, Land, Inv, AllPut, OfOneSort, StandsAlikeAt, Rev;
    forall i | i in Planned(s, ops).draft.pending
      ensures StandsAlikeAt(s, t, Planned(s, ops).draft, i)
    {
      LateStandsAlikeAt(s, t, ops, i);
    }
  }

  lemma HeldIsRevised(s: Store, i: Iri)
    requires RowsKept(s)
    ensures i in s.rows <==> Rev(s, i) > 0
  {
    assert i in s.rows ==> RowKept(i, s.rows[i], s.landings);
  }

  /** Each change a set hands is of the kind of what its draft leaves pending there, which is for good. */
  ghost predicate OfTheirKinds(r: Drafted)
    requires r.Drafted?
  {
    forall k :: 0 <= k < |r.handed| ==>
      && r.handed[k].content.Some? && r.handed[k].kind == r.handed[k].content.value.kind
      && r.handed[k].artifact in r.draft.pending
      && r.handed[k].kind == r.draft.pending[r.handed[k].artifact].kind
  }

  lemma OfItsKind(d: Overlay, acts: seq<Act>, k: nat, c: Change)
    requires LeavesPending(d, acts) && k < |acts| && Bare(acts[k], c)
    ensures c.content.Some? && c.kind == c.content.value.kind && c.artifact in d.pending
    ensures c.kind == d.pending[c.artifact].kind
  {
    assert acts[k].id in ActedOn(acts);
  }

  lemma HandedOfTheirKinds(s: Store, ops: seq<Operation>)
    requires Inv(s) && AllPut(ops) && Planned(s, ops).Drafted?
    ensures OfTheirKinds(Planned(s, ops))
  {
    var r := Planned(s, ops);
    DraftedPuts(s, ops);
    hide *;
    OfTheirKindsByParts(r);
  }

  lemma OfTheirKindsByParts(r: Drafted)
    requires r.Drafted? && LeavesPending(r.draft, r.acts) && AllBare(r.acts, r.handed)
    ensures OfTheirKinds(r)
  {
    hide LeavesPending, Bare;
    forall k | 0 <= k < |r.handed|
      ensures r.handed[k].content.Some? && r.handed[k].kind == r.handed[k].content.value.kind
      ensures r.handed[k].artifact in r.draft.pending
      ensures r.handed[k].kind == r.draft.pending[r.handed[k].artifact].kind
    {
      OfItsKind(r.draft, r.acts, k, r.handed[k]);
    }
  }

  /** What is known of a set of creates or revisions landed where it lands, whatever that store bears. */
  ghost predicate MetLate(s: Store, t: Store, r: Drafted, x: Store)
  {
    && r.Drafted? && r.draft.store == s && RowsWritten(t, r, x) && StandsAlike(s, t, r.draft) && OfTheirKinds(r)
    && KeepsAndAdds(s.kept, r.handed, View(r.draft).kept) && KeepsAndAdds(t.kept, r.handed, x.kept)
  }

  lemma LateIsMet(s: Store, t: Store, ops: seq<Operation>, entries: seq<Entry>)
    requires LandsOn(s, t, ops, entries) && AllPut(ops)
    ensures MetLate(s, t, Planned(s, ops), After(s, t, ops, entries)) && RowsKept(After(s, t, ops, entries))
  {
    LateRows(s, t, ops, entries);
    LateStandsAlike(s, t, ops, entries);
    LateKept(s, t, ops, entries);
    DraftedPutsAll(s, ops);
    HandedOfTheirKinds(s, ops);
    hide Planned, Land, Inv, RowsKept, AllPut, RowsWritten, StandsAlike, OfTheirKinds, KeepsAndAdds, PutsAll, View;
  }

  // ---- what it keeps where the store bears it

  ghost predicate SameTypes(c: Corpus, f: Corpus)
  {
    forall i :: TypedAt(c, i) == TypedAt(f, i)
  }

  lemma ChangedAt(r: Drafted, i: Iri) returns (k: nat)
    requires r.Drafted? && i in Changed(r.handed)
    ensures k < |r.handed| && r.handed[k].artifact == i
  {
    k :| k < |r.handed| && r.handed[k].artifact == i;
  }

  lemma KindStands(s: Store, t: Store, r: Drafted, x: Store, i: Iri)
    requires MetLate(s, t, r, x) && KindsStand(t, r.handed) && i in r.draft.pending && i in t.rows
    ensures t.rows[i].kind == r.draft.pending[i].kind
  {
    hide KeepsAndAdds, View, StandsAlike;
    var k := ChangedAt(r, i);
  }

  lemma TypesAreSame(s: Store, t: Store, r: Drafted, x: Store)
    requires MetLate(s, t, r, x) && KindsStand(t, r.handed) && RowsKept(t)
    ensures SameTypes(StoreView(t), StoreView(x))
    ensures forall i :: i in t.rows ==> StoreView(t).held[i].kind == StoreView(x).held[i].kind
  {
    hide KeepsAndAdds, View, KindsStand;
    forall i
      ensures TypedAt(StoreView(t), i) == TypedAt(StoreView(x), i)
      ensures i in t.rows ==> StoreView(t).held[i].kind == StoreView(x).held[i].kind
    {
      if i in t.rows {
        assert RowKept(i, t.rows[i], t.landings);
        if i in r.draft.pending {
          KindStands(s, t, r, x, i);
        }
      }
    }
  }

  /** The versions kept of a type at one revision are numbered alike in every store. */
  lemma KeptByRevision(s: Store, t: Store, v: Named)
    requires Inv(s) && Inv(t) && Rev(s, v.of) == Rev(t, v.of) && TypedAt(StoreView(s), v.of) == TypedAt(StoreView(t), v.of)
    ensures v in s.kept <==> v in t.kept
  {
    var i := v.of;
    assert i in s.rows ==> RowKept(i, s.rows[i], s.landings);
    assert i in t.rows ==> RowKept(i, t.rows[i], t.landings);
    assert StoreView(s).kept == s.kept && StoreView(t).kept == t.kept;
    hide RowsKept, Placed, Referring, LinkedWell, Conform, StandsAtLast;
  }

  lemma TypedInBoth(s: Store, t: Store, r: Drafted, x: Store, i: Iri)
    requires RowsKept(s) && RowsKept(t) && MetLate(s, t, r, x) && KindsStand(t, r.handed) && i in r.draft.pending
    ensures Rev(s, i) == Rev(t, i) && TypedAt(StoreView(s), i) == TypedAt(StoreView(t), i)
  {
    hide KeepsAndAdds, View, KindsStand, RowsWritten, OfTheirKinds;
    if i in t.rows {
      KindStands(s, t, r, x, i);
      assert RowKept(i, t.rows[i], t.landings) && RowKept(i, s.rows[i], s.landings);
    }
  }

  lemma AddedAlike(
    one: map<Named, Artifact>, other: map<Named, Artifact>, changes: seq<Change>, left: map<Named, Artifact>,
    beside: map<Named, Artifact>, v: Named)
    requires KeepsAndAdds(one, changes, left) && KeepsAndAdds(other, changes, beside) && (v in one <==> v in other)
    ensures v in left <==> v in beside
  {
    if v in left && v !in one {
      var k :| Makes(changes, k, v);
    }
    if v in beside && v !in other {
      var k :| Makes(changes, k, v);
    }
  }

  /** Where the kinds stand, the draft and the store the set leaves keep versions of the same numbers of each type the set
      changes. */
  lemma ChangedIsKept(s: Store, t: Store, r: Drafted, x: Store, v: Named)
    requires Inv(s) && Inv(t) && MetLate(s, t, r, x) && KindsStand(t, r.handed) && v.of in r.draft.pending
    ensures v in View(r.draft).kept <==> v in x.kept
  {
    hide KeepsAndAdds, View, KindsStand, RowsWritten, OfTheirKinds, Versioned, RowsKept, Placed, Referring, LinkedWell;
    TypedInBoth(s, t, r, x, v.of);
    KeptByRevision(s, t, v);
    AddedAlike(s.kept, t.kept, r.handed, View(r.draft).kept, x.kept, v);
  }

  /** And of each type it leaves alone and was read through that is still a type there, each version its draft keeps. */
  lemma ReadIsKept(s: Store, t: Store, r: Drafted, x: Store, v: Named)
    requires Inv(s) && Inv(t) && MetLate(s, t, r, x) && v.of !in r.draft.pending && Rev(s, v.of) == Rev(t, v.of)
    requires v in View(r.draft).kept && TypedAt(StoreView(t), v.of)
    ensures v in x.kept
  {
    hide RowsWritten, StandsAlike, View, Placed, Referring, LinkedWell;
    forall k
      ensures !Makes(r.handed, k, v)
    {
    }
    assert v in StoreView(s).kept;
    assert KeptAreTyped(StoreView(s));
    hide Inv, KeptAreTyped;
    KeptByRevision(s, t, v);
  }

  lemma ComparedIsKept(s: Store, t: Store, r: Drafted, x: Store, v: Named)
    requires r.Drafted? && Inv(s) && Inv(t) && MetLate(s, t, r, x) && KindsStand(t, r.handed) && Unmoved(t, r.handed)
    requires ActedOn(r.acts) == r.draft.pending.Keys && Compared(s, r, v.of)
    requires v in View(r.draft).kept && TypedAt(StoreView(t), v.of)
    ensures v in x.kept
  {
    hide Inv, MetLate, KindsStand, View;
    if v.of in r.draft.pending {
      ChangedIsKept(s, t, r, x, v);
    } else {
      var k :| 0 <= k < |r.handed| && (v.of, Rev(s, v.of)) in r.handed[k].through;
      UnmovedAt(t, r.handed, k, (v.of, Rev(s, v.of)));
      ReadIsKept(s, t, r, x, v);
    }
  }

  lemma HeldByX(s: Store, t: Store, r: Drafted, x: Store, i: Iri)
    requires MetLate(s, t, r, x) && r.draft.removed == {}
    ensures i in r.draft.pending ==>
      && i in StoreView(x).held && i in View(r.draft).held
      && StoreView(x).held[i] == View(r.draft).held[i] == r.draft.pending[i]
    ensures i !in r.draft.pending ==> (i in x.rows <==> i in t.rows) && (i in x.rows ==> x.rows[i] == t.rows[i])
  {
    ViewReads(r.draft);
    hide KeepsAndAdds, OfTheirKinds, StandsAlike;
  }

  lemma UnchangedIsKept(s: Store, t: Store, r: Drafted, x: Store, v: Named)
    requires MetLate(s, t, r, x) && v.of !in r.draft.pending
    ensures v in x.kept <==> v in t.kept
    ensures v in View(r.draft).kept <==> v in s.kept
  {
    hide View, RowsWritten, StandsAlike;
    forall k
      ensures !Makes(r.handed, k, v)
    {
    }
  }

  lemma AddedIsTyped(t: Store, r: Drafted, x: Store, v: Named)
    requires r.Drafted? && KeepsAndAdds(t.kept, r.handed, x.kept) && OfTheirKinds(r) && v in x.kept
    requires KeptAreTyped(StoreView(t)) && v.of in r.draft.pending && Typed(r.draft.pending[v.of])
    ensures Typed(x.kept[v])
  {
    if v in t.kept {
      assert v in StoreView(t).kept;
    } else {
      var k :| Makes(r.handed, k, v);
    }
  }

  /** What the set makes of a type last is the version it leaves it at, and is not kept before. */
  lemma LastIsMade(s: Store, t: Store, r: Drafted, x: Store, i: Iri)
    requires Inv(s) && MetLate(s, t, r, x) && Versioned(View(r.draft)) && Paced(View(r.draft)) && Rises(r.draft)
    requires r.draft.removed == {} && i in r.draft.pending && Typed(r.draft.pending[i])
    ensures var v := Named(i, r.draft.pending[i].number); v in x.kept && x.kept[v] == r.draft.pending[i]
  {
    var v := Named(i, r.draft.pending[i].number);
    HeldByX(s, t, r, x, i);
    assert TypedAt(View(r.draft), i) && StandsAtLast(View(r.draft));
    assert KeptAreTyped(StoreView(s)) && NumbersRun(StoreView(s)) && Paced(StoreView(s));
    assert v !in StoreView(s).kept;
    hide Versioned, View, Paced, Inv;
    var k :| Makes(r.handed, k, v);
  }

  /** If typed, an IRI's content is `kept` under its own number. */
  ghost predicate LastKept(f: Corpus, i: Iri)
  {
    TypedAt(f, i) ==> Named(i, f.held[i].number) in f.kept && f.kept[Named(i, f.held[i].number)] == f.held[i]
  }

  ghost predicate HeldMixed(c: Corpus, e: Corpus, f: Corpus, changed: set<Iri>, i: Iri)
  {
    if i in changed then i in e.held && i in f.held && f.held[i] == e.held[i] && LastKept(f, i)
    else (i in f.held <==> i in c.held) && (i in f.held ==> f.held[i] == c.held[i])
  }

  ghost predicate KeptMixed(c: Corpus, e: Corpus, f: Corpus, changed: set<Iri>, v: Named)
  {
    && (v in c.kept ==> v in f.kept && f.kept[v] == c.kept[v])
    && if v.of in changed then (v in f.kept <==> v in e.kept) && (v in f.kept ==> Typed(f.kept[v]))
       else v in f.kept <==> v in c.kept
  }

  /** A corpus that holds what one holds at some IRIs, and keeps versions of the same numbers of each type there, and is
      as another everywhere else; a version kept there too, type and all. */
  ghost predicate Mixed(c: Corpus, e: Corpus, f: Corpus, changed: set<Iri>)
  {
    (forall i :: HeldMixed(c, e, f, changed, i)) && (forall v :: KeptMixed(c, e, f, changed, v))
  }

  lemma TypedMixed(c: Corpus, e: Corpus, f: Corpus, changed: set<Iri>, i: Iri)
    requires Mixed(c, e, f, changed)
    ensures if i in changed then TypedAt(f, i) == TypedAt(e, i) && i in f.held && i in e.held && f.held[i] == e.held[i]
      else TypedAt(f, i) == TypedAt(c, i) && (i in f.held ==> i in c.held && f.held[i] == c.held[i])
  {
    assert HeldMixed(c, e, f, changed, i);
  }

  lemma MixedIsTyped(c: Corpus, e: Corpus, f: Corpus, changed: set<Iri>)
    requires Mixed(c, e, f, changed) && KeptAreTyped(c) && KeptAreTyped(e)
    ensures KeptAreTyped(f)
  {
    forall v | v in f.kept
      ensures TypedAt(f, v.of) && Typed(f.kept[v])
    {
      TypedMixed(c, e, f, changed, v.of);
      assert KeptMixed(c, e, f, changed, v);
    }
  }

  lemma MixedIsNumbered(c: Corpus, e: Corpus, f: Corpus, changed: set<Iri>)
    requires Mixed(c, e, f, changed) && NumbersRun(c) && NumbersRun(e)
    ensures NumbersRun(f)
  {
    forall v: Named | TypedAt(f, v.of)
      ensures v in f.kept <==> 1 <= v.number <= f.held[v.of].number
    {
      TypedMixed(c, e, f, changed, v.of);
      assert KeptMixed(c, e, f, changed, v);
    }
  }

  lemma MixedStandsAtLast(c: Corpus, e: Corpus, f: Corpus, changed: set<Iri>)
    requires Mixed(c, e, f, changed) && StandsAtLast(c) && Paced(c) && Paced(e)
    ensures StandsAtLast(f) && Paced(f)
  {
    forall i | TypedAt(f, i)
      ensures Named(i, f.held[i].number) in f.kept && f.kept[Named(i, f.held[i].number)] == f.held[i]
      ensures f.held[i].number == f.held[i].revision
    {
      TypedMixed(c, e, f, changed, i);
      assert HeldMixed(c, e, f, changed, i) && KeptMixed(c, e, f, changed, Named(i, f.held[i].number));
    }
  }

  lemma LateHeldMixed(s: Store, t: Store, r: Drafted, x: Store, i: Iri)
    requires Inv(s) && MetLate(s, t, r, x) && r.draft.removed == {}
    requires Versioned(View(r.draft)) && Paced(View(r.draft)) && Rises(r.draft)
    ensures HeldMixed(StoreView(t), View(r.draft), StoreView(x), r.draft.pending.Keys, i)
  {
    HeldByX(s, t, r, x, i);
    if i in r.draft.pending && Typed(r.draft.pending[i]) {
      LastIsMade(s, t, r, x, i);
    }
    hide *;
    HeldMixedAt(s, t, r, x, i);
  }

  lemma HeldMixedAt(s: Store, t: Store, r: Drafted, x: Store, i: Iri)
    requires r.Drafted? && s == r.draft.store
    requires i in r.draft.pending ==>
      && i in StoreView(x).held && i in View(r.draft).held
      && StoreView(x).held[i] == View(r.draft).held[i] == r.draft.pending[i]
      && (Typed(r.draft.pending[i]) ==>
           var v := Named(i, r.draft.pending[i].number); v in x.kept && x.kept[v] == r.draft.pending[i])
    requires i !in r.draft.pending ==> (i in x.rows <==> i in t.rows) && (i in x.rows ==> x.rows[i] == t.rows[i])
    ensures HeldMixed(StoreView(t), View(r.draft), StoreView(x), r.draft.pending.Keys, i)
  {
    hide View;
  }

  lemma LateKeptMixed(s: Store, t: Store, r: Drafted, x: Store, v: Named)
    requires Inv(s) && Inv(t) && MetLate(s, t, r, x) && KindsStand(t, r.handed) && r.draft.removed == {}
    requires KeptAreTyped(View(r.draft))
    ensures KeptMixed(StoreView(t), View(r.draft), StoreView(x), r.draft.pending.Keys, v)
  {
    assert KeptAreTyped(StoreView(t));
    if v.of in r.draft.pending {
      HeldByX(s, t, r, x, v.of);
      hide View, Inv, KindsStand, RowsWritten, StandsAlike;
      ChangedIsKept(s, t, r, x, v);
      if v in x.kept {
        assert TypedAt(View(r.draft), v.of);
        AddedIsTyped(t, r, x, v);
      }
    } else {
      UnchangedIsKept(s, t, r, x, v);
    }
  }

  lemma LateIsMixed(s: Store, t: Store, r: Drafted, x: Store)
    requires r.Drafted? && Inv(s) && Inv(t) && MetLate(s, t, r, x) && KindsStand(t, r.handed) && r.draft.removed == {}
    requires Versioned(View(r.draft)) && Paced(View(r.draft)) && Rises(r.draft)
    ensures Mixed(StoreView(t), View(r.draft), StoreView(x), r.draft.pending.Keys)
  {
    var changed := r.draft.pending.Keys;
    var c, e, f := StoreView(t), View(r.draft), StoreView(x);
    assert KeptAreTyped(e);
    hide View, StoreView, Inv, KindsStand, Versioned, MetLate, Paced, Rises, KeptAreTyped, HeldMixed, KeptMixed;
    forall i
      ensures HeldMixed(c, e, f, changed, i)
    {
      LateHeldMixed(s, t, r, x, i);
    }
    forall v: Named
      ensures KeptMixed(c, e, f, changed, v)
    {
      LateKeptMixed(s, t, r, x, v);
    }
  }

  /** What is known of the draft of such a set. */
  ghost predicate DraftIsSound(s: Store, r: Drafted)
  {
    && r.Drafted? && r.draft.store == s && r.draft.removed == {} && ActedOn(r.acts) == r.draft.pending.Keys
    && Versioned(View(r.draft)) && Placed(View(r.draft)) && Paced(View(r.draft)) && Rises(r.draft)
    && AllBare(r.acts, r.handed)
    && (forall k :: 0 <= k < |r.acts| ==> r.acts[k].left.Some? && r.acts[k].version.of == r.acts[k].left.value.kind)
  }

  lemma LateDraftIsSound(s: Store, ops: seq<Operation>)
    requires Inv(s) && AllPut(ops) && Planned(s, ops).Drafted?
    ensures DraftIsSound(s, Planned(s, ops))
  {
    DraftedPuts(s, ops);
    AppliedIsPaced(s, ops);
    RevisionsRise(s, ops);
    DraftedInShort(s, ops);
    hide Planned, Applied, HandsOver, KeptWhole, LeftWellLinked, InFrame, Inv, Placed, Versioned, Paced, Rises, View, AllBare;
  }

  lemma BothAreKept(s: Store, t: Store, ops: seq<Operation>, entries: seq<Entry>)
    requires LandsOn(s, t, ops, entries)
    ensures Inv(s) && Inv(t) && OfOneSort(ops) && Planned(s, ops).Drafted? && !Planned(s, ops).locked
    ensures RowsKept(s) && RowsKept(t)
  {
    hide Planned, RowsKept, Placed, Versioned, Referring, LinkedWell, Paced, Land;
  }

  lemma LateIsUnmoved(s: Store, t: Store, ops: seq<Operation>, entries: seq<Entry>)
    requires LandsOn(s, t, ops, entries)
    ensures Unmoved(t, Planned(s, ops).handed) && EmptyLate(t, Planned(s, ops).handed)
  {
    var changes := Planned(s, ops).handed;
    LandedIsWritten(t, changes, entries);
    assert RowsKept(t);
    hide Planned, Land, Inv, RowsKept, Unmoved, AllLand, SeversAny;
    forall k, i | 0 <= k < |changes| && (i, 0) in changes[k].through
      ensures i !in t.rows
    {
      UnmovedAt(t, changes, k, (i, 0));
      NotHeldAtZero(t, i);
    }
  }

  lemma TypedWhereItLands(s: Store, t: Store, r: Drafted, x: Store, k: nat)
    requires MetLate(s, t, r, x) && TypesStand(t, r.handed) && k < |r.handed|
    ensures r.handed[k].content.Some? && NamesTypes(StoreView(t), r.handed[k].content.value)
    ensures r.handed[k].artifact in r.draft.pending
    ensures TypedAt(StoreView(t), r.draft.pending[r.handed[k].artifact].kind)
  {
    hide KeepsAndAdds, RowsWritten, StandsAlike, View, StoreView;
  }

  lemma ConformsInDraft(s: Store, r: Drafted, i: Iri) returns (k: nat)
    requires DraftIsSound(s, r) && i in r.draft.pending
    ensures Conforming(r.draft.pending[i]) in View(r.draft).kept && ActedOn(r.acts) == r.draft.pending.Keys
    ensures k < |r.acts| == |r.handed| && r.acts[k].id == i == r.handed[k].artifact
  {
    ViewReads(r.draft);
    assert View(r.draft).held[i] == r.draft.pending[i];
    assert Conform(View(r.draft)) && i in ActedOn(r.acts);
    k :| 0 <= k < |r.acts| && r.acts[k].id == i;
    assert Bare(r.acts[k], r.handed[k]);
    hide View;
  }

  lemma ActOfItsKind(s: Store, t: Store, r: Drafted, x: Store, k: nat)
    requires DraftIsSound(s, r) && MetLate(s, t, r, x) && k < |r.acts|
    ensures k < |r.handed| && r.acts[k].left.Some? && r.handed[k].content == r.acts[k].left
    ensures r.acts[k].id == r.handed[k].artifact && r.acts[k].id in r.draft.pending
    ensures r.acts[k].version.of == r.draft.pending[r.acts[k].id].kind == r.acts[k].left.value.kind
  {
    hide KeepsAndAdds, RowsWritten, StandsAlike, View, StoreView, Versioned, Placed, Paced, Rises;
    assert Bare(r.acts[k], r.handed[k]);
  }

  lemma ConformingIsOfItsKind(a: Artifact)
    ensures Conforming(a).of == a.kind
  {
  }

  lemma LateConformsAt(s: Store, t: Store, ops: seq<Operation>, entries: seq<Entry>, i: Iri)
    requires LandsOn(s, t, ops, entries) && AllPut(ops) && i in Planned(s, ops).draft.pending
    requires KindsStand(t, Planned(s, ops).handed) && TypesStand(t, Planned(s, ops).handed)
    ensures Conforming(Planned(s, ops).draft.pending[i]) in After(s, t, ops, entries).kept
  {
    hide *;
    var r, x := Planned(s, ops), After(s, t, ops, entries);
    BothAreKept(s, t, ops, entries);
    LateIsMet(s, t, ops, entries);
    LateDraftIsSound(s, ops);
    LateIsUnmoved(s, t, ops, entries);
    var k := ConformsInDraft(s, r, i);
    TypedWhereItLands(s, t, r, x, k);
    ActOfItsKind(s, t, r, x, k);
    KindIsCompared(s, ops, k);
    ConformingIsOfItsKind(r.draft.pending[i]);
    ComparedIsKept(s, t, r, x, Conforming(r.draft.pending[i]));
  }

  lemma AMadeVersion(s: Store, t: Store, r: Drafted, x: Store, v: Named) returns (k: nat)
    requires MetLate(s, t, r, x) && v in x.kept && v !in t.kept
    ensures k < |r.handed| && r.handed[k].content == Some(x.kept[v]) && v.of in r.draft.pending
    ensures r.handed[k].artifact == v.of
  {
    hide RowsWritten, StandsAlike, View;
    k :| Makes(r.handed, k, v);
  }

  lemma AddedStays(s: Store, t: Store, r: Drafted, x: Store, v: Named)
    requires MetLate(s, t, r, x) && v in t.kept
    ensures v in x.kept && x.kept[v] == t.kept[v]
  {
    hide RowsWritten, StandsAlike, View;
  }

  lemma ReferenceIsHeld(a: Artifact, c: Corpus, n: nat)
    requires Typed(a) && n < |a.schema.refers| && NamesTypes(c, a)
    ensures TypedAt(c, a.schema.refers[n].to.of)
  {
  }

  lemma KeptIsThere(c: Corpus, v: Named)
    requires Kept(c, v).Some?
    ensures v in c.kept
  {
  }

  lemma LateRefersAt(s: Store, t: Store, ops: seq<Operation>, entries: seq<Entry>, v: Named, n: nat)
    requires LandsOn(s, t, ops, entries) && AllPut(ops)
    requires KindsStand(t, Planned(s, ops).handed) && TypesStand(t, Planned(s, ops).handed)
    requires var x := After(s, t, ops, entries);
      v in x.kept && v !in t.kept && Typed(x.kept[v]) && n < |x.kept[v].schema.refers|
    ensures var x := After(s, t, ops, entries); x.kept[v].schema.refers[n].to in x.kept
  {
    hide *;
    var r, x := Planned(s, ops), After(s, t, ops, entries);
    BothAreKept(s, t, ops, entries);
    LateIsMet(s, t, ops, entries);
    LateDraftIsSound(s, ops);
    LateIsUnmoved(s, t, ops, entries);
    var k := AMadeVersion(s, t, r, x, v);
    TypedWhereItLands(s, t, r, x, k);
    HandedAsActed(s, r, k);
    ReferenceIsCompared(s, ops, k, n);
    ReferenceIsHeld(x.kept[v], StoreView(t), n);
    KeptIsThere(View(r.draft), x.kept[v].schema.refers[n].to);
    ComparedIsKept(s, t, r, x, x.kept[v].schema.refers[n].to);
  }

  lemma HandedAsActed(s: Store, r: Drafted, k: nat)
    requires DraftIsSound(s, r) && k < |r.handed|
    ensures k < |r.acts| && r.acts[k].left == r.handed[k].content && ActedOn(r.acts) == r.draft.pending.Keys
  {
    assert Bare(r.acts[k], r.handed[k]);
  }

  /** What a store that bears the kinds and the types of a set keeps of versions once it has landed. */
  lemma LateIsVersioned(s: Store, t: Store, ops: seq<Operation>, entries: seq<Entry>)
    requires LandsOn(s, t, ops, entries) && AllPut(ops)
    requires KindsStand(t, Planned(s, ops).handed) && TypesStand(t, Planned(s, ops).handed)
    ensures var f := StoreView(After(s, t, ops, entries)); Versioned(f) && Referring(f) && Paced(f)
  {
    hide *;
    var r, x := Planned(s, ops), After(s, t, ops, entries);
    BothAreKept(s, t, ops, entries);
    LateIsMet(s, t, ops, entries);
    LateDraftIsSound(s, ops);
    DraftedViews(s, t, r);
    LateIsMixed(s, t, r, x);
    var c, e, f, changed := StoreView(t), View(r.draft), StoreView(x), r.draft.pending.Keys;
    MixedIsTyped(c, e, f, changed);
    MixedIsNumbered(c, e, f, changed);
    MixedStandsAtLast(c, e, f, changed);
    LateConform(s, t, ops, entries);
    LateReferring(s, t, ops, entries);
    VersionedByParts(f);
  }

  lemma VersionedByParts(f: Corpus)
    requires KeptAreTyped(f) && NumbersRun(f) && StandsAtLast(f) && Conform(f)
    ensures Versioned(f)
  {
    hide KeptAreTyped, NumbersRun, StandsAtLast, Conform;
  }

  lemma LateConform(s: Store, t: Store, ops: seq<Operation>, entries: seq<Entry>)
    requires LandsOn(s, t, ops, entries) && AllPut(ops)
    requires KindsStand(t, Planned(s, ops).handed) && TypesStand(t, Planned(s, ops).handed)
    ensures Conform(StoreView(After(s, t, ops, entries)))
  {
    hide LandsOn, Planned, After, KindsStand, TypesStand, StoreView;
    var f := StoreView(After(s, t, ops, entries));
    forall i | i in f.held
      ensures Conforming(f.held[i]) in f.kept
    {
      LateConforms(s, t, ops, entries, i);
    }
  }

  lemma LateReferring(s: Store, t: Store, ops: seq<Operation>, entries: seq<Entry>)
    requires LandsOn(s, t, ops, entries) && AllPut(ops)
    requires KindsStand(t, Planned(s, ops).handed) && TypesStand(t, Planned(s, ops).handed)
    requires KeptAreTyped(StoreView(After(s, t, ops, entries)))
    ensures Referring(StoreView(After(s, t, ops, entries)))
  {
    hide LandsOn, Planned, After, KindsStand, TypesStand, StoreView, KeptAreTyped;
    var f := StoreView(After(s, t, ops, entries));
    forall v, n | v in f.kept && 0 <= n < |f.kept[v].schema.refers|
      ensures f.kept[v].schema.refers[n].to in f.kept
    {
      LateRefers(s, t, ops, entries, v, n);
    }
  }

  lemma DraftedViews(s: Store, t: Store, r: Drafted)
    requires DraftIsSound(s, r) && Inv(t)
    ensures r.draft.removed == {} && Versioned(View(r.draft)) && Paced(View(r.draft)) && Rises(r.draft)
    ensures KeptAreTyped(View(r.draft)) && NumbersRun(View(r.draft)) && Placed(View(r.draft))
    ensures var c := StoreView(t); KeptAreTyped(c) && NumbersRun(c) && StandsAtLast(c) && Paced(c)
    ensures var c := StoreView(t); Conform(c) && Referring(c) && Placed(c) && LinkedWell(t) && RowsKept(t)
  {
    hide View, StoreView, Placed, Paced, Rises, KeptAreTyped, NumbersRun, Conform, StandsAtLast, Referring, LinkedWell;
    hide RowsKept;
  }

  lemma LateConforms(s: Store, t: Store, ops: seq<Operation>, entries: seq<Entry>, i: Iri)
    requires LandsOn(s, t, ops, entries) && AllPut(ops)
    requires KindsStand(t, Planned(s, ops).handed) && TypesStand(t, Planned(s, ops).handed)
    requires i in StoreView(After(s, t, ops, entries)).held
    ensures var f := StoreView(After(s, t, ops, entries)); Conforming(f.held[i]) in f.kept
  {
    var r, x := Planned(s, ops), After(s, t, ops, entries);
    BothAreKept(s, t, ops, entries);
    LateIsMet(s, t, ops, entries);
    LateDraftIsSound(s, ops);
    hide LandsOn, Planned, After, Land, MetLate, KindsStand, TypesStand, Inv, View, DraftIsSound, RowsKept;
    DraftedViews(s, t, r);
    HeldByX(s, t, r, x, i);
    if i in r.draft.pending {
      LateConformsAt(s, t, ops, entries, i);
    } else {
      assert Conforming(StoreView(t).held[i]) in StoreView(t).kept;
      AddedStays(s, t, r, x, Conforming(t.rows[i].content));
    }
  }

  lemma LateRefers(s: Store, t: Store, ops: seq<Operation>, entries: seq<Entry>, v: Named, n: nat)
    requires LandsOn(s, t, ops, entries) && AllPut(ops)
    requires KindsStand(t, Planned(s, ops).handed) && TypesStand(t, Planned(s, ops).handed)
    requires KeptAreTyped(StoreView(After(s, t, ops, entries)))
    requires var f := StoreView(After(s, t, ops, entries)); v in f.kept && n < |f.kept[v].schema.refers|
    ensures var f := StoreView(After(s, t, ops, entries)); f.kept[v].schema.refers[n].to in f.kept
  {
    var r, x := Planned(s, ops), After(s, t, ops, entries);
    BothAreKept(s, t, ops, entries);
    LateIsMet(s, t, ops, entries);
    LateDraftIsSound(s, ops);
    hide LandsOn, Planned, After, Land, MetLate, KindsStand, TypesStand, Inv, View, DraftIsSound, RowsKept;
    DraftedViews(s, t, r);
    if v in t.kept {
      AddedStays(s, t, r, x, v);
      assert StoreView(t).kept[v].schema.refers[n].to in StoreView(t).kept;
      AddedStays(s, t, r, x, t.kept[v].schema.refers[n].to);
    } else {
      LateRefersAt(s, t, ops, entries, v, n);
    }
  }

  // ---- places and links

  /** Where a change needs no type to have been defined, and its draft holds none, none stands once it has landed. */
  lemma LateGapIsUntyped(s: Store, t: Store, ops: seq<Operation>, entries: seq<Entry>, k: nat, b: Iri)
    requires LandsOn(s, t, ops, entries) && AllPut(ops) && k < |Planned(s, ops).acts|
    requires var r := Planned(s, ops);
      && (r.acts[k].left.Some? ==> TypedFor(r.draft, r.acts[k]).Some?)
      && Open(HandedOver(r.draft, r.acts, k), b) && !TypedAt(View(r.draft), b)
    ensures !TypedAt(StoreView(After(s, t, ops, entries)), b)
  {
    var r, x := Planned(s, ops), After(s, t, ops, entries);
    hide *;
    BothAreKept(s, t, ops, entries);
    LateIsMet(s, t, ops, entries);
    LateDraftIsSound(s, ops);
    LateIsUnmoved(s, t, ops, entries);
    DraftedViews(s, t, r);
    HandedAsTouched(s, r);
    LateGap(s, t, ops, k, b);
    HeldByX(s, t, r, x, b);
    UntypedByX(x, View(r.draft), b, r.draft.pending.Keys);
  }

  lemma HandedAsTouched(s: Store, r: Drafted)
    requires DraftIsSound(s, r)
    ensures forall i :: Touched(r.draft, i) <==> i in ActedOn(r.acts)
    ensures ActedOn(r.acts) == r.draft.pending.Keys
  {
    hide View, Versioned, Placed, Paced, Rises, AllBare;
  }

  lemma UntypedByX(x: Store, e: Corpus, b: Iri, changed: set<Iri>)
    requires !TypedAt(e, b)
    requires b in changed ==> b in StoreView(x).held && b in e.held && StoreView(x).held[b] == e.held[b]
    requires b !in changed ==> b !in x.rows
    ensures !TypedAt(StoreView(x), b)
  {
  }

  /** A create's IRI is under its type still, where that is a type. */
  lemma LateCreateIsPlaced(s: Store, t: Store, ops: seq<Operation>, entries: seq<Entry>, i: Iri)
    requires LandsOn(s, t, ops, entries) && AllPut(ops) && i in Planned(s, ops).draft.pending && i !in s.rows
    requires TypedAt(StoreView(After(s, t, ops, entries)), Planned(s, ops).draft.pending[i].kind)
    ensures NearestType(StoreView(After(s, t, ops, entries)), i) == Some(Planned(s, ops).draft.pending[i].kind)
  {
    var r, f := Planned(s, ops), StoreView(After(s, t, ops, entries));
    var kind := r.draft.pending[i].kind;
    hide *;
    BothAreKept(s, t, ops, entries);
    LateIsMet(s, t, ops, entries);
    LateDraftIsSound(s, ops);
    UnheldIsNoType(s, ops, i);
    PlacedInDraft(s, r, i);
    var k := ConformsInDraft(s, r, i);
    ActOfItsKind(s, t, r, After(s, t, ops, entries), k);
    UnheldIsCreated(s, ops, k);
    NearestTypeStands(View(r.draft), i, kind);
    NearestTypeStands(f, i, kind);
    forall b | b in Between(i, kind)
      ensures !TypedAt(f, b)
    {
      CreateIsOpen(s, ops, k, b);
      LateGapIsUntyped(s, t, ops, entries, k, b);
    }
  }

  lemma PlacedInDraft(s: Store, r: Drafted, i: Iri)
    requires DraftIsSound(s, r) && i in r.draft.pending && !Typed(r.draft.pending[i])
    ensures NearestType(View(r.draft), i) == Some(r.draft.pending[i].kind) && r.draft.pending[i].kind != TYPES
  {
    ViewReads(r.draft);
    assert View(r.draft).held[i] == r.draft.pending[i];
  }

  lemma UnheldIsCreated(s: Store, ops: seq<Operation>, k: nat)
    requires Inv(s) && OfOneSort(ops) && AllPut(ops) && Planned(s, ops).Drafted? && k < |Planned(s, ops).acts|
    requires Planned(s, ops).acts[k].id !in s.rows && Planned(s, ops).acts[k].id in Planned(s, ops).draft.pending
    ensures k < |ops| && ops[k].Create?
  {
    AppliedSay(s, ops);
    HandedAs(s, ops, k);
    hide Planned, Inv, Stands, KeptWhole;
    if AllRevisions(ops) {
      RevisionsAreOfHeld(s, ops);
      assert false;
    }
  }

  lemma LateIsPlacedAt(s: Store, t: Store, ops: seq<Operation>, entries: seq<Entry>, i: Iri)
    requires LandsOn(s, t, ops, entries) && AllPut(ops)
    requires KindsStand(t, Planned(s, ops).handed) && TypesStand(t, Planned(s, ops).handed)
    requires i in Planned(s, ops).draft.pending && i !in t.rows
    ensures var f := StoreView(After(s, t, ops, entries));
      i in f.held && !Typed(f.held[i]) && NearestType(f, i) == Some(f.held[i].kind)
  {
    var r, x := Planned(s, ops), After(s, t, ops, entries);
    hide *;
    BothAreKept(s, t, ops, entries);
    LateIsMet(s, t, ops, entries);
    LateDraftIsSound(s, ops);
    DraftedViews(s, t, r);
    HeldByX(s, t, r, x, i);
    InNeither(s, t, r, x, i);
    TypesAreSame(s, t, r, x);
    var k := ConformsInDraft(s, r, i);
    TypedWhereItLands(s, t, r, x, k);
    SameAt(StoreView(t), StoreView(x), r.draft.pending[i].kind);
    LateCreateIsPlaced(s, t, ops, entries, i);
  }

  lemma InNeither(s: Store, t: Store, r: Drafted, x: Store, i: Iri)
    requires MetLate(s, t, r, x) && i in r.draft.pending && i !in t.rows
    ensures i !in s.rows && !Typed(r.draft.pending[i])
  {
    hide RowsWritten, View, KeepsAndAdds, OfTheirKinds;
  }

  lemma SameAt(c: Corpus, f: Corpus, i: Iri)
    requires SameTypes(c, f)
    ensures TypedAt(c, i) == TypedAt(f, i)
  {
  }

  /** What a later corpus has over one of the same types: whatever it held it holds, of its kind, and beside it only what
      is no type, each of its nearest type. */
  ghost predicate Grown(c: Corpus, f: Corpus)
  {
    SameTypes(c, f) && forall i :: GrownAt(c, f, i)
  }

  ghost predicate GrownAt(c: Corpus, f: Corpus, i: Iri)
  {
    if i in c.held then i in f.held && f.held[i].kind == c.held[i].kind
    else i in f.held ==> !Typed(f.held[i]) && NearestType(f, i) == Some(f.held[i].kind)
  }

  lemma GrownIsPlaced(c: Corpus, f: Corpus)
    requires Placed(c) && Grown(c, f)
    ensures Placed(f)
  {
    forall i | i in f.held && !Typed(f.held[i])
      ensures NearestType(f, i) == Some(f.held[i].kind)
    {
      assert GrownAt(c, f, i);
      if i in c.held {
        NearestAlike(c, f, i);
      }
    }
  }

  lemma GrownStaysLinked(c: Corpus, f: Corpus, l: Stored)
    requires Grown(c, f) && WellLinked(c, l)
    ensures WellLinked(f, l)
  {
    assert GrownAt(c, f, l.target);
    NearestAlike(c, f, l.target);
  }

  lemma LateIsGrownAt(s: Store, t: Store, ops: seq<Operation>, entries: seq<Entry>, i: Iri)
    requires LandsOn(s, t, ops, entries) && AllPut(ops)
    requires KindsStand(t, Planned(s, ops).handed) && TypesStand(t, Planned(s, ops).handed)
    requires MetLate(s, t, Planned(s, ops), After(s, t, ops, entries)) && Planned(s, ops).draft.removed == {}
    requires forall i :: i in t.rows ==> StoreView(t).held[i].kind == StoreView(After(s, t, ops, entries)).held[i].kind
    ensures GrownAt(StoreView(t), StoreView(After(s, t, ops, entries)), i)
  {
    BothAreKept(s, t, ops, entries);
    hide LandsOn, Planned, After, Land, MetLate, KindsStand, TypesStand, NearestType, Inv;
    HeldByX(s, t, Planned(s, ops), After(s, t, ops, entries), i);
    if i in Planned(s, ops).draft.pending && i !in t.rows {
      LateIsPlacedAt(s, t, ops, entries, i);
    }
  }

  lemma LateIsGrown(s: Store, t: Store, ops: seq<Operation>, entries: seq<Entry>)
    requires LandsOn(s, t, ops, entries) && AllPut(ops)
    requires KindsStand(t, Planned(s, ops).handed) && TypesStand(t, Planned(s, ops).handed)
    ensures Grown(StoreView(t), StoreView(After(s, t, ops, entries)))
  {
    var r, x := Planned(s, ops), After(s, t, ops, entries);
    hide *;
    BothAreKept(s, t, ops, entries);
    LateIsMet(s, t, ops, entries);
    LateDraftIsSound(s, ops);
    DraftedViews(s, t, r);
    TypesAreSame(s, t, r, x);
    forall i
      ensures GrownAt(StoreView(t), StoreView(x), i)
    {
      LateIsGrownAt(s, t, ops, entries, i);
    }
    GrownByParts(StoreView(t), StoreView(x));
  }

  lemma GrownByParts(c: Corpus, f: Corpus)
    requires SameTypes(c, f) && forall i :: GrownAt(c, f, i)
    ensures Grown(c, f)
  {
    hide SameTypes, GrownAt;
  }

  /** The change a link is handed with is the last to its artifact. */
  lemma LinksAreOfTheLast(s: Store, ops: seq<Operation>, k: nat)
    requires Inv(s) && AllPut(ops) && Planned(s, ops).Drafted? && k < |Planned(s, ops).handed|
    requires Planned(s, ops).handed[k].links != []
    ensures var r := Planned(s, ops);
      && |r.acts| == |r.handed| && r.acts[k].left.Some?
      && HandsOver(r.draft, r.acts[k].id, r.acts[k].left.value, r.handed[k])
  {
    DraftedInShort(s, ops);
    HandedAs(s, ops, k);
    AnActInShort(s, ops, k);
    hide Planned, Inv, View, HandedLinks, HandsOver, Stands, KeptWhole, TypedFor;
  }

  lemma LinkHandedOver(d: Overlay, i: Iri, a: Artifact, c: Change, n: nat)
    requires HandsOver(d, i, a, c) && n < |c.links|
    ensures c.artifact == i && c.kind == a.kind && (c.links[n].implicit <==> n == 0)
    ensures n == 0 ==> c.links[n] == Implicit(a.kind)
    ensures n > 0 ==> c.links[n].under == NearestType(View(d), c.links[n].target)
  {
    if n > 0 {
      var own := Kept(View(d), Conforming(a)).value.schema;
      assert c.links[n] == HandedLink(Carried(a.body.values, own.declares), n - 1, own.declares, View(d), HeldWaiting(d.store, i));
    }
  }

  /** A link drafted to wait under a type waits, once its set has landed, under that IRI when it is a type, and else under
      what that IRI sits under. */
  lemma LateNearest(s: Store, t: Store, ops: seq<Operation>, entries: seq<Entry>, k: nat, n: nat)
    requires LandsOn(s, t, ops, entries) && AllPut(ops)
    requires k < |Planned(s, ops).handed| && n < |Planned(s, ops).handed[k].links|
    requires !Planned(s, ops).handed[k].links[n].implicit && Planned(s, ops).handed[k].links[n].under.Some?
    ensures var f, l := StoreView(After(s, t, ops, entries)), Planned(s, ops).handed[k].links[n];
      NearestType(f, l.target) == if TypedAt(f, l.under.value) then l.under else NearestType(f, l.under.value)
  {
    var r, f := Planned(s, ops), StoreView(After(s, t, ops, entries));
    var l := r.handed[k].links[n];
    var u := l.under.value;
    hide *;
    BothAreKept(s, t, ops, entries);
    LinksAreOfTheLast(s, ops, k);
    LinkHandedOver(r.draft, r.acts[k].id, r.acts[k].left.value, r.handed[k], n);
    NearestTypeStands(View(r.draft), l.target, u);
    forall b | b in Between(l.target, u)
      ensures !TypedAt(f, b)
    {
      LinksAreOpen(s, ops, k, n, b);
      LateGapIsUntyped(s, t, ops, entries, k, b);
    }
    NearestWasStands(f, l.target, u);
    NearestTypeStands(f, l.target, u);
    if !TypedAt(f, u) {
      NearestPast(f, l.target, u);
    }
  }

  lemma Vouching(s: Store, t: Store, ops: seq<Operation>, entries: seq<Entry>, k: nat, n: nat)
    requires LandsOn(s, t, ops, entries) && AllPut(ops)
    requires k < |Planned(s, ops).handed| && n < |Planned(s, ops).handed[k].links|
    ensures var (c, x) := (Planned(s, ops).handed[k], After(s, t, ops, entries));
      && c.artifact in x.rows && x.rows[c.artifact].links == StoreAll(c.links)
      && (if c.links[n].target in x.rows then x.rows[c.links[n].target].kind in c.links[n].kinds
          else Vouched(x, c.links[n]))
  {
    var r, x := Planned(s, ops), After(s, t, ops, entries);
    BothAreKept(s, t, ops, entries);
    LateIsMet(s, t, ops, entries);
    LandedIsWritten(t, r.handed, entries);
    LinksAreOfTheLast(s, ops, k);
    LateDraftIsSound(s, ops);
    LastOfItsArtifact(s, ops, k);
    hide LandsOn, Planned, Inv, Land, WriteAll, RowsKept, SeversAny, KeepsAndAdds, OfTheirKinds, StandsAlike, View;
    hide DraftIsSound, HandsOver, StoreAll, Unmoved;
    var i := r.handed[k].artifact;
    assert ChangeLands(t, x, r.handed[k]) by {
      LandsAlike(t, WriteAll(t, r.handed).store, x, r.handed[k]);
    }
  }

  lemma LandsAlike(t: Store, y: Store, x: Store, c: Change)
    requires y.rows == x.rows && ChangeLands(t, y, c)
    ensures ChangeLands(t, x, c)
  {
    hide HeldWaiting, ToldAt;
    if c.content.Some? {
      forall n | 0 <= n < |c.links|
        ensures Lands(x, c.links[n], ToldAt(LinkKeys(c.links), n), HeldWaiting(t, c.artifact))
      {
        assert Lands(y, c.links[n], ToldAt(LinkKeys(c.links), n), HeldWaiting(t, c.artifact));
      }
    }
  }

  lemma LastOfItsArtifact(s: Store, ops: seq<Operation>, k: nat)
    requires Inv(s) && AllPut(ops) && Planned(s, ops).Drafted? && k < |Planned(s, ops).handed|
    requires Planned(s, ops).handed[k].links != []
    ensures var c := Planned(s, ops).handed;
      c[k].content.Some? && c[k].artifact in Changed(c) && LastAt(c, c[k].artifact) == k
  {
    var r := Planned(s, ops);
    DraftedPuts(s, ops);
    HandedAs(s, ops, k);
    assert Bare(r.acts[k], r.handed[k]);
    hide Planned, Inv, View, HandedLinks, HandsOver, Stands, KeptWhole, TypedFor, Ready;
    assert IsLast(r.acts, k);
    SameLast(r.acts, r.handed, k);
  }

  /** A link handed that lands on nothing held is well linked, once its set has landed, exactly when it stands under what
      it may land on. */
  lemma WaitsWhereItMay(s: Store, t: Store, ops: seq<Operation>, entries: seq<Entry>, k: nat, n: nat)
    requires LandsOn(s, t, ops, entries) && AllPut(ops)
    requires SameTypes(StoreView(t), StoreView(After(s, t, ops, entries)))
    requires k < |Planned(s, ops).handed| && n < |Planned(s, ops).handed[k].links|
    requires !Planned(s, ops).handed[k].links[n].implicit
    requires Planned(s, ops).handed[k].links[n].target !in After(s, t, ops, entries).rows
    ensures var l := Planned(s, ops).handed[k].links[n];
      WellLinked(StoreView(After(s, t, ops, entries)), AsStored(l)) <==> StandsUnder(StoreView(t), l)
  {
    var x, l := After(s, t, ops, entries), Planned(s, ops).handed[k].links[n];
    Vouching(s, t, ops, entries, k, n);
    assert Vouched(x, l);
    LateNearest(s, t, ops, entries, k, n);
    hide LandsOn, Planned, After, Land, AllPut;
    var c, f, u := StoreView(t), StoreView(x), l.under.value;
    NearestAlike(c, f, u);
    assert TypedAt(c, u) == TypedAt(f, u);
    assert l.target !in f.held && AsStored(l).kinds == l.kinds && AsStored(l).target == l.target;
    hide StoreView;
  }

  lemma HandedLinkStands(s: Store, t: Store, ops: seq<Operation>, entries: seq<Entry>, k: nat, n: nat)
    requires LandsOn(s, t, ops, entries) && AllPut(ops) && RowsKept(After(s, t, ops, entries))
    requires SameTypes(StoreView(t), StoreView(After(s, t, ops, entries)))
    requires TypesStand(t, Planned(s, ops).handed) && LinksStand(t, Planned(s, ops).handed)
    requires k < |Planned(s, ops).handed| && n < |Planned(s, ops).handed[k].links|
    ensures WellLinked(StoreView(After(s, t, ops, entries)), AsStored(Planned(s, ops).handed[k].links[n]))
  {
    var r, x, l := Planned(s, ops), After(s, t, ops, entries), Planned(s, ops).handed[k].links[n];
    BothAreKept(s, t, ops, entries);
    LateIsMet(s, t, ops, entries);
    LinksAreOfTheLast(s, ops, k);
    LinkHandedOver(r.draft, r.acts[k].id, r.acts[k].left.value, r.handed[k], n);
    Vouching(s, t, ops, entries, k, n);
    TypedWhereItLands(s, t, r, x, k);
    hide LandsOn, Planned, After, Land, AllPut, Inv, TypesStand, HandsOver, View, Vouched, StoreAll;
    if l.implicit {
      ImplicitIsLinked(StoreView(t), StoreView(x), r.handed[k].content.value.kind);
    } else if l.target in x.rows {
      assert RowKept(l.target, x.rows[l.target], x.landings);
    } else {
      AskedOfLink(s, t, r, x, k, n);
      WaitsWhereItMay(s, t, ops, entries, k, n);
    }
  }

  lemma ImplicitIsLinked(c: Corpus, f: Corpus, kind: Iri)
    requires SameTypes(c, f) && TypedAt(c, kind)
    ensures WellLinked(f, AsStored(Implicit(kind)))
  {
  }

  lemma AskedOfLink(s: Store, t: Store, r: Drafted, x: Store, k: nat, n: nat)
    requires MetLate(s, t, r, x) && LinksStand(t, r.handed) && k < |r.handed| && n < |r.handed[k].links|
    requires !r.handed[k].links[n].implicit && r.handed[k].links[n].target !in x.rows
    ensures StandsUnder(StoreView(t), r.handed[k].links[n])
  {
    hide StandsUnder, StandsAlike, KeepsAndAdds, OfTheirKinds, View, StoreView;
    assert Changed(r.handed) == r.draft.pending.Keys && x.rows.Keys == t.rows.Keys + r.draft.pending.Keys;
  }

  lemma LateIsLinked(s: Store, t: Store, ops: seq<Operation>, entries: seq<Entry>)
    requires LandsOn(s, t, ops, entries) && AllPut(ops) && RowsKept(After(s, t, ops, entries))
    requires Grown(StoreView(t), StoreView(After(s, t, ops, entries)))
    requires TypesStand(t, Planned(s, ops).handed) && LinksStand(t, Planned(s, ops).handed)
    ensures LinkedWell(After(s, t, ops, entries))
  {
    var r, x := Planned(s, ops), After(s, t, ops, entries);
    hide *;
    BothAreKept(s, t, ops, entries);
    LateIsMet(s, t, ops, entries);
    forall i, l | i in x.rows && l in x.rows[i].links
      ensures WellLinked(StoreView(x), l)
    {
      LateLinkIsLinked(s, t, ops, entries, i, l);
    }
    LinkedByParts(x);
  }

  lemma LinkedByParts(x: Store)
    requires forall i, l :: i in x.rows && l in x.rows[i].links ==> WellLinked(StoreView(x), l)
    ensures LinkedWell(x)
  {
    hide WellLinked, StoreView;
  }

  lemma LateLinkIsLinked(s: Store, t: Store, ops: seq<Operation>, entries: seq<Entry>, i: Iri, l: Stored)
    requires LandsOn(s, t, ops, entries) && AllPut(ops) && RowsKept(After(s, t, ops, entries))
    requires Grown(StoreView(t), StoreView(After(s, t, ops, entries)))
    requires TypesStand(t, Planned(s, ops).handed) && LinksStand(t, Planned(s, ops).handed)
    requires i in After(s, t, ops, entries).rows && l in After(s, t, ops, entries).rows[i].links
    ensures WellLinked(StoreView(After(s, t, ops, entries)), l)
  {
    var r, x := Planned(s, ops), After(s, t, ops, entries);
    BothAreKept(s, t, ops, entries);
    LateIsMet(s, t, ops, entries);
    LateDraftIsSound(s, ops);
    DraftedViews(s, t, r);
    HeldByX(s, t, r, x, i);
    assert SameTypes(StoreView(t), StoreView(x));
    hide *;
    if i in r.draft.pending {
      var k, n := RowLinkIsHanded(s, t, r, x, i, l);
      HandedLinkStands(s, t, ops, entries, k, n);
    } else {
      LeftIsLinked(t, i, l);
      GrownStaysLinked(StoreView(t), StoreView(x), l);
    }
  }

  lemma LeftIsLinked(t: Store, i: Iri, l: Stored)
    requires LinkedWell(t) && i in t.rows && l in t.rows[i].links
    ensures WellLinked(StoreView(t), l)
  {
    hide StoreView, WellLinked;
  }

  lemma RowLinkIsHanded(s: Store, t: Store, r: Drafted, x: Store, i: Iri, l: Stored) returns (k: nat, n: nat)
    requires MetLate(s, t, r, x) && i in r.draft.pending && i in x.rows && l in x.rows[i].links
    ensures k < |r.handed| && n < |r.handed[k].links| && l == AsStored(r.handed[k].links[n])
  {
    hide StandsAlike, KeepsAndAdds, OfTheirKinds, View;
    k := LastAt(r.handed, i);
    n :| 0 <= n < |r.handed[k].links| && l == AsStored(r.handed[k].links[n]);
  }

  /** Where the store bears a set of creates or revisions, landing it there keeps everything. */
  lemma BorneIsKept(s: Store, t: Store, ops: seq<Operation>, entries: seq<Entry>)
    requires LandsOn(s, t, ops, entries) && AllPut(ops)
    requires KindsStand(t, Planned(s, ops).handed) && TypesStand(t, Planned(s, ops).handed)
    requires LinksStand(t, Planned(s, ops).handed)
    ensures Inv(After(s, t, ops, entries))
  {
    var r, x := Planned(s, ops), After(s, t, ops, entries);
    hide *;
    BothAreKept(s, t, ops, entries);
    LateIsMet(s, t, ops, entries);
    LateDraftIsSound(s, ops);
    DraftedViews(s, t, r);
    LateIsVersioned(s, t, ops, entries);
    LateIsGrown(s, t, ops, entries);
    GrownIsPlaced(StoreView(t), StoreView(x));
    LateIsLinked(s, t, ops, entries);
    KeptByParts(x);
  }

  lemma KeptByParts(x: Store)
    requires RowsKept(x) && Placed(StoreView(x)) && Versioned(StoreView(x)) && Referring(StoreView(x)) && LinkedWell(x)
    requires Paced(StoreView(x))
    ensures Inv(x)
  {
    hide RowsKept, Placed, Versioned, Referring, LinkedWell, Paced, StoreView;
  }

  // ---- what the store bore, where it is kept

  lemma VersionsOfATypeRun(s: Store, i: Iri)
    requires Inv(s) && TypedAt(StoreView(s), i)
    ensures Named(i, 1) in s.kept
  {
    assert StandsAtLast(StoreView(s)) && NumbersRun(StoreView(s));
    assert Named(i, StoreView(s).held[i].number) in StoreView(s).kept;
    assert Named(i, 1).of == i && Named(i, 1) in StoreView(s).kept;
  }

  lemma UntypedKeepsNone(s: Store, v: Named)
    requires Inv(s)
    ensures v in s.kept ==> TypedAt(StoreView(s), v.of)
  {
    if v in s.kept {
      OnlyTypesAreKept(s, v);
    }
  }

  lemma OnlyTypesAreKept(s: Store, v: Named)
    requires Inv(s) && v in s.kept
    ensures TypedAt(StoreView(s), v.of)
  {
    assert v in StoreView(s).kept && KeptAreTyped(StoreView(s));
  }

  /** What a set changes is a type there exactly when it was drafted as one. */
  lemma TypeForType(s: Store, t: Store, r: Drafted, x: Store, i: Iri)
    requires MetLate(s, t, r, x) && Inv(s) && Inv(t) && Inv(x) && r.draft.removed == {}
    requires i in r.draft.pending && i in t.rows
    ensures TypedAt(StoreView(t), i) == TypedAt(StoreView(x), i)
  {
    HeldByX(s, t, r, x, i);
    assert RowsKept(s);
    var first := Named(i, 1);
    UntypedKeepsNone(t, first);
    hide Inv, RowsWritten, OfTheirKinds, View;
    if TypedAt(StoreView(t), i) {
      VersionsOfATypeRun(t, i);
      OnlyTypesAreKept(x, first);
    } else if TypedAt(StoreView(x), i) {
      VersionsOfATypeRun(x, i);
      assert first !in t.kept;
      var k :| Makes(r.handed, k, first);
      assert RowKept(i, s.rows[i], s.landings);
      VersionsOfATypeRun(s, i);
      assert false;
    }
  }

  lemma TypesWereSame(s: Store, t: Store, r: Drafted, x: Store)
    requires r.Drafted? && MetLate(s, t, r, x) && Inv(s) && Inv(t) && Inv(x) && r.draft.removed == {}
    ensures SameTypes(StoreView(t), StoreView(x))
  {
    hide Inv, View, StoreView;
    forall i
      ensures TypedAt(StoreView(t), i) == TypedAt(StoreView(x), i)
    {
      TypeWasSame(s, t, r, x, i);
    }
  }

  lemma TypeWasSame(s: Store, t: Store, r: Drafted, x: Store, i: Iri)
    requires MetLate(s, t, r, x) && Inv(s) && Inv(t) && Inv(x) && r.draft.removed == {}
    ensures TypedAt(StoreView(t), i) == TypedAt(StoreView(x), i)
  {
    HeldByX(s, t, r, x, i);
    hide Inv, View, RowsWritten, OfTheirKinds, KeepsAndAdds;
    if i in r.draft.pending && i in t.rows {
      TypeForType(s, t, r, x, i);
    }
  }

  lemma KindWasSame(s: Store, t: Store, r: Drafted, x: Store, i: Iri)
    requires r.Drafted? && MetLate(s, t, r, x) && Inv(t) && Inv(x) && r.draft.removed == {}
    requires SameTypes(StoreView(t), StoreView(x)) && i in r.draft.pending && i in t.rows
    ensures t.rows[i].kind == r.draft.pending[i].kind
  {
    HeldByX(s, t, r, x, i);
    assert RowsKept(t) && RowKept(i, t.rows[i], t.landings);
    OfOneKind(StoreView(t), StoreView(x), i);
  }

  /** An artifact held in two corpora of the same types is of one kind in both. */
  lemma OfOneKind(c: Corpus, f: Corpus, i: Iri)
    requires Placed(c) && Placed(f) && SameTypes(c, f) && i in c.held && i in f.held
    ensures c.held[i].kind == f.held[i].kind
  {
    assert TypedAt(c, i) == TypedAt(f, i);
    if !TypedAt(c, i) {
      NearestByPlace(c, i);
      NearestByPlace(f, i);
      hide Placed;
      NearestUnderTheSame(c, f, i);
    }
  }

  lemma NearestByPlace(c: Corpus, i: Iri)
    requires Placed(c) && i in c.held && !Typed(c.held[i])
    ensures NearestType(c, i) == Some(c.held[i].kind)
  {
  }

  lemma NearestUnderTheSame(c: Corpus, f: Corpus, i: Iri)
    requires SameTypes(c, f)
    ensures NearestType(c, i) == NearestType(f, i)
  {
    NearestAlike(c, f, i);
  }

  lemma KindsStood(s: Store, t: Store, r: Drafted, x: Store)
    requires r.Drafted? && MetLate(s, t, r, x) && Inv(t) && Inv(x) && r.draft.removed == {}
    requires SameTypes(StoreView(t), StoreView(x))
    ensures KindsStand(t, r.handed)
  {
    assert OfTheirKinds(r);
    hide MetLate, Inv, View, StoreView;
    forall k | 0 <= k < |r.handed| && r.handed[k].artifact in t.rows
      ensures t.rows[r.handed[k].artifact].kind == r.handed[k].kind
    {
      KindWasSame(s, t, r, x, r.handed[k].artifact);
    }
  }

  lemma TypesStoodAt(s: Store, t: Store, r: Drafted, x: Store, k: nat)
    requires DraftIsSound(s, r) && MetLate(s, t, r, x) && Inv(x) && k < |r.handed|
    requires SameTypes(StoreView(t), StoreView(x))
    ensures r.handed[k].content.Some? && NamesTypes(StoreView(t), r.handed[k].content.value)
  {
    var c, i := r.handed[k], r.handed[k].artifact;
    assert OfTheirKinds(r) && r.draft.removed == {};
    HeldByX(s, t, r, x, i);
    var f, a := StoreView(x), c.content.value;
    ConformingIsKept(x, i);
    assert TypedAt(f, a.kind);
    if Typed(a) {
      MakesItsVersion(s, r, k);
      var v := Named(i, a.number);
      assert KeepsAndAdds(t.kept, r.handed, x.kept);
      hide Inv, MetLate, View, DraftIsSound, OfTheirKinds, SameTypes;
      assert Makes(r.handed, k, v) && v in x.kept && x.kept[v] == a;
      forall n | 0 <= n < |a.schema.refers|
        ensures TypedAt(f, a.schema.refers[n].to.of)
      {
        ReferenceIsKept(x, v, n);
      }
    }
  }

  lemma ConformingIsKept(x: Store, i: Iri)
    requires Inv(x) && i in x.rows
    ensures TypedAt(StoreView(x), x.rows[i].content.kind)
  {
    var f := StoreView(x);
    assert Conform(f) && i in f.held && Conforming(f.held[i]) in f.kept && KeptAreTyped(f);
  }

  lemma ReferenceIsKept(x: Store, v: Named, n: nat)
    requires Inv(x) && v in x.kept && n < |x.kept[v].schema.refers|
    ensures TypedAt(StoreView(x), x.kept[v].schema.refers[n].to.of)
  {
    var f := StoreView(x);
    assert Referring(f) && KeptAreTyped(f) && v in f.kept && f.kept[v].schema.refers[n].to in f.kept;
  }

  lemma MakesItsVersion(s: Store, r: Drafted, k: nat)
    requires DraftIsSound(s, r) && k < |r.handed| && r.handed[k].content.Some? && Typed(r.handed[k].content.value)
    ensures Makes(r.handed, k, Named(r.handed[k].artifact, r.handed[k].content.value.number))
  {
    assert Bare(r.acts[k], r.handed[k]);
  }

  lemma TypesStood(s: Store, t: Store, r: Drafted, x: Store)
    requires r.Drafted? && DraftIsSound(s, r) && MetLate(s, t, r, x) && Inv(x) && SameTypes(StoreView(t), StoreView(x))
    ensures TypesStand(t, r.handed)
  {
    hide DraftIsSound, MetLate, Inv, SameTypes, StoreView, NamesTypes;
    forall k | 0 <= k < |r.handed| && r.handed[k].content.Some?
      ensures NamesTypes(StoreView(t), r.handed[k].content.value)
    {
      TypesStoodAt(s, t, r, x, k);
    }
  }

  lemma LinksStood(s: Store, t: Store, ops: seq<Operation>, entries: seq<Entry>)
    requires LandsOn(s, t, ops, entries) && AllPut(ops) && Inv(After(s, t, ops, entries))
    requires SameTypes(StoreView(t), StoreView(After(s, t, ops, entries)))
    ensures LinksStand(t, Planned(s, ops).handed)
  {
    var r, x := Planned(s, ops), After(s, t, ops, entries);
    LateIsMet(s, t, ops, entries);
    assert x.rows.Keys == t.rows.Keys + Changed(r.handed) && LinkedWell(x);
    hide LandsOn, MetLate, Inv, SameTypes, StoreView, StandsUnder, Planned, After, AllPut, Land;
    forall k, n | 0 <= k < |r.handed| && 0 <= n < |r.handed[k].links| && !r.handed[k].links[n].implicit
        && r.handed[k].links[n].target !in t.rows && r.handed[k].links[n].target !in Changed(r.handed)
      ensures StandsUnder(StoreView(t), r.handed[k].links[n])
    {
      Vouching(s, t, ops, entries, k, n);
      LeftIsLinked(x, r.handed[k].artifact, StoreAll(r.handed[k].links)[n]);
      WaitsWhereItMay(s, t, ops, entries, k, n);
    }
  }

  /** Where landing a set of creates or revisions keeps everything, the store bore it. */
  lemma KeptIsBorne(s: Store, t: Store, ops: seq<Operation>, entries: seq<Entry>)
    requires LandsOn(s, t, ops, entries) && AllPut(ops) && Inv(After(s, t, ops, entries))
    ensures KindsStand(t, Planned(s, ops).handed) && TypesStand(t, Planned(s, ops).handed)
    ensures LinksStand(t, Planned(s, ops).handed)
  {
    var r, x := Planned(s, ops), After(s, t, ops, entries);
    hide *;
    BothAreKept(s, t, ops, entries);
    LateIsMet(s, t, ops, entries);
    LateDraftIsSound(s, ops);
    DraftedViews(s, t, r);
    TypesWereSame(s, t, r, x);
    KindsStood(s, t, r, x);
    TypesStood(s, t, r, x);
    LinksStood(s, t, ops, entries);
  }

  // ---- removals

  lemma {:induction false} RemovedKeepNone(t: Store, changes: seq<Change>)
    requires WriteAll(t, changes).Landed? && forall k :: 0 <= k < |changes| ==> changes[k].content.None?
    ensures forall v: Named :: v.of in Changed(changes) ==> v !in WriteAll(t, changes).store.kept
  {
    if changes != [] {
      var rest, c := changes[..|changes| - 1], changes[|changes| - 1];
      assert changes == rest + [c];
      RemovedKeepNone(t, rest);
      ChangedByOneMore(rest, c);
    }
  }

  lemma LateRemoves(s: Store, t: Store, ops: seq<Operation>, entries: seq<Entry>)
    requires LandsOn(s, t, ops, entries) && AllRemovals(ops)
    ensures var changes := Planned(s, ops).handed;
      && (forall k :: 0 <= k < |changes| ==> changes[k].content.None?)
      && TakenOut(changes) == Changed(changes) <= t.rows.Keys
  {
    var r := Planned(s, ops);
    DraftedRemovals(s, ops);
    LandedIsWritten(t, r.handed, entries);
    WrittenOnBoth(s, t, r.handed);
    assert RowsKept(s) && RowsKept(t);
    hide Planned, Land, WriteAll, Inv, AllLand, SeversAny, RowsKept, FaultlessRemoval, AllBare, View, StoreView, Rev;
    forall i | i in Changed(r.handed)
      ensures i in t.rows
    {
      HeldIsRevised(s, i);
      HeldIsRevised(t, i);
    }
    TakenOutAll(r.handed);
  }

  lemma TakenOutAll(changes: seq<Change>)
    requires forall k :: 0 <= k < |changes| ==> changes[k].content.None?
    ensures TakenOut(changes) == Changed(changes)
  {
  }

  lemma LateIsCleared(s: Store, t: Store, ops: seq<Operation>, entries: seq<Entry>)
    requires LandsOn(s, t, ops, entries) && AllRemovals(ops)
    ensures var (x, removed) := (After(s, t, ops, entries), Changed(Planned(s, ops).handed));
      && StoreView(x) == Cleared(t, removed) && RowsKept(x) && NoTargetGone(t, removed)
      && (forall i :: i in x.rows <==> i in t.rows && i !in removed)
      && (forall i :: i in x.rows ==> x.rows[i] == t.rows[i])
  {
    var changes, x := Planned(s, ops).handed, After(s, t, ops, entries);
    LateRemoves(s, t, ops, entries);
    LandedIsWritten(t, changes, entries);
    assert RowsKept(t);
    RemovalsTargetNone(t, changes, entries);
    hide Planned, Land, Inv, AllLand, SeversAny, RowsKept, NoTargetGone;
    RowsAfterRemovals(t, changes);
    RemovedKeepNone(t, changes);
    hide WriteAll;
    ClearedByParts(t, x, Changed(changes));
  }

  lemma ClearedByParts(t: Store, x: Store, removed: set<Iri>)
    requires RowsKept(t) && x.landings == t.landings + 1
    requires forall i :: i in x.rows <==> i in t.rows && i !in removed
    requires forall i :: i in x.rows ==> x.rows[i] == t.rows[i]
    requires forall v: Named :: if v.of in removed then v !in x.kept else v in x.kept <==> v in t.kept
    requires forall v: Named :: v in x.kept ==> x.kept[v] == t.kept[v]
    ensures StoreView(x) == Cleared(t, removed) && RowsKept(x)
  {
    assert StoreView(x).held == Cleared(t, removed).held;
    assert StoreView(x).kept == Cleared(t, removed).kept;
    forall i | i in x.rows
      ensures RowKept(i, x.rows[i], x.landings)
    {
      assert RowKept(i, t.rows[i], t.landings);
    }
  }

  lemma ClearedRefers(t: Store, removed: set<Iri>)
    requires Referring(StoreView(t))
    ensures Referring(Cleared(t, removed)) <==> NoneReadGone(t, removed)
  {
    var c, e := StoreView(t), Cleared(t, removed);
    if Referring(e) {
      forall v, n | v in t.kept && v.of !in removed && 0 <= n < |t.kept[v].schema.refers|
        ensures t.kept[v].schema.refers[n].to.of !in removed
      {
        assert v in e.kept && e.kept[v].schema.refers[n].to in e.kept;
      }
    }
    if NoneReadGone(t, removed) {
      forall v, n | v in e.kept && 0 <= n < |e.kept[v].schema.refers|
        ensures e.kept[v].schema.refers[n].to in e.kept
      {
        assert v in c.kept && c.kept[v].schema.refers[n].to in c.kept;
      }
    }
  }

  lemma ClearedLinks(t: Store, removed: set<Iri>, i: Iri, l: Stored)
    requires NoTargetGone(t, removed) && i in t.rows && i !in removed && l in t.rows[i].links && WellLinked(StoreView(t), l)
    ensures WellLinked(Cleared(t, removed), l) <==> forall u :: u in removed && WaitsUnder(t, i, l, u) ==> MayWait(t, removed, l)
  {
    var c, e := StoreView(t), Cleared(t, removed);
    if !l.implicit && l.target !in c.held {
      var u := NearestType(c, l.target).value;
      assert WaitsUnder(t, i, l, u);
      NearestTypeStands(c, l.target, u);
      assert forall b :: TypedAt(e, b) ==> TypedAt(c, b);
      if u !in removed {
        NearestWithFewer(c, e, l.target);
      }
    }
  }

  lemma LateRemovalsLinked(t: Store, x: Store, removed: set<Iri>)
    requires LinkedWell(t) && NoTargetGone(t, removed) && StoreView(x) == Cleared(t, removed)
    requires forall i :: i in x.rows <==> i in t.rows && i !in removed
    requires forall i :: i in x.rows ==> x.rows[i] == t.rows[i]
    ensures LinkedWell(x) <==> WaitingStand(t, removed)
  {
    hide StoreView, Cleared, WellLinked, NoTargetGone;
    if LinkedWell(x) {
      forall i, l, u | i !in removed && u in removed && WaitsUnder(t, i, l, u)
        ensures MayWait(t, removed, l)
      {
        LeftIsLinked(t, i, l);
        LeftIsLinked(x, i, l);
        ClearedLinks(t, removed, i, l);
      }
    }
    if WaitingStand(t, removed) {
      forall i, l | i in x.rows && l in x.rows[i].links
        ensures WellLinked(StoreView(x), l)
      {
        LeftIsLinked(t, i, l);
        ClearedLinks(t, removed, i, l);
      }
    }
  }

  lemma RemovalsAreKeptWhereBorne(s: Store, t: Store, ops: seq<Operation>, entries: seq<Entry>)
    requires LandsOn(s, t, ops, entries) && AllRemovals(ops)
    ensures var removed := TakenOut(Planned(s, ops).handed);
      Inv(After(s, t, ops, entries)) <==> NoneReadGone(t, removed) && WaitingStand(t, removed)
  {
    var x, removed := After(s, t, ops, entries), Changed(Planned(s, ops).handed);
    BothAreKept(s, t, ops, entries);
    LateRemoves(s, t, ops, entries);
    LateIsCleared(s, t, ops, entries);
    assert Settled(StoreView(t)) && Versioned(StoreView(t)) && Referring(StoreView(t)) && LinkedWell(t);
    assert Paced(Cleared(t, removed)) by {
      assert Paced(StoreView(t));
    }
    hide LandsOn, Planned, After, Land, AllRemovals, Settled, Versioned, Referring, LinkedWell, RowsKept, NoTargetGone;
    hide Placed, Paced, StoreView, Cleared, NoneReadGone, WaitingStand;
    ClearedIsVersioned(t, removed);
    ClearedIsPlaced(t, removed);
    ClearedRefers(t, removed);
    LateRemovalsLinked(t, x, removed);
  }

  // ---- exactly when

  lemma NothingTakenOut(t: Store, changes: seq<Change>)
    requires forall k :: 0 <= k < |changes| ==> changes[k].content.Some?
    ensures NoneReadGone(t, TakenOut(changes)) && WaitingStand(t, TakenOut(changes))
  {
    assert TakenOut(changes) == {};
  }

  lemma NothingLeft(t: Store, changes: seq<Change>)
    requires forall k :: 0 <= k < |changes| ==> changes[k].content.None? && changes[k].links == []
    ensures KindsStand(t, changes) && TypesStand(t, changes) && LinksStand(t, changes)
  {
  }

  /** A set drafted on one store and landed on another, whatever happened between, leaves what every store kb reaches
      keeps exactly when the store it lands on bears its changes: each artifact changed is of the kind it was drafted as;
      each kind, and each type referred to, is a type; each link handed that lands on nothing held was drafted to wait
      under what is a type still, or may wait under the type above that; and what is removed is read by no version left,
      and leaves no link waiting where it may not. */
  lemma KeptWhereBorne(s: Store, t: Store, ops: seq<Operation>, entries: seq<Entry>)
    requires LandsOn(s, t, ops, entries)
    ensures Inv(Land(t, Planned(s, ops).handed, entries).store) <==> Bears(t, Planned(s, ops).handed)
  {
    var changes := Planned(s, ops).handed;
    BothAreKept(s, t, ops, entries);
    if AllRemovals(ops) {
      RemovalsAreKeptWhereBorne(s, t, ops, entries);
      LateRemoves(s, t, ops, entries);
      RemovalsHandNone(s, ops);
      NothingLeft(t, changes);
    } else {
      LateRows(s, t, ops, entries);
      NothingTakenOut(t, changes);
      if Inv(After(s, t, ops, entries)) {
        KeptIsBorne(s, t, ops, entries);
      }
      if Bears(t, changes) {
        BorneIsKept(s, t, ops, entries);
      }
    }
  }

  lemma RemovalsHandNone(s: Store, ops: seq<Operation>)
    requires AllRemovals(ops) && Planned(s, ops).Drafted?
    ensures forall k :: 0 <= k < |Planned(s, ops).handed| ==> Planned(s, ops).handed[k].links == []
  {
    var r := Planned(s, ops);
    RemovalsClear(s, ops);
    forall k | 0 <= k < |r.handed|
      ensures r.handed[k].links == []
    {
      HandedAs(s, ops, k);
      assert Bare(r.acts[k], r.handed[k]);
    }
  }
}
