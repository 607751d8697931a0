/** A set drafted against an earlier store, landing: what it was read at stands as it was read, so drafted afresh where
    it lands it comes to the same, and leaves the same store. */
module Serial {
  import opened Iris
  import opened PortValues
  import opened Landing
  import opened Composition
  import opened Links
  import opened Draft
  import opened Drafting
  import opened Invariants
  import opened Applying
  import opened Agreement

  // ---- two stores, one later than the other

  /** Two stores that hold the same at an IRI, and keep the same versions under it. */
  ghost predicate AgreeAt(s: Store, t: Store, i: Iri)
  {
    && (i in s.rows <==> i in t.rows) && (i in s.rows ==> s.rows[i] == t.rows[i])
    && (forall v: Named :: v.of == i ==> (v in s.kept <==> v in t.kept) && (v in s.kept ==> s.kept[v] == t.kept[v]))
  }

  /** An artifact in one life: of one kind, its revision never lower, and the same at the same revision. */
  ghost predicate LivesOn(s: Store, t: Store, i: Iri)
  {
    i in s.rows && i in t.rows ==>
      && s.rows[i].kind == t.rows[i].kind && s.rows[i].revision <= t.rows[i].revision
      && (s.rows[i].revision == t.rows[i].revision ==> AgreeAt(s, t, i))
  }

  /** The IRIs a drafted set read: what it changes, what its changes were read through, their kinds, and the types its
      links' targets sit under. */
  ghost predicate ReadBy(r: Drafted, i: Iri)
    requires r.Drafted?
  {
    exists k :: 0 <= k < |r.handed| && ChangeReads(r.handed[k], i)
  }

  ghost predicate ChangeReads(c: Change, i: Iri)
  {
    || c.artifact == i || (c.content.Some? && c.kind == i) || (exists t :: t in c.through && t.0 == i)
    || (exists n :: 0 <= n < |c.links| && c.links[n].under == Some(i))
  }

  /** What the premise of a late landing comes to: each IRI the set read that is held in both stores is in one life. */
  ghost predicate Unbroken(s: Store, t: Store, r: Drafted)
    requires r.Drafted?
  {
    forall i :: ReadBy(r, i) ==> LivesOn(s, t, i)
  }

  /** Read at one revision in both, an IRI holds the same in both. */
  lemma SameAtOneRevision(s: Store, t: Store, i: Iri)
    requires RowsKept(s) && RowsKept(t) && KeptAreTyped(StoreView(s)) && KeptAreTyped(StoreView(t))
    requires LivesOn(s, t, i) && Rev(s, i) == Rev(t, i)
    ensures AgreeAt(s, t, i)
  {
    assert i in s.rows ==> RowKept(i, s.rows[i], s.landings);
    assert i in t.rows ==> RowKept(i, t.rows[i], t.landings);
    forall v: Named | v.of == i && i !in s.rows
      ensures v !in s.kept && v !in t.kept
    {
      assert v in s.kept ==> TypedAt(StoreView(s), i);
      assert v in t.kept ==> TypedAt(StoreView(t), i);
    }
  }

  /** A set written on two stores found each artifact it changes at one revision in both. */
  lemma {:induction false} WrittenOnBoth(s: Store, t: Store, changes: seq<Change>)
    requires WriteAll(s, changes).Landed? && WriteAll(t, changes).Landed?
    ensures forall i :: i in Changed(changes) ==> Rev(s, i) == Rev(t, i)
  {
    if changes != [] {
      var rest, c := changes[..|changes| - 1], changes[|changes| - 1];
      WrittenOnBoth(s, t, rest);
      WritingLeaves(s, rest);
      WritingLeaves(t, rest);
      assert changes == rest + [c];
      ChangedByOneMore(rest, c);
      if c.artifact !in Changed(rest) {
        assert Rev(WriteAll(s, rest).store, c.artifact) == Rev(s, c.artifact);
        assert Rev(WriteAll(t, rest).store, c.artifact) == Rev(t, c.artifact);
      }
    }
  }

  // ---- the same operations on both

  /** Two drafts the same but for the store each is over. */
  ghost predicate Alike(d: Overlay, e: Overlay)
  {
    d == e.(store := d.store)
  }

  lemma ReadsAlike(d: Overlay, e: Overlay, i: Iri)
    requires Alike(d, e) && AgreeAt(d.store, e.store, i)
    ensures Holds(d, i) == Holds(e, i) && Touched(d, i) == Touched(e, i)
    ensures Holds(d, i) ==> ArtifactAt(d, i) == ArtifactAt(e, i)
    ensures TypedAt(View(d), i) == TypedAt(View(e), i)
    ensures NextNumber(d, i) == NextNumber(e, i)
    ensures forall v: Named :: v.of == i ==> Kept(View(d), v) == Kept(View(e), v)
  {
    ViewReads(d);
    ViewReads(e);
    forall v: Named | v.of == i
      ensures TypeVersion(d, v) == TypeVersion(e, v)
    {
    }
  }

  /** Where an operation reads, the stores agree; and a create's IRI has between it and its type only what they agree
      on, or what the later one does not hold. */
  ghost predicate AgreeFor(s: Store, t: Store, op: Operation, act: Act)
  {
    && AgreeAt(s, t, act.id) && (!op.Remove? ==> AgreeAt(s, t, act.version.of))
    && (op.Create? ==>
         && act.version.of != TYPES
         && forall b :: b in Between(act.id, act.version.of) ==> AgreeAt(s, t, b) || b !in t.rows)
  }

  lemma NearestOnBoth(d: Overlay, e: Overlay, i: Iri, t: Iri)
    requires Alike(d, e) && AgreeAt(d.store, e.store, t)
    requires NearestType(View(d), i) == Some(t)
    requires forall b :: b in Between(i, t) ==>
      AgreeAt(d.store, e.store, b) || (b !in e.store.rows && (b in e.pending ==> !TypedAt(View(e), b)))
    ensures NearestType(View(e), i) == Some(t)
  {
    NearestTypeStands(View(d), i, t);
    NearestTypeStands(View(e), i, t);
    ReadsAlike(d, e, t);
    forall b | b in Between(i, t)
      ensures !TypedAt(View(e), b)
    {
      if AgreeAt(d.store, e.store, b) {
        ReadsAlike(d, e, b);
      } else {
        ViewReads(e);
      }
    }
  }

  lemma CreatesAlike(d: Overlay, e: Overlay, op: Operation)
    requires op.Create? && Alike(d, e) && Created(d, op).Some?
    requires AgreeAt(d.store, e.store, op.name) && AgreeAt(d.store, e.store, op.version.of) && op.version.of != TYPES
    requires NearestType(View(d), op.name) == Some(op.version.of) == NearestType(View(e), op.name)
    ensures Created(e, op).Some?
    ensures Created(e, op).value.1 == Created(d, op).value.1 && Alike(Created(d, op).value.0, Created(e, op).value.0)
  {
    ReadsAlike(d, e, op.name);
    ReadsAlike(d, e, op.version.of);
    hide HeldBy, KeptBy, AgreeAt, NearestType;
  }

  lemma RevisesAlike(d: Overlay, e: Overlay, op: Operation)
    requires op.Revise? && Alike(d, e) && Revised(d, op).Some?
    requires AgreeAt(d.store, e.store, op.id) && AgreeAt(d.store, e.store, Revised(d, op).value.1.version.of)
    ensures Revised(e, op).Some?
    ensures Revised(e, op).value.1 == Revised(d, op).value.1 && Alike(Revised(d, op).value.0, Revised(e, op).value.0)
  {
    hide HeldBy, KeptBy, AgreeAt;
    ReadsAlike(d, e, op.id);
    var current := ArtifactAt(d, op.id);
    assert Revised(d, op).value.1.version.of == current.kind;
    ReadsAlike(d, e, current.kind);
    hide View, Kept;
  }

  lemma RemovesAlike(d: Overlay, e: Overlay, op: Operation)
    requires op.Remove? && Alike(d, e) && Deleted(d, op).Some? && AgreeAt(d.store, e.store, op.id)
    ensures Deleted(e, op).Some?
    ensures Deleted(e, op).value.1 == Deleted(d, op).value.1 && Alike(Deleted(d, op).value.0, Deleted(e, op).value.0)
  {
    ReadsAlike(d, e, op.id);
  }

  /** An operation acts on two drafts alike, where their stores agree, alike. */
  lemma ActsAlike(d: Overlay, e: Overlay, op: Operation)
    requires Alike(d, e) && Acted(d, op).Some? && AgreeFor(d.store, e.store, op, Acted(d, op).value.1)
    requires op.Create? ==> forall b ::
      b in Between(op.name, op.version.of) && !AgreeAt(d.store, e.store, b) ==> b !in e.pending
    ensures Acted(e, op).Some?
    ensures Acted(e, op).value.1 == Acted(d, op).value.1 && Alike(Acted(d, op).value.0, Acted(e, op).value.0)
  {
    match op
    case Create(name, version, _, _, _, _) =>
      assert Acted(d, op).value.1.id == name && Acted(d, op).value.1.version == version;
      hide AgreeAt, HeldBy, KeptBy;
      NearestOnBoth(d, e, name, version.of);
      CreatesAlike(d, e, op);
    case Revise(_, _, _, _) =>
      assert Acted(d, op).value.1.id == op.id;
      hide AgreeAt, HeldBy, KeptBy;
      RevisesAlike(d, e, op);
    case Remove(_, _, _) =>
      hide AgreeAt, HeldBy, KeptBy;
      RemovesAlike(d, e, op);
  }

  /** The set's operations acting on the later store as they did on the earlier. */
  lemma {:induction false} AppliesAlike(s: Store, t: Store, ops: seq<Operation>)
    requires Applied(s, ops).Some?
    requires var acts := Applied(s, ops).value.1;
      forall k :: 0 <= k < |ops| ==> AgreeFor(s, t, ops[k], acts[k])
    ensures Applied(t, ops).Some? && Applied(t, ops).value.1 == Applied(s, ops).value.1
    ensures Alike(Applied(s, ops).value.0, Applied(t, ops).value.0)
    ensures Applied(s, ops).value.0.store == s && Applied(t, ops).value.0.store == t
    ensures forall i :: i in Applied(s, ops).value.0.pending ==> AgreeAt(s, t, i)
  {
    if ops != [] {
      var n := |ops| - 1;
      var d, acts, f, act := LastOperation(s, ops);
      assert (acts + [act])[n] == act && forall k :: 0 <= k < n ==> (acts + [act])[k] == acts[k];
      assert forall k :: 0 <= k < n ==> AgreeFor(s, t, ops[..n][k], acts[k]) by {
        assert forall k :: 0 <= k < n ==> AgreeFor(s, t, ops[k], (acts + [act])[k]);
      }
      assert AgreeFor(s, t, ops[n], act) by {
        assert AgreeFor(s, t, ops[n], (acts + [act])[n]);
      }
      AppliesAlike(s, t, ops[..n]);
      var (e, _) := Applied(t, ops[..n]).value;
      ActingOn(d, ops[n]);
      ActsAlike(d, e, ops[n]);
      hide Acted, AgreeAt;
      ActingOn(e, ops[n]);
    }
  }

  /** What an operation changes of a draft: never its store, and nothing pending but where it acts. */
  lemma ActingOn(d: Overlay, op: Operation)
    requires Acted(d, op).Some?
    ensures var (e, act) := Acted(d, op).value;
      && e.store == d.store && d.pending.Keys <= e.pending.Keys <= d.pending.Keys + {act.id}
      && (op.Create? ==> act.id == op.name && act.version == op.version)
  {
  }

  // ---- what a late landing says of the store it lands on

  /** A set drafted against one store, not one to land only under the lock, landing on another. */
  ghost predicate LandsLate(s: Store, t: Store, ops: seq<Operation>, entries: seq<Entry>)
  {
    && Inv(s) && Inv(t) && OfOneSort(ops) && Planned(s, ops).Drafted? && !Planned(s, ops).locked
    && Unbroken(s, t, Planned(s, ops)) && Land(t, Planned(s, ops).handed, entries).Landed?
  }

  /** What an operation says in the act it comes to. */
  predicate Says(op: Operation, act: Act)
  {
    && act.create == op.Create?
    && (op.Create? ==> act.id == op.name && act.version == op.version && act.revision == 1)
  }

  ghost predicate ActsSay(ops: seq<Operation>, acts: seq<Act>)
  {
    |ops| == |acts| && forall k :: 0 <= k < |ops| ==> Says(ops[k], acts[k])
  }

  lemma {:induction false} AppliedSay(s: Store, ops: seq<Operation>)
    requires Applied(s, ops).Some?
    ensures ActsSay(ops, Applied(s, ops).value.1) && Applied(s, ops).value.0.store == s
  {
    if ops != [] {
      var n := |ops| - 1;
      var d, acts, e, act := LastOperation(s, ops);
      AppliedSay(s, ops[..n]);
      ActSays(d, ops[n]);
      hide Acted, Says;
      var all := acts + [act];
      assert all[n] == act && forall k :: 0 <= k < n ==> all[k] == acts[k];
      assert forall k :: 0 <= k < n ==> Says(ops[..n][k], acts[k]);
    }
  }

  lemma ActSays(d: Overlay, op: Operation)
    requires Acted(d, op).Some?
    ensures Says(op, Acted(d, op).value.1) && Acted(d, op).value.0.store == d.store
  {
  }

  /** What the late landing's own comparisons say. */
  lemma LateComparisons(s: Store, t: Store, ops: seq<Operation>, entries: seq<Entry>)
    requires LandsLate(s, t, ops, entries)
    ensures var r := Planned(s, ops);
      && (forall i :: i in ActedOn(r.acts) ==> AgreeAt(s, t, i))
      && (forall k, i :: 0 <= k < |r.handed| && (i, Rev(s, i)) in r.handed[k].through ==> AgreeAt(s, t, i))
      && (forall k, i :: 0 <= k < |r.handed| && (i, 0) in r.handed[k].through ==> i !in t.rows)
  {
    var r := Planned(s, ops);
    if AllPut(ops) {
      DraftedPuts(s, ops);
      WritingPuts(s, ops, r.handed);
      LastChanges(r.acts, r.handed);
    } else {
      DraftedRemovals(s, ops);
    }
    WrittenOnBoth(s, t, r.handed);
    assert RowsKept(s) && RowsKept(t) && KeptAreTyped(StoreView(s)) && KeptAreTyped(StoreView(t));
    assert Unmoved(t, r.handed);
    assert Unbroken(s, t, r);
    assert AllBare(r.acts, r.handed) && Changed(r.handed) == ActedOn(r.acts);
    hide Planned, Inv, Land, Applied, WriteAll, LivesOn, AgreeAt, RowsKept, KeptAreTyped, Ready, LeavesPending, HandsOver;
    hide OfOneSort, AllPut, ClearsAll, AllBare, Unmoved;
    forall i | i in ActedOn(r.acts)
      ensures AgreeAt(s, t, i)
    {
      var k := LastAt(r.handed, i);
      assert ChangeReads(r.handed[k], i);
      SameAtOneRevision(s, t, i);
    }
    forall k, i | 0 <= k < |r.handed| && (i, Rev(s, i)) in r.handed[k].through
      ensures AgreeAt(s, t, i)
    {
      assert ChangeReads(r.handed[k], i);
      UnmovedAt(t, r.handed, k, (i, Rev(s, i)));
      SameAtOneRevision(s, t, i);
    }
    forall k, i | 0 <= k < |r.handed| && (i, 0) in r.handed[k].through
      ensures i !in t.rows
    {
      UnmovedAt(t, r.handed, k, (i, 0));
      NotHeldAtZero(t, i);
    }
  }

  lemma UnmovedAt(t: Store, changes: seq<Change>, k: nat, read: (Iri, nat))
    requires Unmoved(t, changes) && k < |changes| && read in changes[k].through
    ensures Rev(t, read.0) == read.1
  {
  }

  lemma NotHeldAtZero(t: Store, i: Iri)
    requires RowsKept(t) && Rev(t, i) == 0
    ensures i !in t.rows
  {
    assert i in t.rows ==> RowKept(i, t.rows[i], t.landings);
  }

  /** Whether nothing is held where a set lands at any IRI it was read at revision 0. */
  ghost predicate EmptyLate(t: Store, changes: seq<Change>)
  {
    forall k, i :: 0 <= k < |changes| && (i, 0) in changes[k].through ==> i !in t.rows
  }

  /** What a late landing's drafted set agrees on with the store it lands on. */
  ghost predicate AgreesLate(s: Store, t: Store, r: Drafted)
    requires r.Drafted?
  {
    && (forall i :: i in ActedOn(r.acts) ==> AgreeAt(s, t, i))
    && (forall k, i :: 0 <= k < |r.handed| && (i, Rev(s, i)) in r.handed[k].through ==> AgreeAt(s, t, i))
    && EmptyLate(t, r.handed)
  }

  /** How a change of a set is handed over. */
  lemma HandedAs(s: Store, ops: seq<Operation>, k: nat)
    requires Planned(s, ops).Drafted? && k < |Planned(s, ops).acts|
    ensures var r := Planned(s, ops);
      && Applied(s, ops) == Some((r.draft, r.acts)) && |r.handed| == |r.acts|
      && Stands(r.draft, r.acts, k) && KeptWhole(r.draft, r.acts)
      && (r.acts[k].left.Some? ==> TypedFor(r.draft, r.acts[k]).Some?)
      && r.handed[k] == Guarded(r.draft, HandedOver(r.draft, r.acts, k))
      && (!r.locked ==> !HeldBelow(r.draft, HandedOver(r.draft, r.acts, k)))
      && (!r.locked ==> !RemovesAType(r.acts[k]) && !DefinesAType(r.acts[k]))
  {
    assert Stands(Planned(s, ops).draft, Planned(s, ops).acts, k);
  }

  /** Whether the port compares what stands at an IRI as a set lands: the set changes it, or was read through it at the
      revision it stood at. */
  ghost predicate Compared(s: Store, r: Drafted, i: Iri)
    requires r.Drafted?
  {
    i in ActedOn(r.acts) || exists k :: 0 <= k < |r.handed| && (i, Rev(s, i)) in r.handed[k].through
  }

  lemma ComparedAgrees(s: Store, t: Store, r: Drafted, i: Iri)
    requires r.Drafted? && AgreesLate(s, t, r) && Compared(s, r, i)
    ensures AgreeAt(s, t, i)
  {
    hide AgreeAt;
  }

  /** A type the draft holds and left alone, among those a change is read through, is compared. */
  lemma ReadThroughIsCompared(s: Store, r: Drafted, k: nat, i: Iri)
    requires r.Drafted? && r.draft.store == s && RowsKept(s)
    requires TypedAt(View(r.draft), i) && (forall j :: Touched(r.draft, j) ==> j in ActedOn(r.acts))
    requires k < |r.handed| && |r.acts| == |r.handed|
    requires r.acts[k].left.Some? ==> TypedFor(r.draft, r.acts[k]).Some?
    requires r.handed[k] == Guarded(r.draft, HandedOver(r.draft, r.acts, k)) && r.acts[k].left.Some?
    requires
      || i in ReadByTheVersionMade(r.draft, r.acts[k].left.value)
      || (IsLast(r.acts, k) && i in ReadThrough(
            r.acts[k].left.value.kind, TypedFor(r.draft, r.acts[k]).value.refers, View(r.draft)))
    ensures Compared(s, r, i)
  {
    if !Touched(r.draft, i) {
      ViewReads(r.draft);
      assert Holds(r.draft, i) && i in s.rows && Typed(s.rows[i].content);
      assert RowKept(i, s.rows[i], s.landings);
      assert (i, Rev(s, i)) in HandedOver(r.draft, r.acts, k).through;
      assert (i, Rev(s, i)) in r.handed[k].through;
    }
  }

  lemma {:induction false} ALastAct(acts: seq<Act>, k: nat) returns (j: nat)
    requires k < |acts|
    ensures k <= j < |acts| && acts[j].id == acts[k].id && IsLast(acts, j)
    decreases |acts| - k
  {
    if IsLast(acts, k) {
      j := k;
    } else {
      var next :| k < next < |acts| && acts[next].id == acts[k].id;
      j := ALastAct(acts, next);
    }
  }

  /** The type of what a create or a revision of the set left is compared. */
  lemma KindIsCompared(s: Store, ops: seq<Operation>, k: nat)
    requires Inv(s) && AllPut(ops) && Planned(s, ops).Drafted? && k < |Planned(s, ops).acts|
    ensures Compared(s, Planned(s, ops), Planned(s, ops).acts[k].version.of)
  {
    var r := Planned(s, ops);
    DraftedPuts(s, ops);
    var j := ALastAct(r.acts, k);
    HandedAs(s, ops, j);
    assert RowsKept(s);
    var a := r.draft.pending[r.acts[j].id];
    assert r.acts[j].left == Some(a) && r.acts[k].version.of == a.kind;
    assert HandsOver(r.draft, r.acts[j].id, a, r.handed[LastAt(r.handed, r.acts[j].id)]);
    TypeOfKept(r.draft, a);
    hide Planned, Applied, Inv, Ready, LeavesPending, HandsOver, RowsKept, KeptWhole, AllBare, Stands;
    ReadThroughNames(a.kind, TypedFor(r.draft, r.acts[j]).value.refers, View(r.draft));
    ReadThroughIsCompared(s, r, j, a.kind);
  }

  lemma LateKindAgrees(s: Store, t: Store, ops: seq<Operation>, k: nat)
    requires Inv(s) && AllPut(ops) && Planned(s, ops).Drafted? && AgreesLate(s, t, Planned(s, ops))
    requires k < |Planned(s, ops).acts|
    ensures AgreeAt(s, t, Planned(s, ops).acts[k].version.of)
  {
    hide *;
    KindIsCompared(s, ops, k);
    ComparedAgrees(s, t, Planned(s, ops), Planned(s, ops).acts[k].version.of);
  }

  lemma TypeOfKept(d: Overlay, a: Artifact)
    requires Kept(View(d), Conforming(a)).Some?
    ensures TypedAt(View(d), a.kind)
  {
  }

  /** What a set of creates or revisions is drafted as, in short. */
  ghost predicate PutsInShort(s: Store, r: Drafted)
  {
    && r.Drafted? && r.draft.store == s && |r.acts| == |r.handed|
    && (forall j :: Touched(r.draft, j) ==> j in ActedOn(r.acts))
    && (forall k :: 0 <= k < |r.acts| ==> r.acts[k].left.Some? && r.acts[k].version.of == r.acts[k].left.value.kind)
  }

  lemma DraftedInShort(s: Store, ops: seq<Operation>)
    requires Inv(s) && AllPut(ops) && Planned(s, ops).Drafted?
    ensures PutsInShort(s, Planned(s, ops))
  {
    DraftedPuts(s, ops);
  }

  lemma ReadBehindTheKind(a: Artifact, d: Overlay, i: Iri)
    requires Typed(a) && i != TYPES && i in ReadThrough(TYPES, a.schema.refers, View(d))
    ensures i in ReadByTheVersionMade(d, a)
  {
    var types := ReadThrough(TYPES, a.schema.refers, View(d));
    var m :| 0 <= m < |types| && types[m] == i;
    assert types[1..][m - 1] == i;
  }

  /** The type of every version a type the set left refers to is compared, and the version kept where it is drafted. */
  lemma ReferenceIsCompared(s: Store, ops: seq<Operation>, k: nat, n: nat)
    requires Inv(s) && AllPut(ops) && Planned(s, ops).Drafted? && k < |Planned(s, ops).acts|
    requires var act := Planned(s, ops).acts[k];
      act.left.Some? && Typed(act.left.value) && n < |act.left.value.schema.refers|
    ensures var w := Planned(s, ops).acts[k].left.value.schema.refers[n].to;
      Compared(s, Planned(s, ops), w.of) && Kept(View(Planned(s, ops).draft), w).Some?
  {
    var r := Planned(s, ops);
    DraftedInShort(s, ops);
    HandedAs(s, ops, k);
    var a := r.acts[k].left.value;
    var w := a.schema.refers[n].to;
    assert Kept(View(r.draft), w).Some? by {
      assert IsAType(r.draft, r.acts[k].id, a.schema);
    }
    assert RowsKept(s);
    KindIsCompared(s, ops, k);
    hide Planned, Applied, Inv, RowsKept, KeptWhole, Stands, View;
    ReadThroughNames(TYPES, a.schema.refers, View(r.draft));
    if w.of != TYPES {
      ReadBehindTheKind(a, r.draft, w.of);
      ReadThroughIsCompared(s, r, k, w.of);
    }
  }

  lemma LateReferenceAgrees(s: Store, t: Store, ops: seq<Operation>, k: nat, n: nat)
    requires Inv(s) && AllPut(ops) && Planned(s, ops).Drafted? && AgreesLate(s, t, Planned(s, ops))
    requires k < |Planned(s, ops).acts|
    requires var act := Planned(s, ops).acts[k];
      act.left.Some? && Typed(act.left.value) && n < |act.left.value.schema.refers|
    ensures AgreeAt(s, t, Planned(s, ops).acts[k].left.value.schema.refers[n].to.of)
  {
    hide *;
    ReferenceIsCompared(s, ops, k, n);
    ComparedAgrees(s, t, Planned(s, ops), Planned(s, ops).acts[k].left.value.schema.refers[n].to.of);
  }

  /** Between what a change reads an IRI under and that type, the set changed what stands there, or nothing stands there
      where it lands. */
  lemma LateGap(s: Store, t: Store, ops: seq<Operation>, k: nat, b: Iri)
    requires Inv(s) && Planned(s, ops).Drafted? && !Planned(s, ops).locked && EmptyLate(t, Planned(s, ops).handed)
    requires k < |Planned(s, ops).acts|
    requires var r := Planned(s, ops);
      (r.acts[k].left.Some? ==> TypedFor(r.draft, r.acts[k]).Some?) && Open(HandedOver(r.draft, r.acts, k), b)
    requires forall j :: Touched(Planned(s, ops).draft, j) ==> j in ActedOn(Planned(s, ops).acts)
    ensures b in ActedOn(Planned(s, ops).acts) || b !in t.rows
  {
    var r := Planned(s, ops);
    HandedAs(s, ops, k);
    var plain := HandedOver(r.draft, r.acts, k);
    if !Touched(r.draft, b) {
      assert b in OpenIn(plain);
      assert !Holds(r.draft, b);
      assert (b, 0) in Empty(r.draft, OpenIn(plain));
      assert (b, 0) in r.handed[k].through;
    }
  }

  /** The IRIs between what a create of the set makes and its type are among those its change needs guarded. */
  lemma CreateIsOpen(s: Store, ops: seq<Operation>, k: nat, b: Iri)
    requires Inv(s) && AllPut(ops) && Planned(s, ops).Drafted?
    requires k < |ops| && k < |Planned(s, ops).acts| && ops[k].Create?
    requires var act := Planned(s, ops).acts[k]; act.version.of != TYPES && b in Between(act.id, act.version.of)
    ensures var r := Planned(s, ops);
      (r.acts[k].left.Some? ==> TypedFor(r.draft, r.acts[k]).Some?) && Open(HandedOver(r.draft, r.acts, k), b)
  {
    var r := Planned(s, ops);
    HandedAs(s, ops, k);
    AppliedSay(s, ops);
    DraftedInShort(s, ops);
    assert Says(ops[k], r.acts[k]);
    hide Planned, Applied, Inv, KeptWhole, Stands, View;
    var plain := HandedOver(r.draft, r.acts, k);
    assert plain.read == 0 && plain.kind == r.acts[k].version.of && plain.artifact == r.acts[k].id;
  }

  /** Where a create of the set reads, the store it lands on agrees with the one it was drafted against, or holds
      nothing. */
  lemma LateCreateGap(s: Store, t: Store, ops: seq<Operation>, k: nat, b: Iri)
    requires Inv(s) && AllPut(ops) && Planned(s, ops).Drafted? && !Planned(s, ops).locked
    requires AgreesLate(s, t, Planned(s, ops)) && k < |ops| && k < |Planned(s, ops).acts| && ops[k].Create?
    requires var act := Planned(s, ops).acts[k]; act.version.of != TYPES && b in Between(act.id, act.version.of)
    ensures AgreeAt(s, t, b) || b !in t.rows
  {
    CreateIsOpen(s, ops, k, b);
    DraftedInShort(s, ops);
    hide Planned, Inv, AgreeAt, View, Open, HandedOver;
    LateGap(s, t, ops, k, b);
  }

  /** Where each operation of the set reads, the store it lands on agrees with the one it was drafted against. */
  lemma LateAgreesFor(s: Store, t: Store, ops: seq<Operation>, k: nat)
    requires Inv(s) && OfOneSort(ops) && Planned(s, ops).Drafted? && !Planned(s, ops).locked
    requires AgreesLate(s, t, Planned(s, ops)) && k < |ops| && k < |Planned(s, ops).acts|
    ensures AgreeFor(s, t, ops[k], Planned(s, ops).acts[k])
  {
    var r := Planned(s, ops);
    HandedAs(s, ops, k);
    AppliedSay(s, ops);
    assert Says(ops[k], r.acts[k]);
    assert r.acts[k].id in ActedOn(r.acts);
    assert AgreeAt(s, t, r.acts[k].id);
    if !ops[k].Remove? {
      assert AllPut(ops);
      hide Planned, Applied, Inv, AgreeAt, KeptWhole, Stands, View, AgreesLate;
      LateKindAgrees(s, t, ops, k);
      if ops[k].Create? {
        assert r.acts[k].version.of != TYPES;
        forall b | b in Between(r.acts[k].id, r.acts[k].version.of)
          ensures AgreeAt(s, t, b) || b !in t.rows
        {
          LateCreateGap(s, t, ops, k, b);
        }
      }
    }
  }

  /** Drafted afresh where it lands, a set's operations act as they did. */
  lemma LateApplies(s: Store, t: Store, ops: seq<Operation>, entries: seq<Entry>)
    requires LandsLate(s, t, ops, entries)
    ensures var r := Planned(s, ops);
      && Applied(t, ops).Some? && Applied(t, ops).value.1 == r.acts && Alike(r.draft, Applied(t, ops).value.0)
      && Applied(t, ops).value.0.store == t && AgreesLate(s, t, r)
  {
    LateComparisons(s, t, ops, entries);
    var r := Planned(s, ops);
    assert AgreesLate(s, t, r);
    AppliedSay(s, ops);
    assert Applied(s, ops) == Some((r.draft, r.acts));
    forall k | 0 <= k < |ops|
      ensures AgreeFor(s, t, ops[k], r.acts[k])
    {
      LateAgreesFor(s, t, ops, k);
    }
    AppliesAlike(s, t, ops);
  }

  // ---- drafted afresh, the set stands

  /** What landing late leaves, drafted afresh: the draft there reads as the tables the set was written to. */
  ghost predicate WrittenLate(t: Store, r: Drafted, e: Overlay, u: Store)
    requires r.Drafted?
  {
    && WriteAll(t, r.handed) == Landed(u) && StoreView(u) == View(e) && e.store == t && Alike(r.draft, e)
    && RowsKept(u.(landings := t.landings + 1))
  }

  lemma LateWritten(s: Store, t: Store, ops: seq<Operation>, entries: seq<Entry>)
    requires LandsLate(s, t, ops, entries) && AllPut(ops)
    ensures Applied(t, ops).Some?
    ensures WrittenLate(t, Planned(s, ops), Applied(t, ops).value.0, WriteAll(t, Planned(s, ops).handed).store)
  {
    var r := Planned(s, ops);
    LateApplies(s, t, ops, entries);
    DraftedPuts(s, ops);
    WritingPuts(t, ops, r.handed);
    WritingLeaves(t, r.handed);
    hide Ready, Applied, KeptWhole, LeavesPending, WriteAll, Planned, HandsOver, RowsKept, AgreesLate;
    RowsAfterWriting(t, r.draft, r.handed, WriteAll(t, r.handed).store);
  }

  /** No type stands, where the set lands, between what it reads an IRI under and that type. */
  lemma LateGapUntyped(s: Store, t: Store, ops: seq<Operation>, e: Overlay, k: nat, b: Iri)
    requires Inv(s) && AllPut(ops) && Planned(s, ops).Drafted? && !Planned(s, ops).locked
    requires AgreesLate(s, t, Planned(s, ops)) && Alike(Planned(s, ops).draft, e) && e.store == t
    requires var r := Planned(s, ops);
      && k < |r.acts| && (r.acts[k].left.Some? ==> TypedFor(r.draft, r.acts[k]).Some?)
      && Open(HandedOver(r.draft, r.acts, k), b) && !TypedAt(View(r.draft), b)
    ensures !TypedAt(View(e), b)
  {
    var r := Planned(s, ops);
    DraftedPuts(s, ops);
    assert r.draft.removed == {} && r.draft.pending.Keys == ActedOn(r.acts);
    LateGap(s, t, ops, k, b);
    hide Ready, Applied, KeptWhole, LeavesPending, HandsOver, AgreesLate, AllBare, Planned, View;
    UntypedOnBoth(r.draft, e, b);
  }

  /** The type a link's target sat under, held where it lands, is a type there. */
  lemma LateUnderTyped(s: Store, t: Store, ops: seq<Operation>, e: Overlay, u: Store, k: nat, n: nat)
    requires Inv(s) && Inv(t) && AllPut(ops) && Planned(s, ops).Drafted? && Unbroken(s, t, Planned(s, ops))
    requires WrittenLate(t, Planned(s, ops), e, u)
    requires var r := Planned(s, ops);
      && k < |r.handed| && n < |r.handed[k].links| && r.handed[k].links[n].under.Some?
      && r.handed[k].links[n].under.value in u.rows && TypedAt(View(r.draft), r.handed[k].links[n].under.value)
    ensures TypedAt(View(e), Planned(s, ops).handed[k].links[n].under.value)
  {
    var r := Planned(s, ops);
    var under := r.handed[k].links[n].under.value;
    assert RowsKept(s) && RowsKept(t) && r.draft.store == s by {
      AppliedSay(s, ops);
    }
    UnderLivesOn(s, t, r, k, n);
    WrittenAlike(t, r, e, u);
    hide Planned, View, LivesOn, RowsKept, Inv, Unbroken, WrittenLate;
    NothingTaken(s, ops);
    UnderStaysAType(s, t, r.draft, e, under, u);
  }

  lemma UnderLivesOn(s: Store, t: Store, r: Drafted, k: nat, n: nat)
    requires r.Drafted? && Unbroken(s, t, r) && k < |r.handed| && n < |r.handed[k].links|
    requires r.handed[k].links[n].under.Some?
    ensures LivesOn(s, t, r.handed[k].links[n].under.value)
  {
    hide LivesOn;
    var under := r.handed[k].links[n].under.value;
    assert ChangeReads(r.handed[k], under) && ReadBy(r, under);
  }

  lemma WrittenAlike(t: Store, r: Drafted, e: Overlay, u: Store)
    requires r.Drafted? && WrittenLate(t, r, e, u)
    ensures StoreView(u) == View(e) && e.store == t && Alike(r.draft, e)
  {
    hide View, StoreView, RowsKept;
  }

  lemma NothingTaken(s: Store, ops: seq<Operation>)
    requires Inv(s) && AllPut(ops) && Planned(s, ops).Drafted?
    ensures Planned(s, ops).draft.removed == {}
  {
    DraftedPuts(s, ops);
  }

  /** The IRIs between a link's target and the type it sits under are among those its change needs guarded. */
  lemma LinksAreOpen(s: Store, ops: seq<Operation>, k: nat, n: nat, b: Iri)
    requires Planned(s, ops).Drafted? && k < |Planned(s, ops).acts| && |Planned(s, ops).handed| == |Planned(s, ops).acts|
    requires var r := Planned(s, ops);
      && r.acts[k].left.Some? && n < |r.handed[k].links|
      && var l := r.handed[k].links[n];
        !l.implicit && l.under.Some? && b in Between(l.target, l.under.value)
    ensures var r := Planned(s, ops);
      TypedFor(r.draft, r.acts[k]).Some? && Open(HandedOver(r.draft, r.acts, k), b)
  {
    HandedAs(s, ops, k);
    var r := Planned(s, ops);
    var plain := HandedOver(r.draft, r.acts, k);
    assert plain.links == r.handed[k].links;
  }

  /** A link landing late on an IRI not held waits under the type it was drafted under, still the nearest. */
  lemma LateUnder(s: Store, t: Store, ops: seq<Operation>, e: Overlay, u: Store, k: nat, n: nat)
    requires Inv(s) && Inv(t) && AllPut(ops) && Planned(s, ops).Drafted? && !Planned(s, ops).locked
    requires Unbroken(s, t, Planned(s, ops)) && AgreesLate(s, t, Planned(s, ops))
    requires WrittenLate(t, Planned(s, ops), e, u)
    requires var r := Planned(s, ops);
      && k < |r.acts| && k < |r.handed| && n < |r.handed[k].links|
      && var l := r.handed[k].links[n];
        !l.implicit && l.under.Some? && l.under.value in u.rows && l.under == NearestType(View(r.draft), l.target)
    ensures var l := Planned(s, ops).handed[k].links[n];
      NearestType(View(e), l.target) == l.under
  {
    var r := Planned(s, ops);
    var l := r.handed[k].links[n];
    var under := l.under.value;
    DraftedInShort(s, ops);
    assert Alike(r.draft, e) && e.store == t && |r.acts| == |r.handed| && r.acts[k].left.Some?;
    hide *;
    NearestTypeStands(View(r.draft), l.target, under);
    NearestTypeStands(View(e), l.target, under);
    LateUnderTyped(s, t, ops, e, u, k, n);
    forall b | b in Between(l.target, under)
      ensures !TypedAt(View(e), b)
    {
      LinksAreOpen(s, ops, k, n, b);
      LateGapUntyped(s, t, ops, e, k, b);
    }
  }

  lemma UntypedOnBoth(d: Overlay, e: Overlay, b: Iri)
    requires Alike(d, e) && d.removed == {} && !TypedAt(View(d), b)
    requires b in d.pending || b !in e.store.rows
    ensures !TypedAt(View(e), b)
  {
    ViewReads(d);
    ViewReads(e);
    hide HeldBy, KeptBy;
  }

  lemma UnderStaysAType(s: Store, t: Store, d: Overlay, e: Overlay, under: Iri, u: Store)
    requires Alike(d, e) && d.store == s && e.store == t && d.removed == {} && LivesOn(s, t, under)
    requires RowsKept(s) && RowsKept(t) && TypedAt(View(d), under) && StoreView(u) == View(e) && under in u.rows
    ensures TypedAt(View(e), under)
  {
    ViewReads(d);
    ViewReads(e);
    assert under in StoreView(u).held;
    if under !in d.pending {
      assert RowKept(under, s.rows[under], s.landings) && RowKept(under, t.rows[under], t.landings);
    }
  }

  /** What is handed of one link, and what the draft accepted of it. */
  ghost predicate HandedAlike(l: Link, told: Option<Told>, own: seq<Value>, n: nat, declares: map<string, Ref>)
    requires n < |own| && own[n].field in declares
  {
    && l.target == own[n].target && l.part == own[n].part && l.kinds == declares[own[n].field].targets && !l.imported
    && (own[n].part == "" || (declares[own[n].field].parts && told == ToldAt(ValueKeys(own), n)))
  }

  lemma AcceptedIsHandedAlike(a: Artifact, schema: Schema, c: Corpus, waited: set<Told>, n: nat)
    requires var own := Carried(a.body.values, schema.declares);
      n < |own| && Accepted(c, own, n, schema.declares, waited)
    ensures var links := HandedLinks(a, schema, c, waited);
      && |LinkKeys(links)| == |links|
      && HandedAlike(links[n + 1], ToldAt(LinkKeys(links), n + 1), Carried(a.body.values, schema.declares), n, schema.declares)
  {
    var own := Carried(a.body.values, schema.declares);
    assert HandedLinks(a, schema, c, waited)[n + 1] == HandedLink(own, n, schema.declares, c, waited);
    hide Carried, HandedLinks, NearestType;
    if own[n].part != "" {
      ToldBehindTheImplicit(a, schema, c, waited, n);
    }
  }

  lemma OneHanded(d: Overlay, i: Iri, a: Artifact, c: Change, n: nat)
    requires HandsOver(d, i, a, c) && 0 < n < |c.links|
    ensures Kept(View(d), Conforming(a)).Some? && |LinkKeys(c.links)| == |c.links|
    ensures var declares := Kept(View(d), Conforming(a)).value.schema.declares;
      var own := Carried(a.body.values, declares);
      n - 1 < |own| && HandedAlike(c.links[n], ToldAt(LinkKeys(c.links), n), own, n - 1, declares)
  {
    var schema := Kept(View(d), Conforming(a)).value.schema;
    hide View, HeldWaiting, Carried, HandedLinks, Accepted, HandedAlike;
    AcceptedIsHandedAlike(a, schema, View(d), HeldWaiting(d.store, i), n - 1);
  }

  /** A link the port lets land is one a draft of the same corpus accepts. */
  lemma LandingIsAccepted(
    u: Store, c: Corpus, l: Link, own: seq<Value>, n: nat, declares: map<string, Ref>, told: Option<Told>, waited: set<Told>)
    requires StoreView(u) == c && n < |own| && own[n].field in declares
    requires forall j :: j in u.rows ==>
      u.rows[j].kind == u.rows[j].content.kind && u.rows[j].parts == u.rows[j].content.body.parts
    requires HandedAlike(l, told, own, n, declares)
    requires Lands(u, l, told, waited) && (l.target !in u.rows ==> NearestType(c, l.target) == l.under)
    ensures Accepted(c, own, n, declares, waited)
  {
    assert l.target in u.rows <==> l.target in c.held;
    assert l.target in u.rows ==> u.rows[l.target].content == c.held[l.target];
    hide NearestType, StoreView;
  }

  lemma LateLinkAccepted(d: Overlay, e: Overlay, u: Store, i: Iri, a: Artifact, c: Change, n: nat)
    requires StoreView(u) == View(e) && HandsOver(d, i, a, c) && 0 < n < |c.links|
    requires forall j :: j in u.rows ==>
      u.rows[j].kind == u.rows[j].content.kind && u.rows[j].parts == u.rows[j].content.body.parts
    requires Lands(u, c.links[n], ToldAt(LinkKeys(c.links), n), HeldWaiting(e.store, i))
    requires c.links[n].target !in u.rows ==> NearestType(View(e), c.links[n].target) == c.links[n].under
    ensures var schema := Kept(View(d), Conforming(a)).value.schema;
      Accepted(View(e), Carried(a.body.values, schema.declares), n - 1, schema.declares, HeldWaiting(e.store, i))
  {
    hide *;
    OneHanded(d, i, a, c, n);
    var declares := Kept(View(d), Conforming(a)).value.schema.declares;
    LandingIsAccepted(u, View(e), c.links[n], Carried(a.body.values, declares), n - 1, declares,
                      ToldAt(LinkKeys(c.links), n), HeldWaiting(e.store, i));
  }

  lemma SameLast(acts: seq<Act>, changes: seq<Change>, k: nat)
    requires AllBare(acts, changes) && k < |acts| && IsLast(acts, k)
    ensures acts[k].id in Changed(changes) && LastAt(changes, acts[k].id) == k
  {
    assert Bare(acts[k], changes[k]);
    LastChanges(acts, changes);
    var j := LastAt(changes, acts[k].id);
    assert Bare(acts[j], changes[j]);
  }

  /** An operation of a set of creates or revisions, and what it left. */
  lemma AnActInShort(s: Store, ops: seq<Operation>, k: nat)
    requires Inv(s) && AllPut(ops) && Planned(s, ops).Drafted? && k < |Planned(s, ops).acts|
    ensures var r := Planned(s, ops);
      && r.draft.store == s && |r.acts| == |r.handed|
      && r.acts[k].left.Some? && r.acts[k].version.of == r.acts[k].left.value.kind && Holds(r.draft, r.acts[k].id)
      && (IsLast(r.acts, k) ==> HandsOver(r.draft, r.acts[k].id, r.acts[k].left.value, r.handed[k]))
  {
    var r := Planned(s, ops);
    DraftedPuts(s, ops);
    assert r.acts[k].id in ActedOn(r.acts);
    assert r.draft.removed == {} && r.acts[k].id in r.draft.pending;
    if IsLast(r.acts, k) {
      SameLast(r.acts, r.handed, k);
    }
  }

  /** What a change of the set left is of the same version, drafted afresh. */
  lemma LateTyped(s: Store, t: Store, ops: seq<Operation>, e: Overlay, k: nat)
    requires Inv(s) && AllPut(ops) && Planned(s, ops).Drafted? && AgreesLate(s, t, Planned(s, ops))
    requires Alike(Planned(s, ops).draft, e) && e.store == t && k < |Planned(s, ops).acts|
    ensures var r := Planned(s, ops);
      && r.acts[k].left.Some? && TypedFor(e, r.acts[k]) == TypedFor(r.draft, r.acts[k])
      && TypedFor(e, r.acts[k]) == SchemaOf(r.draft, Conforming(r.acts[k].left.value))
  {
    var r := Planned(s, ops);
    AnActInShort(s, ops, k);
    LateKindAgrees(s, t, ops, k);
    assert AgreeAt(s, t, r.acts[k].id) by {
      assert r.acts[k].id in ActedOn(r.acts);
    }
    hide Planned, Inv, AgreesLate, AgreeAt, View, HandsOver;
    ReadsAlike(r.draft, e, r.acts[k].id);
    ReadsAlike(r.draft, e, r.acts[k].left.value.kind);
  }

  lemma LateIsAType(s: Store, t: Store, ops: seq<Operation>, e: Overlay, k: nat)
    requires Inv(s) && AllPut(ops) && Planned(s, ops).Drafted? && AgreesLate(s, t, Planned(s, ops))
    requires Alike(Planned(s, ops).draft, e) && e.store == t && k < |Planned(s, ops).acts|
    requires var act := Planned(s, ops).acts[k]; act.left.Some? && Typed(act.left.value)
    ensures var act := Planned(s, ops).acts[k]; IsAType(e, act.id, act.left.value.schema)
  {
    var r := Planned(s, ops);
    var schema := r.acts[k].left.value.schema;
    HandedAs(s, ops, k);
    DraftedInShort(s, ops);
    assert IsAType(r.draft, r.acts[k].id, schema);
    hide Planned, Applied, KeptWhole, View, AgreesLate, AgreeAt, Stands;
    forall n | 0 <= n < |schema.refers|
      ensures Kept(View(e), schema.refers[n].to).Some?
    {
      LateReferenceAgrees(s, t, ops, k, n);
      ReadsAlike(r.draft, e, schema.refers[n].to.of);
    }
  }

  /** What the last changes left links to, drafted afresh, is accepted. */
  lemma LateLinksAccepted(s: Store, t: Store, ops: seq<Operation>, e: Overlay, u: Store, k: nat)
    requires Inv(s) && Inv(t) && AllPut(ops) && Planned(s, ops).Drafted? && !Planned(s, ops).locked
    requires Unbroken(s, t, Planned(s, ops)) && AgreesLate(s, t, Planned(s, ops))
    requires WrittenLate(t, Planned(s, ops), e, u) && AllLand(t, u, Planned(s, ops).handed)
    requires k < |Planned(s, ops).acts| && IsLast(Planned(s, ops).acts, k)
    ensures var act := Planned(s, ops).acts[k];
      act.left.Some? && TypedFor(e, act).Some? && LinksAccepted(e, act)
  {
    var r := Planned(s, ops);
    var act := r.acts[k];
    AnActInShort(s, ops, k);
    LateTyped(s, t, ops, e, k);
    ALastChangeLands(s, t, ops, u, k);
    hide Planned, Inv, AgreesLate, AgreeAt, View, HandsOver, AllLand, Unbroken, ChangeLands;
    LateLinksOf(s, t, ops, e, u, k, act.left.value);
  }

  lemma ALastChangeLands(s: Store, t: Store, ops: seq<Operation>, u: Store, k: nat)
    requires Inv(s) && AllPut(ops) && Planned(s, ops).Drafted? && AllLand(t, u, Planned(s, ops).handed)
    requires k < |Planned(s, ops).acts| && IsLast(Planned(s, ops).acts, k)
    ensures k < |Planned(s, ops).handed| && ChangeLands(t, u, Planned(s, ops).handed[k])
  {
    var r := Planned(s, ops);
    DraftedPuts(s, ops);
    SameLast(r.acts, r.handed, k);
  }

  lemma LateLinksOf(s: Store, t: Store, ops: seq<Operation>, e: Overlay, u: Store, k: nat, a: Artifact)
    requires Inv(s) && Inv(t) && AllPut(ops) && Planned(s, ops).Drafted? && !Planned(s, ops).locked
    requires Unbroken(s, t, Planned(s, ops)) && AgreesLate(s, t, Planned(s, ops))
    requires WrittenLate(t, Planned(s, ops), e, u) && k < |Planned(s, ops).acts| == |Planned(s, ops).handed|
    requires var r := Planned(s, ops);
      && r.acts[k].left == Some(a) && HandsOver(r.draft, r.acts[k].id, a, r.handed[k])
      && ChangeLands(t, u, r.handed[k])
      && TypedFor(e, r.acts[k]) == TypedFor(r.draft, r.acts[k]) == SchemaOf(r.draft, Conforming(a))
    ensures var act := Planned(s, ops).acts[k];
      act.left.Some? && TypedFor(e, act).Some? && LinksAccepted(e, act)
  {
    hide *;
    var r := Planned(s, ops);
    var act := r.acts[k];
    HandedThroughItsOwn(r.draft, act.id, a, r.handed[k]);
    WrittenOver(t, r, e, u);
    var schema := Kept(View(r.draft), Conforming(a)).value.schema;
    var own := Carried(a.body.values, schema.declares);
    forall n | 0 <= n < |own|
      ensures Accepted(View(e), own, n, schema.declares, HeldWaiting(t, act.id))
    {
      LateLinkOf(s, t, ops, e, u, k, a, n + 1);
    }
    AllAccepted(e, act, schema.declares, own);
  }

  lemma AllAccepted(e: Overlay, act: Act, declares: map<string, Ref>, own: seq<Value>)
    requires act.left.Some? && TypedFor(e, act).Some? && TypedFor(e, act).value.declares == declares
    requires own == Carried(act.left.value.body.values, declares)
    requires forall n :: 0 <= n < |own| ==> Accepted(View(e), own, n, declares, HeldWaiting(e.store, act.id))
    ensures LinksAccepted(e, act)
  {
    hide Accepted;
  }

  lemma HandedThroughItsOwn(d: Overlay, i: Iri, a: Artifact, c: Change)
    requires HandsOver(d, i, a, c)
    ensures Kept(View(d), Conforming(a)).Some?
    ensures SchemaOf(d, Conforming(a)) == Some(Kept(View(d), Conforming(a)).value.schema)
  {
    hide View;
  }

  lemma WrittenOver(t: Store, r: Drafted, e: Overlay, u: Store)
    requires r.Drafted? && WrittenLate(t, r, e, u)
    ensures e.store == t
  {
  }

  lemma LateLinkOf(s: Store, t: Store, ops: seq<Operation>, e: Overlay, u: Store, k: nat, a: Artifact, n: nat)
    requires Inv(s) && Inv(t) && AllPut(ops) && Planned(s, ops).Drafted? && !Planned(s, ops).locked
    requires Unbroken(s, t, Planned(s, ops)) && AgreesLate(s, t, Planned(s, ops))
    requires WrittenLate(t, Planned(s, ops), e, u) && k < |Planned(s, ops).acts| == |Planned(s, ops).handed|
    requires var r := Planned(s, ops);
      && HandsOver(r.draft, r.acts[k].id, a, r.handed[k]) && ChangeLands(t, u, r.handed[k])
      && Kept(View(r.draft), Conforming(a)).Some?
      && 0 < n < 1 + |Carried(a.body.values, Kept(View(r.draft), Conforming(a)).value.schema.declares)|
    ensures var schema := Kept(View(Planned(s, ops).draft), Conforming(a)).value.schema;
      Accepted(View(e), Carried(a.body.values, schema.declares), n - 1, schema.declares,
               HeldWaiting(t, Planned(s, ops).acts[k].id))
  {
    var r := Planned(s, ops);
    var c := r.handed[k];
    var schema := Kept(View(r.draft), Conforming(a)).value.schema;
    var own := Carried(a.body.values, schema.declares);
    assert c.links[n] == HandedLink(own, n - 1, schema.declares, View(r.draft), HeldWaiting(r.draft.store, c.artifact));
    assert forall j :: j in u.rows ==> RowKept(j, u.rows[j], t.landings + 1);
    assert Lands(u, c.links[n], ToldAt(LinkKeys(c.links), n), HeldWaiting(t, c.artifact));
    assert c.artifact == r.acts[k].id && e.store == t && StoreView(u) == View(e);
    if c.links[n].target !in u.rows {
      assert c.links[n].under == NearestType(View(r.draft), c.links[n].target);
      LateUnder(s, t, ops, e, u, k, n);
    }
    hide Planned, Inv, AgreesLate, Unbroken, View;
    LateLinkAccepted(r.draft, e, u, c.artifact, a, c, n);
  }

  lemma LatePutStands(s: Store, t: Store, ops: seq<Operation>, e: Overlay, u: Store, k: nat)
    requires Inv(s) && Inv(t) && AllPut(ops) && Planned(s, ops).Drafted? && !Planned(s, ops).locked
    requires Unbroken(s, t, Planned(s, ops)) && AgreesLate(s, t, Planned(s, ops))
    requires WrittenLate(t, Planned(s, ops), e, u) && AllLand(t, u, Planned(s, ops).handed)
    requires k < |Planned(s, ops).acts|
    ensures Stands(e, Planned(s, ops).acts, k)
  {
    var r := Planned(s, ops);
    HandedAs(s, ops, k);
    LateTyped(s, t, ops, e, k);
    assert Shaped(r.draft, r.acts[k]);
    hide Planned, Inv, AgreesLate, AgreeAt, View, HandsOver, AllLand, Unbroken, LinksAccepted, IsAType;
    if IsLast(r.acts, k) {
      LateLinksAccepted(s, t, ops, e, u, k);
    }
    if Typed(r.acts[k].left.value) {
      LateIsAType(s, t, ops, e, k);
    }
  }

  /** A link left alone into a part dropped, or to an artifact removed, would have been found as the set landed. */
  lemma LateLinkIsTouched(t: Store, changes: seq<Change>, e: Overlay, u: Store, i: Iri, each: Linking)
    requires RowsKept(t) && RowsKept(u.(landings := t.landings + 1)) && WriteAll(t, changes) == Landed(u)
    requires StoreView(u) == View(e) && e.store == t && !SeversAny(t, u, Changed(changes))
    requires forall j :: Touched(e, j) <==> j in Changed(changes)
    requires each in LinksIn(e, i) && i in Changed(changes) && i in t.rows
    requires i in e.removed || each.part in Dropped(e, i)
    ensures Touched(e, each.source)
  {
    var source := each.source;
    if !Touched(e, source) {
      LinksInHolds(e, i);
      HeldUntouched(e, each);
      StoredLinkingsHold(source, t.rows[source].links);
      var l :| l in t.rows[source].links && !l.implicit && each == AsLinking(source, l);
      GoneIsGone(t, e, u, i, each.part);
      hide LinksIn, SeversAny, Dropped;
      LeftAloneSevers(t, changes, u, source, l);
    }
  }

  lemma HeldUntouched(e: Overlay, each: Linking)
    requires !Touched(e, each.source) && Holds(e, each.source) && each in Carries(e, each.source)
    ensures each.source in e.store.rows && each in StoredLinkings(each.source, e.store.rows[each.source].links)
  {
  }

  lemma GoneIsGone(t: Store, e: Overlay, u: Store, i: Iri, part: string)
    requires RowsKept(t) && RowsKept(u.(landings := t.landings + 1)) && StoreView(u) == View(e) && e.store == t
    requires i in t.rows && (i in e.removed || part in Dropped(e, i))
    ensures i in u.rows ==> part in Parts(t, i) - Parts(u, i)
  {
    ViewReads(e);
    assert RowKept(i, t.rows[i], t.landings);
    assert i in u.rows <==> i in StoreView(u).held;
    if i in u.rows {
      assert RowKept(i, u.rows[i], t.landings + 1) && u.rows[i].content == StoreView(u).held[i];
    }
  }

  lemma LeftAloneSevers(t: Store, changes: seq<Change>, u: Store, source: Iri, l: Stored)
    requires RowsKept(t) && WriteAll(t, changes) == Landed(u)
    requires source in t.rows && source !in Changed(changes) && l in t.rows[source].links
    requires l.target in Changed(changes) && l.target in t.rows
    requires l.target in u.rows ==> l.part in Parts(t, l.target) - Parts(u, l.target)
    ensures SeversAny(t, u, Changed(changes))
  {
    WritingLeaves(t, changes);
    assert RowKept(l.target, t.rows[l.target], t.landings);
    assert Left(t, changes, source) == Some(t.rows[source]) && u.rows[source] == t.rows[source];
    assert Severs(t, u, Changed(changes), source, l);
  }

  lemma TouchedKeepsWhole(t: Store, acts: seq<Act>, changes: seq<Change>, e: Overlay, u: Store)
    requires RowsKept(t) && RowsKept(u.(landings := t.landings + 1)) && WriteAll(t, changes) == Landed(u)
    requires StoreView(u) == View(e) && e.store == t && !SeversAny(t, u, Changed(changes))
    requires (forall j :: Touched(e, j) <==> j in Changed(changes)) && ActedOn(acts) == Changed(changes)
    ensures KeptWhole(e, acts)
  {
    hide RowsKept, View, StoreView, SeversAny, Touched, LinksIn, WriteAll;
    forall k, each | 0 <= k < |acts| && each in LinksIn(e, acts[k].id) && each.part in Dropped(e, acts[k].id)
      ensures Touched(e, each.source)
    {
      assert acts[k].id in ActedOn(acts);
      LateLinkIsTouched(t, changes, e, u, acts[k].id, each);
    }
  }

  lemma LatePutKeptWhole(s: Store, t: Store, ops: seq<Operation>, e: Overlay, u: Store)
    requires Inv(s) && Inv(t) && AllPut(ops) && Planned(s, ops).Drafted?
    requires WrittenLate(t, Planned(s, ops), e, u) && !SeversAny(t, u, Changed(Planned(s, ops).handed))
    ensures KeptWhole(e, Planned(s, ops).acts)
  {
    var r := Planned(s, ops);
    DraftedPuts(s, ops);
    assert RowsKept(t) && Changed(r.handed) == r.draft.pending.Keys && r.draft.removed == {};
    LastChanges(r.acts, r.handed);
    assert forall j :: Touched(e, j) <==> j in Changed(r.handed);
    hide Planned, Inv, Ready, LeavesPending, HandsOver, Applied, AllBare, RowsKept, View, SeversAny, Touched, KeptWhole;
    TouchedKeepsWhole(t, r.acts, r.handed, e, u);
  }

  /** A set of creates or revisions that lands late stands as it was drafted, drafted afresh. */
  lemma LatePutsStand(s: Store, t: Store, ops: seq<Operation>, entries: seq<Entry>)
    requires LandsLate(s, t, ops, entries) && AllPut(ops)
    ensures Planned(t, ops).Drafted? && Planned(t, ops).acts == Planned(s, ops).acts
    ensures Alike(Planned(s, ops).draft, Planned(t, ops).draft)
  {
    var r := Planned(s, ops);
    LateApplies(s, t, ops, entries);
    LateWritten(s, t, ops, entries);
    var e, u := Applied(t, ops).value.0, WriteAll(t, r.handed).store;
    assert AllLand(t, u, r.handed) && !SeversAny(t, u, Changed(r.handed)) && Applied(t, ops) == Some((e, r.acts));
    assert Inv(s) && Inv(t) && !r.locked && Unbroken(s, t, r) && Planned(s, ops).Drafted?;
    hide Inv, AgreesLate, WrittenLate, Unbroken, AllLand, SeversAny, Land, Stands, KeptWhole, Applied, LandsLate;
    LatePutKeptWhole(s, t, ops, e, u);
    forall k | 0 <= k < |r.acts|
      ensures Stands(e, r.acts, k)
    {
      LatePutStands(s, t, ops, e, u, k);
    }
  }

  /** A removal that lands late stands as it was drafted, drafted afresh: nothing left links to what it removes. */
  lemma LateRemovalStands(t: Store, r: Drafted, e: Overlay, u: Store, k: nat)
    requires RowsKept(t) && r.Drafted? && Clearing(e) && e.store == t && e.removed == Changed(r.handed) == ActedOn(r.acts)
    requires WriteAll(t, r.handed) == Landed(u) && StoreView(u) == View(e) && !SeversAny(t, u, Changed(r.handed))
    requires k < |r.acts| && TakesFrom(t, r.acts[k]) && !RemovesAType(r.acts[k])
    ensures Stands(e, r.acts, k)
  {
    var i := r.acts[k].id;
    assert i in ActedOn(r.acts);
    LinksInHolds(e, i);
    WritingLeaves(t, r.handed);
    assert RowKept(i, t.rows[i], t.landings) && i !in StoreView(u).held;
    forall each
      ensures each !in LinksIn(e, i)
    {
      if each in LinksIn(e, i) {
        var source := each.source;
        assert Left(t, r.handed, source) == Some(t.rows[source]) && u.rows[source] == t.rows[source];
        StoredLinkingsHold(source, t.rows[source].links);
        assert false;
      }
    }
  }

  /** A set of removals that lands late stands as it was drafted, drafted afresh. */
  lemma LateRemovalsStand(s: Store, t: Store, ops: seq<Operation>, entries: seq<Entry>)
    requires LandsLate(s, t, ops, entries) && AllRemovals(ops)
    ensures Planned(t, ops).Drafted? && Planned(t, ops).acts == Planned(s, ops).acts
    ensures Alike(Planned(s, ops).draft, Planned(t, ops).draft)
  {
    var r := Planned(s, ops);
    LateApplies(s, t, ops, entries);
    var e, u := Applied(t, ops).value.0, WriteAll(t, r.handed).store;
    RemovalsClear(s, ops);
    AppliedClears(t, ops);
    assert SaysItsContent(t) by {
      assert forall i :: i in t.rows ==> RowKept(i, t.rows[i], t.landings);
    }
    WritingRemovals(t, ops, r.handed);
    assert !SeversAny(t, u, Changed(r.handed)) && RowsKept(t);
    forall k | 0 <= k < |r.acts|
      ensures Stands(e, r.acts, k)
    {
      HandedAs(s, ops, k);
      LateRemovalStands(t, r, e, u, k);
    }
  }

  // ---- the same store

  /** Two changes the tables keep the same of. */
  ghost predicate KeptTheSame(c: Change, d: Change)
  {
    && c.artifact == d.artifact && c.content == d.content && c.parts == d.parts && c.read == d.read
    && c.revision == d.revision && c.kind == d.kind && c.number == d.number && StoreAll(c.links) == StoreAll(d.links)
  }

  ghost predicate AllKeptTheSame(some: seq<Change>, others: seq<Change>)
  {
    |some| == |others| && forall k :: 0 <= k < |some| ==> KeptTheSame(some[k], others[k])
  }

  lemma OneWrittenTheSame(t: Store, c: Change, d: Change)
    requires KeptTheSame(c, d)
    ensures Write(t, c) == Write(t, d) && Clashes(t, c) == Clashes(t, d)
  {
  }

  lemma {:induction false} WrittenTheSame(t: Store, some: seq<Change>, others: seq<Change>)
    requires AllKeptTheSame(some, others)
    ensures WriteAll(t, some) == WriteAll(t, others)
  {
    if some != [] {
      var n := |some| - 1;
      WrittenTheSame(t, some[..n], others[..n]);
      assert KeptTheSame(some[n], others[n]);
      var before := WriteAll(t, some[..n]);
      if before.Landed? {
        OneWrittenTheSame(before.store, some[n], others[n]);
      }
      hide Write, Clashes;
    }
  }

  lemma ChangedTheSame(some: seq<Change>, others: seq<Change>)
    requires AllKeptTheSame(some, others)
    ensures Changed(some) == Changed(others)
  {
    forall i
      ensures i in Changed(some) <==> i in Changed(others)
    {
      if i in Changed(some) {
        var k :| 0 <= k < |some| && some[k].artifact == i;
        assert KeptTheSame(some[k], others[k]);
      }
      if i in Changed(others) {
        var k :| 0 <= k < |others| && others[k].artifact == i;
        assert KeptTheSame(some[k], others[k]);
      }
    }
  }

  /** What is handed over of a change says the same of it, but for what the draft read its links' targets under. */
  lemma HandedTheSame(d: Overlay, e: Overlay, acts: seq<Act>, k: nat)
    requires k < |acts| && (acts[k].left.Some? ==> TypedFor(d, acts[k]).Some? && TypedFor(d, acts[k]) == TypedFor(e, acts[k]))
    ensures KeptTheSame(Guarded(d, HandedOver(d, acts, k)), Guarded(e, HandedOver(e, acts, k)))
  {
    if acts[k].left.Some? && IsLast(acts, k) {
      var a, schema := acts[k].left.value, TypedFor(d, acts[k]).value;
      HandedAreStoredAsCarried(a, schema, View(d), HeldWaiting(d.store, acts[k].id));
      HandedAreStoredAsCarried(a, schema, View(e), HeldWaiting(e.store, acts[k].id));
    }
    hide TypedFor, View, HeldWaiting, HandedLinks, AsRead, Empty, ReadThrough, StoreAll, OpenIn, ReadByTheVersionMade;
    hide AsCarried;
  }

  /** Drafted afresh where it lands late, a set stands with the same acts, and its changes are kept the same. */
  lemma LatePlans(s: Store, t: Store, ops: seq<Operation>, entries: seq<Entry>)
    requires LandsLate(s, t, ops, entries)
    ensures Planned(t, ops).Drafted? && Planned(t, ops).acts == Planned(s, ops).acts
    ensures AllKeptTheSame(Planned(s, ops).handed, Planned(t, ops).handed)
  {
    var r := Planned(s, ops);
    LateApplies(s, t, ops, entries);
    if AllPut(ops) {
      LatePutsStand(s, t, ops, entries);
    } else {
      LateRemovalsStand(s, t, ops, entries);
    }
    var e := Planned(t, ops).draft;
    assert e == Applied(t, ops).value.0 && e.store == t && Inv(s);
    hide LandsLate, Inv, AgreesLate, Stands, KeptWhole;
    forall k | 0 <= k < |r.acts|
      ensures KeptTheSame(r.handed[k], Planned(t, ops).handed[k])
    {
      HandedAs(s, ops, k);
      HandedAs(t, ops, k);
      if r.acts[k].left.Some? {
        ActLeftByAPut(s, ops, k);
        LateTyped(s, t, ops, e, k);
      }
      HandedTheSame(r.draft, e, r.acts, k);
    }
  }

  lemma ActLeftByAPut(s: Store, ops: seq<Operation>, k: nat)
    requires OfOneSort(ops) && Planned(s, ops).Drafted? && k < |Planned(s, ops).acts|
    requires Planned(s, ops).acts[k].left.Some?
    ensures AllPut(ops)
  {
    if AllRemovals(ops) {
      AppliedClears(s, ops);
    }
  }

  /** A set drafted against an earlier store that lands leaves exactly the store that landing it afresh, as it stands
      where it lands, would leave. */
  lemma LateIsAfresh(s: Store, t: Store, ops: seq<Operation>, entries: seq<Entry>)
    requires LandsLate(s, t, ops, entries)
    ensures Planned(t, ops).Drafted?
    ensures Land(t, Planned(t, ops).handed, entries) == Land(t, Planned(s, ops).handed, entries)
  {
    LatePlans(s, t, ops, entries);
    WrittenTheSame(t, Planned(s, ops).handed, Planned(t, ops).handed);
    ChangedTheSame(Planned(s, ops).handed, Planned(t, ops).handed);
    DraftedUnderTheLockNeverConflicts(t, ops, entries);
  }

  /** What `Planned` leaves unjudged: whether, in the draft where the set lands, the links of each change acted over
      later in the set still land. */
  ghost predicate ActedOverLinksLand(d: Overlay, acts: seq<Act>)
  {
    forall k :: 0 <= k < |acts| && acts[k].left.Some? && !IsLast(acts, k) && TypedFor(d, acts[k]).Some? ==>
      LinksAccepted(d, acts[k])
  }

  lemma DraftedWhenActedOverLinksLand(t: Store, ops: seq<Operation>)
    requires Planned(t, ops).Drafted?
    ensures DraftSet(t, ops).Drafted? <==> ActedOverLinksLand(Planned(t, ops).draft, Planned(t, ops).acts)
  {
    var (d, acts) := Applied(t, ops).value;
    hide LinksAccepted, Shaped, IsAType, FaultlessRemoval, KeptWhole;
    if DraftSet(t, ops).Drafted? {
      forall k | 0 <= k < |acts| && acts[k].left.Some? && !IsLast(acts, k)
        ensures TypedFor(d, acts[k]).Some? ==> LinksAccepted(d, acts[k])
      {
        assert Faultless(d, acts[k]);
      }
    }
    if ActedOverLinksLand(d, acts) {
      forall k | 0 <= k < |acts|
        ensures Faultless(d, acts[k])
      {
        assert Stands(d, acts, k);
        if acts[k].left.Some? {
          assert Shaped(d, acts[k]);
        }
      }
    }
  }

  /** Whether a set acts on each artifact once. */
  predicate EachOnce(acts: seq<Act>)
  {
    forall j, k :: 0 <= j < k < |acts| ==> acts[j].id != acts[k].id
  }

  // ---- told from the set alone

  /** Whether one link of a list is told as one of another is, and may land on the same. */
  predicate Restated(own: seq<Value>, n: nat, declares: map<string, Ref>, last: seq<Value>, declared: map<string, Ref>)
    requires n < |own| && own[n].field in declares
  {
    exists m :: 0 <= m < |last| && last[m].field in declared && declared[last[m].field] == declares[own[n].field]
      && ToldAt(ValueKeys(last), m) == ToldAt(ValueKeys(own), n)
  }

  /** Whether a link of a change acted over is into what the set changes, or is carried as often by the last change to the
      artifact, in a field that allows the same. */
  ghost predicate CarriedOn(d: Overlay, acts: seq<Act>, k: nat, n: nat)
    requires k < |acts| && acts[k].left.Some? && TypedFor(d, acts[k]).Some?
    requires n < |Carried(acts[k].left.value.body.values, TypedFor(d, acts[k]).value.declares)|
  {
    var declares := TypedFor(d, acts[k]).value.declares;
    var own := Carried(acts[k].left.value.body.values, declares);
    || own[n].target in ActedOn(acts)
    || exists j :: RestatedBy(d, acts, k, j, own, n, declares)
  }

  ghost predicate RestatedBy(
    d: Overlay, acts: seq<Act>, k: nat, j: int, own: seq<Value>, n: nat, declares: map<string, Ref>)
    requires k < |acts| && n < |own| && own[n].field in declares
  {
    && 0 <= j < |acts| && IsLast(acts, j) && acts[j].id == acts[k].id && acts[j].left.Some? && TypedFor(d, acts[j]).Some?
    && var declared := TypedFor(d, acts[j]).value.declares;
      Restated(own, n, declares, Carried(acts[j].left.value.body.values, declared), declared)
  }

  ghost predicate AllCarriedOn(d: Overlay, acts: seq<Act>)
  {
    forall k, n ::
      0 <= k < |acts| && acts[k].left.Some? && !IsLast(acts, k) && TypedFor(d, acts[k]).Some?
      && 0 <= n < |Carried(acts[k].left.value.body.values, TypedFor(d, acts[k]).value.declares)| ==>
        CarriedOn(d, acts, k, n)
  }

  /** A link told as an accepted one is, and allowed the same, is accepted. */
  lemma RestatedIsAccepted(
    c: Corpus, own: seq<Value>, n: nat, declares: map<string, Ref>, last: seq<Value>, m: nat, declared: map<string, Ref>,
    waited: set<Told>)
    requires n < |own| && own[n].field in declares && m < |last| && last[m].field in declared
    requires declared[last[m].field] == declares[own[n].field]
    requires ToldAt(ValueKeys(last), m) == ToldAt(ValueKeys(own), n)
    requires Accepted(c, last, m, declared, waited)
    ensures Accepted(c, own, n, declares, waited)
  {
    assert ValueKeys(last)[m] == ValueKeys(own)[n];
    hide NearestType;
  }

  /** How often a key waits depends on its own target alone. */
  lemma {:induction false} WaitsAsOften(s: Store, t: Store, links: seq<Stored>, key: Key)
    requires Waits(s, key.target, key.part) == Waits(t, key.target, key.part)
    ensures multiset(WaitingKeys(s, links))[key] == multiset(WaitingKeys(t, links))[key]
  {
    if links != [] {
      WaitsAsOften(s, t, links[..|links| - 1], key);
    }
  }

  lemma WaitsInBoth(s: Store, t: Store, i: Iri, told: Told)
    requires Landing.Links(s, i) == Landing.Links(t, i)
    requires Waits(s, told.key.target, told.key.part) == Waits(t, told.key.target, told.key.part)
    ensures told in HeldWaiting(s, i) <==> told in HeldWaiting(t, i)
  {
    ToldByCounting(WaitingKeys(s, Landing.Links(s, i)));
    ToldByCounting(WaitingKeys(t, Landing.Links(t, i)));
    WaitsAsOften(s, t, Landing.Links(s, i), told.key);
  }

  /** A link into what the set changes is accepted alike where the set is drafted and where it lands. */
  lemma AcceptedInBoth(
    d: Overlay, e: Overlay, i: Iri, own: seq<Value>, n: nat, declares: map<string, Ref>)
    requires Alike(d, e) && d.removed == {} && n < |own| && own[n].field in declares && own[n].target in d.pending
    requires AgreeAt(d.store, e.store, i) && AgreeAt(d.store, e.store, own[n].target)
    requires Accepted(View(d), own, n, declares, HeldWaiting(d.store, i))
    ensures Accepted(View(e), own, n, declares, HeldWaiting(e.store, i))
  {
    var target := own[n].target;
    ReadsAlike(d, e, target);
    ViewReads(d);
    ViewReads(e);
    assert Holds(d, target) && View(d).held[target] == View(e).held[target];
    var told := ToldAt(ValueKeys(own), n).value;
    assert told.key.target == target && told.key.part == own[n].part;
    hide View, HeldWaiting, NearestType;
    WaitsInBoth(d.store, e.store, i, told);
  }

  lemma CarriedOnIsAccepted(d: Overlay, e: Overlay, acts: seq<Act>, k: nat, n: nat)
    requires k < |acts| && acts[k].left.Some? && TypedFor(d, acts[k]).Some? && LinksAccepted(d, acts[k])
    requires n < |Carried(acts[k].left.value.body.values, TypedFor(d, acts[k]).value.declares)|
    requires Alike(d, e) && d.removed == {} && ActedOn(acts) == d.pending.Keys
    requires forall i :: i in ActedOn(acts) ==> AgreeAt(d.store, e.store, i)
    requires forall j :: 0 <= j < |acts| && acts[j].left.Some? ==> TypedFor(e, acts[j]) == TypedFor(d, acts[j])
    requires forall j :: 0 <= j < |acts| && IsLast(acts, j) && acts[j].left.Some? && TypedFor(e, acts[j]).Some? ==>
      LinksAccepted(e, acts[j])
    requires CarriedOn(d, acts, k, n)
    ensures var declares := TypedFor(d, acts[k]).value.declares;
      Accepted(View(e), Carried(acts[k].left.value.body.values, declares), n, declares, HeldWaiting(e.store, acts[k].id))
  {
    var declares := TypedFor(d, acts[k]).value.declares;
    var own := Carried(acts[k].left.value.body.values, declares);
    assert acts[k].id in ActedOn(acts);
    assert Accepted(View(d), own, n, declares, HeldWaiting(d.store, acts[k].id));
    hide TypedFor, View, HeldWaiting, Accepted, Carried;
    if own[n].target in ActedOn(acts) {
      AcceptedInBoth(d, e, acts[k].id, own, n, declares);
    } else {
      var j :| RestatedBy(d, acts, k, j, own, n, declares);
      var declared := TypedFor(d, acts[j]).value.declares;
      var last := Carried(acts[j].left.value.body.values, declared);
      var m :| 0 <= m < |last| && last[m].field in declared && declared[last[m].field] == declares[own[n].field]
        && ToldAt(ValueKeys(last), m) == ToldAt(ValueKeys(own), n);
      assert Accepted(View(e), last, m, declared, HeldWaiting(e.store, acts[j].id));
      RestatedIsAccepted(View(e), own, n, declares, last, m, declared, HeldWaiting(e.store, acts[k].id));
    }
  }

  /** Whether each link of a change acted over that is not carried on is accepted in another draft of the set. */
  ghost predicate UncarriedLand(d: Overlay, e: Overlay, acts: seq<Act>)
  {
    forall k, n ::
      0 <= k < |acts| && acts[k].left.Some? && !IsLast(acts, k) && TypedFor(d, acts[k]).Some?
      && 0 <= n < |Carried(acts[k].left.value.body.values, TypedFor(d, acts[k]).value.declares)|
      && !CarriedOn(d, acts, k, n) ==>
        Accepted(View(e), Carried(acts[k].left.value.body.values, TypedFor(d, acts[k]).value.declares), n,
                 TypedFor(d, acts[k]).value.declares, HeldWaiting(e.store, acts[k].id))
  }

  /** What two drafts of one set, over stores that agree where it acts, are to each other. */
  ghost predicate DraftedOnBoth(d: Overlay, e: Overlay, acts: seq<Act>)
  {
    && Alike(d, e) && d.removed == {} && ActedOn(acts) == d.pending.Keys
    && (forall i :: i in ActedOn(acts) ==> AgreeAt(d.store, e.store, i))
    && (forall j :: 0 <= j < |acts| && acts[j].left.Some? ==>
         TypedFor(e, acts[j]) == TypedFor(d, acts[j]) && TypedFor(d, acts[j]).Some? && LinksAccepted(d, acts[j]))
    && (forall j :: 0 <= j < |acts| && IsLast(acts, j) && acts[j].left.Some? && TypedFor(e, acts[j]).Some? ==>
         LinksAccepted(e, acts[j]))
  }

  lemma OnlyUncarriedMatter(d: Overlay, e: Overlay, acts: seq<Act>)
    requires DraftedOnBoth(d, e, acts)
    ensures ActedOverLinksLand(e, acts) <==> UncarriedLand(d, e, acts)
  {
    hide TypedFor, View, HeldWaiting, Accepted, Carried, AgreeAt, CarriedOn, IsLast;
    if UncarriedLand(d, e, acts) {
      forall k | 0 <= k < |acts| && acts[k].left.Some? && !IsLast(acts, k) && TypedFor(e, acts[k]).Some?
        ensures LinksAccepted(e, acts[k])
      {
        UncarriedAccepted(d, e, acts, k);
      }
    }
  }

  lemma UncarriedAccepted(d: Overlay, e: Overlay, acts: seq<Act>, k: nat)
    requires DraftedOnBoth(d, e, acts) && UncarriedLand(d, e, acts)
    requires k < |acts| && acts[k].left.Some? && !IsLast(acts, k) && TypedFor(e, acts[k]).Some?
    ensures LinksAccepted(e, acts[k])
  {
    var declares := TypedFor(d, acts[k]).value.declares;
    var own := Carried(acts[k].left.value.body.values, declares);
    hide TypedFor, View, HeldWaiting, Accepted, Carried, AgreeAt, CarriedOn, IsLast, LinksAccepted;
    forall n | 0 <= n < |own|
      ensures Accepted(View(e), own, n, declares, HeldWaiting(e.store, acts[k].id))
    {
      if CarriedOn(d, acts, k, n) {
        CarriedOnIsAccepted(d, e, acts, k, n);
      }
    }
    AllAccepted(e, acts[k], declares, own);
  }

  lemma AllCarriedLeavesNone(d: Overlay, e: Overlay, acts: seq<Act>)
    requires AllCarriedOn(d, acts)
    ensures UncarriedLand(d, e, acts)
  {
    hide TypedFor, View, HeldWaiting, Accepted, Carried, CarriedOn, IsLast;
  }

  lemma EachOnceCarriesAllOn(d: Overlay, acts: seq<Act>)
    requires EachOnce(acts)
    ensures AllCarriedOn(d, acts)
  {
    hide TypedFor, Carried, CarriedOn;
    forall k | 0 <= k < |acts|
      ensures IsLast(acts, k)
    {
    }
  }

  lemma LateIsDraftedOnBoth(s: Store, t: Store, ops: seq<Operation>, entries: seq<Entry>)
    requires DraftSet(s, ops).Drafted? && LandsLate(s, t, ops, entries) && AllPut(ops)
    ensures Planned(t, ops).Drafted? && DraftedOnBoth(DraftSet(s, ops).draft, Planned(t, ops).draft, DraftSet(s, ops).acts)
  {
    var d, acts := DraftSet(s, ops).draft, DraftSet(s, ops).acts;
    DraftedIsPlanned(s, ops);
    LateApplies(s, t, ops, entries);
    LatePutsStand(s, t, ops, entries);
    DraftedPutsInAll(s, ops);
    var e := Planned(t, ops).draft;
    hide Planned, LandsLate, Inv, AgreesLate, AgreeAt, Applied;
    forall j | 0 <= j < |acts| && acts[j].left.Some?
      ensures TypedFor(e, acts[j]) == TypedFor(d, acts[j]) && TypedFor(d, acts[j]).Some? && LinksAccepted(d, acts[j])
    {
      BothTypeIt(s, t, ops, entries, j);
    }
    forall j | 0 <= j < |acts| && IsLast(acts, j) && acts[j].left.Some? && TypedFor(e, acts[j]).Some?
      ensures LinksAccepted(e, acts[j])
    {
      HandedAs(t, ops, j);
    }
    assert AgreesLate(s, t, Planned(s, ops));
    AgreesWhereActed(s, t, Planned(s, ops));
  }

  lemma AgreesWhereActed(s: Store, t: Store, r: Drafted)
    requires r.Drafted? && AgreesLate(s, t, r)
    ensures forall i :: i in ActedOn(r.acts) ==> AgreeAt(s, t, i)
  {
    hide AgreeAt;
  }

  lemma DraftedPutsInAll(s: Store, ops: seq<Operation>)
    requires Inv(s) && AllPut(ops) && Planned(s, ops).Drafted?
    ensures var r := Planned(s, ops); r.draft.removed == {} && ActedOn(r.acts) == r.draft.pending.Keys && r.draft.store == s
  {
    DraftedPuts(s, ops);
  }

  lemma BothTypeIt(s: Store, t: Store, ops: seq<Operation>, entries: seq<Entry>, j: nat)
    requires DraftSet(s, ops).Drafted? && LandsLate(s, t, ops, entries) && AllPut(ops)
    requires Planned(t, ops).Drafted? && j < |DraftSet(s, ops).acts| && DraftSet(s, ops).acts[j].left.Some?
    ensures var (d, act) := (DraftSet(s, ops).draft, DraftSet(s, ops).acts[j]);
      && TypedFor(Planned(t, ops).draft, act) == TypedFor(d, act) && TypedFor(d, act).Some? && LinksAccepted(d, act)
  {
    DraftedIsPlanned(s, ops);
    LateApplies(s, t, ops, entries);
    assert Faultless(DraftSet(s, ops).draft, DraftSet(s, ops).acts[j]);
    assert Planned(t, ops).draft == Applied(t, ops).value.0;
    hide DraftSet, Planned, AgreesLate, AgreeAt, Applied, LinksAccepted;
    LateTyped(s, t, ops, Planned(t, ops).draft, j);
  }

  /** A set drafted against an earlier store, landing late: drafted afresh at the store it lands on it is accepted when,
      and only when, every link of a change it acts over later that it does not carry on still lands there, and it then
      leaves the same store. A set that carries on every such link, and so one that changes each artifact once, is always
      serial. */
  lemma LateSetsAreSerial(s: Store, t: Store, ops: seq<Operation>, entries: seq<Entry>)
    requires DraftSet(s, ops).Drafted? && LandsLate(s, t, ops, entries)
    ensures Planned(t, ops).Drafted?
    ensures var r := DraftSet(s, ops);
      && (DraftSet(t, ops).Drafted? <==> UncarriedLand(r.draft, Planned(t, ops).draft, r.acts))
      && (EachOnce(r.acts) ==> AllCarriedOn(r.draft, r.acts))
      && (AllCarriedOn(r.draft, r.acts) ==> DraftSet(t, ops).Drafted?)
    ensures DraftSet(t, ops).Drafted? ==>
      Land(t, DraftSet(t, ops).handed, entries) == Land(t, DraftSet(s, ops).handed, entries)
  {
    var r := DraftSet(s, ops);
    DraftedIsPlanned(s, ops);
    LateIsAfresh(s, t, ops, entries);
    LatePlans(s, t, ops, entries);
    DraftedWhenActedOverLinksLand(t, ops);
    hide DraftSet, Planned, Land, ActedOverLinksLand, UncarriedLand, AllCarriedOn, EachOnce;
    if AllPut(ops) {
      LateIsDraftedOnBoth(s, t, ops, entries);
      hide DraftedOnBoth;
      OnlyUncarriedMatter(r.draft, Planned(t, ops).draft, r.acts);
    } else {
      RemovalsLeaveNone(s, ops);
      NothingLeftLands(r.draft, Planned(t, ops).draft, r.acts);
    }
    if EachOnce(r.acts) {
      EachOnceCarriesAllOn(r.draft, r.acts);
    }
    if AllCarriedOn(r.draft, r.acts) {
      AllCarriedLeavesNone(r.draft, Planned(t, ops).draft, r.acts);
    }
    if DraftSet(t, ops).Drafted? {
      DraftedIsPlanned(t, ops);
    }
  }

  lemma RemovalsLeaveNone(s: Store, ops: seq<Operation>)
    requires AllRemovals(ops) && Planned(s, ops).Drafted?
    ensures forall k :: 0 <= k < |Planned(s, ops).acts| ==> Planned(s, ops).acts[k].left.None?
  {
    RemovalsClear(s, ops);
  }

  lemma NothingLeftLands(d: Overlay, e: Overlay, acts: seq<Act>)
    requires forall k :: 0 <= k < |acts| ==> acts[k].left.None?
    ensures ActedOverLinksLand(e, acts) && UncarriedLand(d, e, acts)
  {
  }
}
