/** What each operation does to the draft it acts on, said of the draft as a corpus, and what every draft of a set
    keeps as its operations act. */
module Applying {
  import opened Iris
  import opened PortValues
  import opened Landing
  import opened Composition
  import opened Links
  import opened Draft
  import opened Drafting
  import opened Invariants

  /** The numbers counted for types are those the types put stand at. */
  ghost predicate Counting(d: Overlay)
  {
    && (forall i :: i in d.numbers ==> i in d.pending)
    && (forall i :: i in d.numbers && i !in d.removed && Typed(d.pending[i]) ==> d.numbers[i] == d.pending[i].number)
  }

  /** Links the store holds of artifacts the draft left alone are as well linked in the draft. */
  ghost predicate LeftWellLinked(d: Overlay)
  {
    forall i, l :: i in d.store.rows && !Touched(d, i) && l in d.store.rows[i].links ==> WellLinked(View(d), l)
  }

  /** What an artifact put over one the store holds keeps: its kind. */
  ghost predicate KindsKept(d: Overlay)
  {
    forall i :: i in d.store.rows && i in d.pending ==> d.pending[i].kind == d.store.rows[i].kind
  }

  ghost predicate InFrame(d: Overlay)
  {
    Sound(d) && Counting(d) && d.removed == {} && RowsKept(d.store) && KindsKept(d)
  }

  ghost predicate Settled(c: Corpus)
  {
    Placed(c) && Versioned(c)
  }

  /** What a draft of creates or of revisions keeps as its operations act. */
  ghost predicate Ready(d: Overlay)
  {
    InFrame(d) && Settled(View(d)) && LeftWellLinked(d)
  }

  lemma FreshIsReady(s: Store)
    requires Inv(s)
    ensures Ready(Fresh(s)) && View(Fresh(s)) == StoreView(s)
  {
    FreshView(s);
  }

  // ---- putting an artifact

  /** What is put at an IRI: of its kind for good, under the number after the last when it is a type, conforming to a
      version kept, and, where nothing was held, under its type. */
  ghost predicate MayPut(d: Overlay, i: Iri, a: Artifact)
  {
    && Conforming(a) in KeptBy(d) && TypedAt(View(d), a.kind)
    && (Holds(d, i) ==> a.kind == ArtifactAt(d, i).kind)
    && (Typed(a) ==> a.number == 1 + if Holds(d, i) then ArtifactAt(d, i).number else 0)
    && (!Holds(d, i) && !Typed(a) ==> NearestType(View(d), i) == Some(a.kind))
    && (!Holds(d, i) && Typed(a) ==> !PlaceTaken(d, i))
  }

  function Counted(d: Overlay, i: Iri, a: Artifact): Overlay
  {
    if Typed(a) then Numbered(d, i) else d
  }

  lemma CountingView(d: Overlay, i: Iri)
    ensures View(Numbered(d, i)) == View(d)
    ensures Sound(d) ==> Sound(Numbered(d, i))
  {
    assert HeldBy(Numbered(d, i)) == HeldBy(d);
    ViewReads(d);
    hide HeldBy, KeptBy;
    KeptIs(Numbered(d, i), KeptBy(d));
  }

  /** The view after a put. */
  function PutIn(c: Corpus, i: Iri, a: Artifact): Corpus
  {
    Corpus(c.held[i := a], if Typed(a) then c.kept[Named(i, a.number) := a] else c.kept)
  }

  lemma PutCounted(d: Overlay, i: Iri, a: Artifact)
    requires Sound(d) && Counting(d) && d.removed == {}
    requires Typed(a) || forall v: Named :: v.of == i ==> v !in KeptBy(d)
    requires Typed(a) ==> a.number == NextNumber(d, i)
    ensures var e := Put(Counted(d, i, a), i, a);
      View(e) == PutIn(View(d), i, a) && Sound(e) && Counting(e)
  {
    CountingView(d, i);
    PutView(Counted(d, i, a), i, a);
  }

  /** What is put in a corpus whose versions are kept as they should be. */
  ghost predicate Follows(c: Corpus, i: Iri, a: Artifact)
  {
    && Conforming(a) in c.kept
    && (i in c.held ==> a.kind == c.held[i].kind)
    && (Typed(a) ==> a.number == 1 + if i in c.held then c.held[i].number else 0)
  }

  lemma PutKeepsTyped(c: Corpus, i: Iri, a: Artifact)
    requires KeptAreTyped(c) && Follows(c, i, a)
    ensures KeptAreTyped(PutIn(c, i, a))
    ensures forall j :: j != i ==> TypedAt(PutIn(c, i, a), j) == TypedAt(c, j)
  {
  }

  lemma PutKeepsNumbers(c: Corpus, i: Iri, a: Artifact)
    requires KeptAreTyped(c) && NumbersRun(c) && Follows(c, i, a)
    ensures NumbersRun(PutIn(c, i, a))
  {
    var e := PutIn(c, i, a);
    forall v: Named | TypedAt(e, v.of)
      ensures v in e.kept <==> 1 <= v.number <= e.held[v.of].number
    {
      if v.of == i {
        assert i in c.held ==> TypedAt(c, i);
        assert i !in c.held ==> v !in c.kept;
        assert v in e.kept <==> v in c.kept || v.number == a.number;
      } else {
        assert TypedAt(c, v.of);
      }
    }
  }

  lemma PutKeepsLast(c: Corpus, i: Iri, a: Artifact)
    requires StandsAtLast(c) && Follows(c, i, a)
    ensures StandsAtLast(PutIn(c, i, a))
  {
    var e := PutIn(c, i, a);
    forall j | TypedAt(e, j)
      ensures Named(j, e.held[j].number) in e.kept && e.kept[Named(j, e.held[j].number)] == e.held[j]
    {
      if j != i {
        assert TypedAt(c, j);
      }
    }
  }

  lemma PutKeepsVersioned(c: Corpus, i: Iri, a: Artifact)
    requires Versioned(c) && Follows(c, i, a)
    ensures Versioned(PutIn(c, i, a))
  {
    PutKeepsTyped(c, i, a);
    PutKeepsNumbers(c, i, a);
    PutKeepsLast(c, i, a);
  }

  /** An IRI with a type not held above it, and none nearer, belongs to what that IRI belongs to. */
  lemma {:induction false} NearestPast(c: Corpus, i: Iri, t: Iri)
    requires NearestWas(c, i, t) && !TypedAt(c, t)
    ensures NearestType(c, i) == NearestType(c, t)
    decreases |i.within|
  {
    var p := Parent(i).value;
    if p != t {
      NearestPast(c, p, t);
    }
  }

  lemma IdsOf(d: Overlay, kind: Iri)
    requires RowsKept(d.store) && KindsKept(d)
    ensures forall i :: i in Ids(d, kind) <==> Holds(d, i) && ArtifactAt(d, i).kind == kind
  {
  }

  /** An artifact under a type defined where nothing it would take belongs to another keeps its type. */
  lemma DefiningKeepsOne(d: Overlay, t: Iri, a: Artifact, i: Iri)
    requires RowsKept(d.store) && KindsKept(d) && Placed(View(d))
    requires !Holds(d, t) && Typed(a) && !PlaceTaken(d, t)
    requires i in View(d).held && !Typed(View(d).held[i])
    ensures NearestType(PutIn(View(d), t, a), i) == Some(View(d).held[i].kind)
  {
    ViewReads(d);
    var c, kind := View(d), View(d).held[i].kind;
    NearestWithOneMore(c, PutIn(c, t, a), t, i);
    assert NearestType(c, i) == Some(kind);
    if NearestWas(c, i, t) {
      NearestPast(c, i, t);
      NearestWasStands(c, i, t);
      IdsOf(d, kind);
      assert Belongs(d, t, kind, i);
      assert false;
    }
  }

  /** A link waiting under it keeps waiting under its type, and one waiting at its own IRI lands. */
  lemma DefiningKeepsLink(d: Overlay, t: Iri, a: Artifact, source: Iri, l: Stored)
    requires !Holds(d, t) && Typed(a) && !PlaceTaken(d, t) && d.removed == {}
    requires source in d.store.rows && !Touched(d, source) && l in d.store.rows[source].links
    requires WellLinked(View(d), l)
    ensures WellLinked(PutIn(View(d), t, a), l)
  {
    ViewReads(d);
    var c := View(d);
    if !l.implicit && l.target !in c.held {
      var each := AsLinking(source, l);
      StoredLinkingsHold(source, d.store.rows[source].links);
      assert WaitingIn(d, each);
      var kind := NearestType(c, l.target).value;
      NearestWithOneMore(c, PutIn(c, t, a), t, l.target);
      if l.target == t {
        if kind != TYPES {
          assert Belongs(d, t, kind, t);
          assert false;
        }
      } else if NearestWas(c, l.target, t) {
        NearestPast(c, l.target, t);
        assert Belongs(d, t, kind, l.target);
        assert false;
      }
    }
  }

  /** Types at the same IRIs leave every artifact under its type, a new one under the nearest. */
  lemma PuttingKeepsPlaced(c: Corpus, i: Iri, a: Artifact)
    requires Placed(c) && (i in c.held ==> a.kind == c.held[i].kind)
    requires i !in c.held ==> !Typed(a) && NearestType(c, i) == Some(a.kind)
    ensures Placed(PutIn(c, i, a))
  {
    var f := PutIn(c, i, a);
    assert forall j :: TypedAt(c, j) == TypedAt(f, j);
    forall j | j in f.held && !Typed(f.held[j])
      ensures NearestType(f, j) == Some(f.held[j].kind)
    {
      NearestAlike(c, f, j);
    }
  }

  lemma PutKeepsPlaced(d: Overlay, i: Iri, a: Artifact)
    requires RowsKept(d.store) && KindsKept(d) && Placed(View(d)) && MayPut(d, i, a)
    ensures Placed(PutIn(View(d), i, a))
  {
    ViewReads(d);
    var c, f := View(d), PutIn(View(d), i, a);
    if Holds(d, i) || !Typed(a) {
      hide HeldBy, KeptBy, PlaceTaken;
      PuttingKeepsPlaced(c, i, a);
    } else {
      hide RowsKept, HeldBy, KeptBy, PlaceTaken;
      forall j | j in f.held && !Typed(f.held[j])
        ensures NearestType(f, j) == Some(f.held[j].kind)
      {
        DefiningKeepsOne(d, i, a, j);
      }
    }
  }

  lemma PutKeepsLink(d: Overlay, i: Iri, a: Artifact, source: Iri, l: Stored)
    requires d.removed == {} && MayPut(d, i, a)
    requires source in d.store.rows && !Touched(d, source) && l in d.store.rows[source].links
    requires WellLinked(View(d), l)
    ensures WellLinked(PutIn(View(d), i, a), l)
  {
    ViewReads(d);
    if !Holds(d, i) && Typed(a) {
      DefiningKeepsLink(d, i, a, source, l);
    } else {
      NearestAlike(View(d), PutIn(View(d), i, a), l.target);
    }
  }

  lemma PutKeepsSettled(d: Overlay, i: Iri, a: Artifact)
    requires InFrame(d) && Settled(View(d)) && MayPut(d, i, a)
    ensures Settled(PutIn(View(d), i, a))
  {
    MayBeCounted(d, i, a);
    PutKeepsVersioned(View(d), i, a);
    PutKeepsPlaced(d, i, a);
  }

  lemma PutKeepsFrame(d: Overlay, i: Iri, a: Artifact)
    requires InFrame(d) && Settled(View(d)) && MayPut(d, i, a)
    ensures var e := Put(Counted(d, i, a), i, a);
      InFrame(e) && View(e) == PutIn(View(d), i, a)
  {
    MayBeCounted(d, i, a);
    PutCounted(d, i, a);
    PutKeepsKinds(d, i, a, Put(Counted(d, i, a), i, a));
  }

  /** What is put as it may be leaves the draft as ready for the operations after it. */
  lemma PutKeepsReady(d: Overlay, i: Iri, a: Artifact)
    requires Ready(d) && MayPut(d, i, a)
    ensures var e := Put(Counted(d, i, a), i, a);
      Ready(e) && View(e) == PutIn(View(d), i, a)
  {
    hide InFrame, Settled, LeftWellLinked;
    PutKeepsFrame(d, i, a);
    PutKeepsSettled(d, i, a);
    PutKeepsLinks(d, i, a, Put(Counted(d, i, a), i, a));
  }

  lemma PutKeepsKinds(d: Overlay, i: Iri, a: Artifact, e: Overlay)
    requires d.removed == {} && MayPut(d, i, a) && KindsKept(d) && RowsKept(d.store)
    requires e.store == d.store && e.pending == d.pending[i := a]
    ensures KindsKept(e)
  {
    if i in d.store.rows {
      assert Holds(d, i);
      assert RowKept(i, d.store.rows[i], d.store.landings);
    }
  }

  lemma PutKeepsLinks(d: Overlay, i: Iri, a: Artifact, e: Overlay)
    requires InFrame(d) && MayPut(d, i, a) && LeftWellLinked(d)
    requires View(e) == PutIn(View(d), i, a)
    requires e.store == d.store && e.pending.Keys == d.pending.Keys + {i} && e.removed == {}
    ensures LeftWellLinked(e)
  {
    forall source, l | source in e.store.rows && !Touched(e, source) && l in e.store.rows[source].links
      ensures WellLinked(View(e), l)
    {
      PutKeepsLink(d, i, a, source, l);
    }
  }

  lemma MayBeCounted(d: Overlay, i: Iri, a: Artifact)
    requires Counting(d) && d.removed == {} && Versioned(View(d)) && MayPut(d, i, a)
    ensures Follows(View(d), i, a)
    ensures Typed(a) || forall v: Named :: v.of == i ==> v !in KeptBy(d)
    ensures Typed(a) ==> a.number == NextNumber(d, i)
  {
    ViewReads(d);
    if !Typed(a) {
      assert !TypedAt(View(d), i);
    } else if Holds(d, i) {
      assert TypedAt(View(d), i);
      assert StandsAtLast(View(d));
    }
  }

  // ---- creates and revisions acting

  /** What a create or a revision leaves, put as it may be. */
  lemma ActingPuts(d: Overlay, op: Operation)
    requires Ready(d) && (op.Create? || op.Revise?) && Acted(d, op).Some?
    ensures var (e, act) := Acted(d, op).value;
      && act.left.Some? && MayPut(d, act.id, act.left.value)
      && e == Put(Counted(d, act.id, act.left.value), act.id, act.left.value)
      && act.revision == act.left.value.revision
      && act.version == Conforming(act.left.value)
      && act.left.value.revision == 1 + (if Holds(d, act.id) then ArtifactAt(d, act.id).revision else 0)
      && act.create == op.Create?
      && act.acted == KeptBy(d)[Conforming(act.left.value)].schema
  {
    ViewReads(d);
    match op
    case Create(name, version, _, _, _, _) =>
      assert Kept(View(d), version).Some?;
    case Revise(id, _, to, _) =>
      var current := ArtifactAt(d, id);
      var version := if to.None? then Conforming(current) else to.value;
      assert Kept(View(d), version).Some?;
      if Typed(current) {
        assert TypedAt(View(d), id);
        assert NextNumber(d, id) == current.number + 1;
      }
  }

  /** What a put does to a corpus, with nothing else of the draft: the artifact follows what was held, one revision
      after it. */
  ghost predicate PutsOn(c: Corpus, act: Act)
  {
    && act.left.Some? && Follows(c, act.id, act.left.value)
    && act.revision == act.left.value.revision
    && act.revision == 1 + if act.id in c.held then c.held[act.id].revision else 0
  }

  /** One create or revision acting on a ready draft: what it leaves is put, and the draft is ready again. */
  lemma OneMorePut(d: Overlay, op: Operation)
    requires Ready(d) && (op.Create? || op.Revise?) && Acted(d, op).Some?
    ensures var (e, act) := Acted(d, op).value;
      && PutsOn(View(d), act) && Ready(e) && View(e) == PutIn(View(d), act.id, act.left.value)
      && act.version == Conforming(act.left.value)
      && (act.id in d.pending ==> act.left.value.kind == d.pending[act.id].kind)
      && e.store == d.store && e.pending == d.pending[act.id := act.left.value] && e.removed == {}
  {
    ActingPuts(d, op);
    var (e, act) := Acted(d, op).value;
    PutKeepsReady(d, act.id, act.left.value);
    ViewReads(d);
    MayBeCounted(d, act.id, act.left.value);
  }

  /** Unfolds `Applied` once. */
  lemma LastOperation(s: Store, ops: seq<Operation>) returns (d: Overlay, acts: seq<Act>, e: Overlay, act: Act)
    requires ops != [] && Applied(s, ops).Some?
    ensures Applied(s, ops[..|ops| - 1]) == Some((d, acts)) && |acts| == |ops| - 1
    ensures Acted(d, ops[|ops| - 1]) == Some((e, act))
    ensures Applied(s, ops) == Some((e, acts + [act]))
  {
    var before := Applied(s, ops[..|ops| - 1]).value;
    d, acts := before.0, before.1;
    var after := Acted(d, ops[|ops| - 1]).value;
    e, act := after.0, after.1;
  }

  /** The sets whose operations put artifacts. */
  predicate AllPut(ops: seq<Operation>)
  {
    forall k :: 0 <= k < |ops| ==> ops[k].Create? || ops[k].Revise?
  }

  /** A draft of creates or revisions is ready at every step. */
  lemma {:induction false} AppliedIsReady(s: Store, ops: seq<Operation>)
    requires Inv(s) && AllPut(ops) && Applied(s, ops).Some?
    ensures Ready(Applied(s, ops).value.0) && Applied(s, ops).value.0.store == s
  {
    if ops == [] {
      FreshIsReady(s);
    } else {
      var d, acts, e, act := LastOperation(s, ops);
      hide Applied, Acted, Ready;
      AppliedIsReady(s, ops[..|ops| - 1]);
      OneMorePut(d, ops[|ops| - 1]);
    }
  }

  // ---- removals acting

  /** What a draft of removals keeps as its operations act. */
  ghost predicate Clearing(d: Overlay)
  {
    d.pending == map[] && d.made == map[] && d.gone == d.removed && d.removed <= d.store.rows.Keys
  }

  /** The view of a draft of removals: the store's without what was removed, or kept under it. */
  function Cleared(s: Store, removed: set<Iri>): Corpus
  {
    Corpus(map i | i in s.rows && i !in removed :: s.rows[i].content,
           map v | v in s.kept && v.of !in removed :: s.kept[v])
  }

  lemma ClearingView(d: Overlay)
    requires Clearing(d)
    ensures View(d) == Cleared(d.store, d.removed)
  {
    assert HeldBy(d) == Cleared(d.store, d.removed).held;
    KeptIs(d, Cleared(d.store, d.removed).kept);
  }

  /** A removal as it acts on what the store holds. */
  predicate TakesFrom(s: Store, act: Act)
  {
    && act.left.None? && !act.create && act.id in s.rows
    && act.version == Conforming(s.rows[act.id].content) && act.revision == s.rows[act.id].content.revision + 1
  }

  lemma {:induction false} AppliedClears(s: Store, ops: seq<Operation>)
    requires AllRemovals(ops) && Applied(s, ops).Some?
    ensures var (d, acts) := Applied(s, ops).value;
      && Clearing(d) && d.store == s
      && d.removed == (set k | 0 <= k < |acts| :: acts[k].id)
      && (forall k :: 0 <= k < |acts| ==> TakesFrom(s, acts[k]))
      && (forall j, k :: 0 <= j < k < |acts| ==> acts[j].id != acts[k].id)
  {
    if ops != [] {
      AppliedClears(s, ops[..|ops| - 1]);
      var (d, acts) := Applied(s, ops[..|ops| - 1]).value;
      var (e, act) := Acted(d, ops[|ops| - 1]).value;
      var all := acts + [act];
      assert forall k :: 0 <= k < |all| ==> all[k] == if k < |acts| then acts[k] else act;
      assert e.removed == d.removed + {act.id};
      assert all[|acts|] == act;
      assert (set k | 0 <= k < |all| :: all[k].id) == (set k | 0 <= k < |acts| :: acts[k].id) + {act.id};
    }
  }
}
