/** When an operation acts on a draft and what it leaves, said of the corpus the draft answers; and when defining a type
    would take something from the type above it. */
module Acting {
  import opened Iris
  import opened PortValues
  import opened Landing
  import opened Composition
  import opened Links
  import opened Draft
  import opened Drafting
  import opened Invariants
  import opened Applying

  // ---- a type's place

  /** Whether a type defined at an IRI becomes the nearest above an artifact held, or above what a link waits on; or is
      itself what a link waits on that is to be of another type than the type of types. */
  ghost predicate TakesOver(d: Overlay, t: Iri, a: Artifact)
  {
    var (c, e) := (View(d), PutIn(View(d), t, a));
    || (exists i :: i in c.held && !Typed(c.held[i]) && NearestType(e, i) != NearestType(c, i))
    || (exists each :: WaitingIn(d, each) && NearestType(e, each.target) != NearestType(c, each.target))
    || (NearestType(c, t) != Some(TYPES) && exists each :: WaitingIn(d, each) && each.target == t)
  }

  lemma NearestChanges(c: Corpus, t: Iri, a: Artifact, i: Iri)
    requires Typed(a) && !TypedAt(c, t)
    ensures NearestType(PutIn(c, t, a), i) != NearestType(c, i) <==> NearestWas(c, i, t)
  {
    NearestWithOneMore(c, PutIn(c, t, a), t, i);
    if NearestType(c, i).Some? {
      NearestTypeStands(c, i, NearestType(c, i).value);
    }
  }

  lemma UnderItsType(c: Corpus, i: Iri, t: Iri, other: Iri)
    requires NearestType(c, i) == Some(other) && NearestType(c, t) == Some(other) && t in Above(i) && !TypedAt(c, t)
    ensures NearestWas(c, i, t)
  {
    NearestTypeStands(c, i, other);
    NearestTypeStands(c, t, other);
    NearestWasStands(c, i, t);
    var j :| 0 <= j < |Above(i)| && Above(i)[j] == t;
    var k :| 0 <= k < |Above(i)| && Above(i)[k] == other;
    AboveIsAChain(i, j);
    assert other in Above(i)[j + 1..];
    AboveAreDistinct(i);
    assert j < k;
    BetweenIsARunOfAbove(i, j);
    BetweenIsARunOfAbove(i, k);
    assert Above(i)[..j] == Above(i)[..k][..j];
  }

  lemma IdsAreHeld(d: Overlay, kind: Iri, i: Iri)
    requires KindsKept(d) && RowsKept(d.store)
    ensures i in Ids(d, kind) <==> i in View(d).held && View(d).held[i].kind == kind
  {
    ViewReads(d);
    assert i in d.store.rows ==> RowKept(i, d.store.rows[i], d.store.landings);
    hide View;
  }

  /** A place is taken exactly when there is a type above it and a type defined there would take something over. */
  lemma PlaceIsTakenExactlyWhen(d: Overlay, t: Iri, a: Artifact)
    requires RowsKept(d.store) && KindsKept(d) && Placed(View(d)) && !Holds(d, t) && Typed(a)
    ensures PlaceTaken(d, t) <==> NearestType(View(d), t).Some? && TakesOver(d, t, a)
  {
    ViewReads(d);
    var c, e := View(d), PutIn(View(d), t, a);
    assert !TypedAt(c, t);
    hide View, PutIn, RowsKept, Placed, NearestWas, WaitingIn, Ids;
    if NearestType(c, t).Some? {
      var other := NearestType(c, t).value;
      forall i
        ensures i in Ids(d, other) <==> i in c.held && c.held[i].kind == other
      {
        IdsAreHeld(d, other, i);
      }
      if i :| Belongs(d, t, other, i) {
        BelongingIsTakenOver(d, t, a, i);
      }
      if TakesOver(d, t, a) {
        TakenOverBelongs(d, t, a);
      }
    }
  }

  lemma BelongingIsTakenOver(d: Overlay, t: Iri, a: Artifact, i: Iri)
    requires RowsKept(d.store) && KindsKept(d) && Placed(View(d)) && !Holds(d, t) && Typed(a)
    requires NearestType(View(d), t).Some? && Belongs(d, t, NearestType(View(d), t).value, i)
    ensures TakesOver(d, t, a)
  {
    ViewReads(d);
    var c, e := View(d), PutIn(View(d), t, a);
    var other := NearestType(c, t).value;
    hide View, PutIn, RowsKept, NearestWas, WaitingIn, Ids, NearestType;
    if other != TYPES && i in Ids(d, other) && t in Above(i) {
      IdsAreHeld(d, other, i);
      UnderItsType(c, i, t, other);
      NearestChanges(c, t, a, i);
    } else {
      var each :| WaitingIn(d, each) && each.target == i && ((other != TYPES && i == t) || NearestWas(c, i, t));
      if NearestWas(c, i, t) {
        NearestChanges(c, t, a, i);
      }
    }
  }

  lemma TakenOverBelongs(d: Overlay, t: Iri, a: Artifact)
    requires RowsKept(d.store) && KindsKept(d) && Placed(View(d)) && !Holds(d, t) && Typed(a)
    requires NearestType(View(d), t).Some? && TakesOver(d, t, a)
    ensures exists i :: Belongs(d, t, NearestType(View(d), t).value, i)
  {
    ViewReads(d);
    var c, e := View(d), PutIn(View(d), t, a);
    var other := NearestType(c, t).value;
    hide View, PutIn, RowsKept, NearestWas, WaitingIn, Ids, NearestType;
    if i :| i in c.held && !Typed(c.held[i]) && NearestType(e, i) != NearestType(c, i) {
      NearestChanges(c, t, a, i);
      NearestPast(c, i, t);
      NearestWasStands(c, i, t);
      IdsAreHeld(d, other, i);
      assert Belongs(d, t, other, i);
    } else if each :| WaitingIn(d, each) && NearestType(e, each.target) != NearestType(c, each.target) {
      NearestChanges(c, t, a, each.target);
      assert Belongs(d, t, other, each.target);
    } else {
      var each :| WaitingIn(d, each) && each.target == t;
      assert Belongs(d, t, other, t);
    }
  }

  // ---- when each acts, and what it leaves

  /** Whether `v` is kept with that schema and its IRI holds a type. */
  ghost predicate KeepsVersion(c: Corpus, v: Named, schema: Schema)
  {
    v.of in c.held && c.held[v.of].kind == TYPES && v in c.kept && c.kept[v].schema == schema
  }

  /** Whether a create may act: it names a kept version of a type, and brings content of it, well formed and with no name
      of an item's own; its IRI holds nothing and is its type's by place, or the place is free for a type. */
  ghost predicate MayCreate(d: Overlay, op: Operation, schema: Schema)
    requires op.Create?
  {
    var c := View(d);
    && KeepsVersion(c, op.version, schema) && !op.carried && !op.problems && op.body(schema).Some?
    && op.name !in c.held
    && (if op.version.of == TYPES then !PlaceTaken(d, op.name) else NearestType(c, op.name) == Some(op.version.of))
  }

  ghost predicate Creates(op: Operation, act: Act, schema: Schema)
    requires op.Create?
  {
    && act.create && act.id == op.name && act.left.Some?
    && act.left.value.kind == op.version.of && act.left.value.conforms == op.version.number
    && act.left.value.revision == 1 == act.revision && op.body(schema) == Some(act.left.value.body)
    && act.left.value.schema == op.schema
  }

  /** Whether a replacement, or an item added, may act: what it changes is held, as it was read, and moves to a kept
      version no lower than it has, or stays at its own; and the edit has an outcome there. */
  ghost predicate MayRevise(d: Overlay, op: Operation, number: nat, schema: Schema)
    requires op.Revise?
  {
    var c := View(d);
    && op.id in c.held && (op.expected.Some? ==> op.expected.value == c.held[op.id].revision)
    && number >= c.held[op.id].conforms
    && (match op.to
        case None => number == c.held[op.id].conforms
        case Some(to) => to == Named(c.held[op.id].kind, number))
    && KeepsVersion(c, Named(c.held[op.id].kind, number), schema)
    && op.edit(c.held[op.id], schema).Some?
  }

  ghost predicate Revises(d: Overlay, op: Operation, act: Act, number: nat, schema: Schema)
    requires op.Revise? && op.id in View(d).held
  {
    var was := View(d).held[op.id];
    && !act.create && act.id == op.id && act.left.Some?
    && act.left.value.kind == was.kind && act.left.value.conforms == number
    && act.left.value.revision == was.revision + 1 == act.revision
    && op.edit(was, schema) == Some((act.left.value.body, act.left.value.schema))
  }

  lemma KeepsVersionIsKept(d: Overlay, v: Named, schema: Schema)
    ensures SchemaOf(d, v) == Some(schema) <==> KeepsVersion(View(d), v, schema)
  {
    hide View;
  }

  /** A create acts exactly when it may, and leaves what it brings, at its first revision, of the version it names. */
  lemma CreatesExactlyWhen(d: Overlay, op: Operation)
    requires op.Create?
    ensures Acted(d, op).Some? <==> exists schema :: MayCreate(d, op, schema)
    ensures forall schema :: MayCreate(d, op, schema) ==> Acted(d, op).Some? && Creates(op, Acted(d, op).value.1, schema)
  {
    ViewReads(d);
    hide View, PlaceTaken, NearestType, Numbered, NextNumber, Put, KeepsVersion;
    forall schema
      ensures SchemaOf(d, op.version) == Some(schema) <==> KeepsVersion(View(d), op.version, schema)
    {
      KeepsVersionIsKept(d, op.version, schema);
    }
    hide SchemaOf;
    if Acted(d, op).Some? {
      assert MayCreate(d, op, SchemaOf(d, op.version).value);
    }
  }

  /** A replacement acts exactly when it may, and leaves what its edit makes of what was held, at the next revision, of
      the version it moves to. */
  lemma RevisesExactlyWhen(d: Overlay, op: Operation)
    requires op.Revise?
    ensures Acted(d, op).Some? ==> exists number: nat, schema :: MayRevise(d, op, number, schema)
    ensures forall number: nat, schema :: MayRevise(d, op, number, schema) ==>
      Acted(d, op).Some? && Revises(d, op, Acted(d, op).value.1, number, schema)
  {
    ViewReads(d);
    hide View, Numbered, NextNumber, Put;
    if Acted(d, op).Some? {
      var current := ArtifactAt(d, op.id);
      var version := if op.to.None? then Conforming(current) else op.to.value;
      KeepsVersionIsKept(d, version, SchemaOf(d, version).value);
      hide KeepsVersion, SchemaOf;
      assert MayRevise(d, op, version.number, SchemaOf(d, version).value);
    }
    forall number: nat, schema | MayRevise(d, op, number, schema)
      ensures Acted(d, op).Some? && Revises(d, op, Acted(d, op).value.1, number, schema)
    {
      KeepsVersionIsKept(d, Named(View(d).held[op.id].kind, number), schema);
    }
  }
}
