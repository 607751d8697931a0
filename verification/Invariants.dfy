/** What every store kb reaches keeps: every artifact under the type it is of, every link landing or waiting where it
    may, and every version named kept. */
module Invariants {
  import opened Iris
  import opened PortValues
  import opened Landing
  import opened Composition
  import opened Links
  import opened Draft

  /** Every artifact that is no type is of the nearest held type its IRI sits under. */
  ghost predicate Placed(c: Corpus)
  {
    forall i :: i in c.held && !Typed(c.held[i]) ==> NearestType(c, i) == Some(c.held[i].kind)
  }

  /** Versions are kept only where a type is held. */
  ghost predicate KeptAreTyped(c: Corpus)
  {
    forall v :: v in c.kept ==> TypedAt(c, v.of) && Typed(c.kept[v])
  }

  /** The versions kept of a held type are exactly 1 up to the one it stands at. */
  ghost predicate NumbersRun(c: Corpus)
  {
    forall v: Named :: TypedAt(c, v.of) ==> (v in c.kept <==> 1 <= v.number <= c.held[v.of].number)
  }

  /** A held type is what is kept as the version it stands at. */
  ghost predicate StandsAtLast(c: Corpus)
  {
    forall i :: TypedAt(c, i) ==>
      Named(i, c.held[i].number) in c.kept && c.kept[Named(i, c.held[i].number)] == c.held[i]
  }

  /** Every artifact conforms to a version kept. */
  ghost predicate Conform(c: Corpus)
  {
    forall i :: i in c.held ==> Conforming(c.held[i]) in c.kept
  }

  ghost predicate Versioned(c: Corpus)
  {
    KeptAreTyped(c) && NumbersRun(c) && StandsAtLast(c) && Conform(c)
  }

  /** Every version a kept version refers to is itself kept. */
  ghost predicate Referring(c: Corpus)
  {
    forall v, n :: v in c.kept && 0 <= n < |c.kept[v].schema.refers| ==> c.kept[v].schema.refers[n].to in c.kept
  }

  /** A stored link against a corpus: if its target is held, that is of a kind in `kinds`; if not, the target's
      `NearestType` is in `kinds`. An implicit one names no part and its target is typed. */
  ghost predicate WellLinked(c: Corpus, l: Stored)
  {
    if l.implicit then l.part == "" && TypedAt(c, l.target)
    else if l.target in c.held then c.held[l.target].kind in l.kinds
    else NearestType(c, l.target).Some? && NearestType(c, l.target).value in l.kinds
  }

  ghost predicate LinkedWell(s: Store)
  {
    forall i, l :: i in s.rows && l in s.rows[i].links ==> WellLinked(StoreView(s), l)
  }

  /** Each row says of its artifact what its content says, above revision 0, in a life begun before now; and holds the
      implicit link to its type, but for the type of types, started without one. */
  ghost predicate RowKept(i: Iri, r: Row, landings: nat)
  {
    && r.kind == r.content.kind && r.revision == r.content.revision && r.revision >= 1
    && r.parts == r.content.body.parts && r.born < landings
    && (i != r.kind ==> AsStored(Implicit(r.kind)) in r.links)
  }

  ghost predicate RowsKept(s: Store)
  {
    forall i :: i in s.rows ==> RowKept(i, s.rows[i], s.landings)
  }

  /** A held type stands at the version numbered as its revision: each revision of a type makes one version of it. */
  ghost predicate Paced(c: Corpus)
  {
    forall i :: TypedAt(c, i) ==> c.held[i].number == c.held[i].revision
  }

  ghost predicate Inv(s: Store)
  {
    && RowsKept(s) && Placed(StoreView(s)) && Versioned(StoreView(s)) && Referring(StoreView(s)) && LinkedWell(s)
    && Paced(StoreView(s))
  }

  // ---- a store started

  const EMPTY := Store(map[], map[], [], 0)

  /** The type of types as a store is started with it: at its first version and revision, linking nothing and reading
      no other type, a type by its own account. */
  ghost predicate Metaschema(a: Artifact)
  {
    a.kind == TYPES && a.conforms == 1 && a.revision == 1 && a.number == 1 && a.schema.refers == []
    && a.body.parts == {} && a.body.values == [] && a.schema.sound && a.schema.fits(a.body)
  }

  /** A new store: the type of types landed alone, with its entry. */
  ghost function Started(meta: Artifact, entry: Entry): Outcome
  {
    Land(EMPTY, [Change(TYPES, Some(meta), [], {}, 0, 1, [], TYPES, Some(1))], [entry])
  }

  lemma StartedKeeps(meta: Artifact, entry: Entry)
    requires Metaschema(meta)
    ensures Started(meta, entry).Landed? && Inv(Started(meta, entry).store)
    ensures Started(meta, entry).store.entries == [entry]
  {
    var c := Change(TYPES, Some(meta), [], {}, 0, 1, [], TYPES, Some(1));
    assert [c][..0] == [];
    assert WriteAll(EMPTY, []) == Landed(EMPTY);
    var written := WriteAll(EMPTY, [c]).store;
    assert written == Write(EMPTY, c);
    assert written.rows.Keys == {TYPES};
    assert Changed([c]) == {TYPES};
    assert [c][LastAt([c], TYPES)] == c;
    assert !SeversAny(EMPTY, written, {TYPES});
    var s := Started(meta, entry).store;
    assert [] + [entry] == [entry] && StoreAll([]) == [];
    assert s.rows == written.rows == map[TYPES := Row(TYPES, 1, meta, {}, [], 0)];
    assert s.kept == written.kept == map[Named(TYPES, 1) := meta];
    hide Inv, Land, WriteAll, SeversAny;
    OneTypeIsKept(s, meta);
  }

  lemma OneTypeIsKept(s: Store, meta: Artifact)
    requires Metaschema(meta) && s.landings > 0
    requires s.rows == map[TYPES := Row(TYPES, 1, meta, {}, [], 0)] && s.kept == map[Named(TYPES, 1) := meta]
    ensures Inv(s)
  {
    assert StoreView(s).held.Keys == {TYPES};
    assert StoreView(s).kept.Keys == {Named(TYPES, 1)};
  }
}
