/** A set drafted against a store: its operations applied in order, what the set leaves judged once as a whole, and the
    changes handed to the port, with what they were read at and the IRIs they need to hold nothing. */
module Drafting {
  import opened Iris
  import opened PortValues
  import opened Landing
  import opened Composition
  import opened Links
  import opened Draft

  /** An operation of a set. What it puts there is given as a function of what the operation finds, so the same set
      acts again on another draft: `body`, of the schema a create's content is named under; `edit`, of the artifact it
      changes, and of that schema. None is content, a place or a name that the operation is refused for. */
  datatype Operation =
    | Create(name: Iri, version: Named, carried: bool, problems: bool, body: Schema -> Option<Body>, schema: Schema)
    | Revise(id: Iri, expected: Option<nat>, to: Option<Named>, edit: (Artifact, Schema) -> Option<(Body, Schema)>)
    | Remove(id: Iri, expected: Option<nat>, whole: bool)
    | Unreadable

  /** The artifact an operation names. */
  function ActsOn(op: Operation): Option<Iri>
  {
    match op
    case Create(name, _, _, _, _, _) => Some(name)
    case Revise(id, _, _, _) => Some(id)
    case Remove(id, _, _) => Some(id)
    case Unreadable => None
  }

  /** What one operation did: to which artifact, the revision and the type version its entry records, the artifact as
      it left it, none for a removal, and the schema of that version as it acted. */
  datatype Act = Act(create: bool, id: Iri, revision: nat, version: Named, left: Option<Artifact>, acted: Schema)

  // ---- what settles a type's place

  /** Whether defining `t` would take `i` from `other`: an artifact of that kind below `t`, or a waited IRI for which
      `t` would be nearest, or `t` itself waited on; the kind TYPES takes nothing by place. */
  ghost predicate Belongs(d: Overlay, t: Iri, other: Iri, i: Iri)
  {
    || (other != TYPES && i in Ids(d, other) && t in Above(i))
    || (exists each :: WaitingIn(d, each) && each.target == i
          && ((other != TYPES && i == t) || NearestWas(View(d), i, t)))
  }

  ghost predicate PlaceTaken(d: Overlay, t: Iri)
  {
    var other := NearestType(View(d), t);
    other.Some? && exists i :: Belongs(d, t, other.value, i)
  }

  predicate RemovesAType(act: Act)
  {
    act.left.None? && act.version.of == TYPES
  }

  predicate DefinesAType(act: Act)
  {
    act.create && act.version.of == TYPES
  }

  /** Whether a reference in some version of `reader` that the overlay answers is to `t`. */
  predicate ReadsType(d: Overlay, reader: Iri, t: Iri)
  {
    exists n: nat, m :: n in VersionsOf(d, reader) && TypeVersion(d, Named(reader, n)).Some?
      && 0 <= m < |TypeVersion(d, Named(reader, n)).value.schema.refers|
      && TypeVersion(d, Named(reader, n)).value.schema.refers[m].to.of == t
  }

  /** Whether something stands in the way of a type's removal: a type that reads it, or a link that waits under it. */
  ghost predicate InTheWay(d: Overlay, act: Act)
  {
    RemovesAType(act) &&
    (|| (exists reader :: reader in Ids(d, TYPES) && reader != act.id && ReadsType(d, reader, act.id))
     || (exists each :: WaitingIn(d, each) && NearestWas(View(d), each.target, act.id)))
  }

  // ---- one operation

  /** The version of a type an operation names, as the draft keeps it. */
  function SchemaOf(d: Overlay, v: Named): (schema: Option<Schema>)
  {
    match Kept(View(d), v)
    case None => None
    case Some(found) => Some(found.schema)
  }

  ghost function Created(d: Overlay, op: Operation): (done: Option<(Overlay, Act)>)
    requires op.Create?
  {
    var schema := SchemaOf(d, op.version);
    var defines := op.version.of == TYPES;
    if schema.None? then None
    else if !defines && NearestType(View(d), op.name) != Some(op.version.of) then None
    else if op.carried || Holds(d, op.name) || op.problems then None
    else if defines && PlaceTaken(d, op.name) then None
    else
      var body := op.body(schema.value);
      if body.None? then None
      else
        var counted := if defines then Numbered(d, op.name) else d;
        var number := if defines then NextNumber(d, op.name) else 0;
        var a := Artifact(op.version.of, op.version.number, 1, body.value, number, op.schema);
        Some((Put(counted, op.name, a), Act(true, op.name, 1, op.version, Some(a), schema.value)))
  }

  /** Whether the draft holds what an operation changes, at the revision it says it was read at, if it says one. */
  predicate ReadAs(d: Overlay, i: Iri, expected: Option<nat>)
  {
    Holds(d, i) && (expected.Some? ==> ArtifactAt(d, i).revision == expected.value)
  }

  function Revised(d: Overlay, op: Operation): (done: Option<(Overlay, Act)>)
    requires op.Revise?
  {
    if !ReadAs(d, op.id, op.expected) then None
    else
      var current := ArtifactAt(d, op.id);
      var version := if op.to.None? then Conforming(current) else op.to.value;
      if op.to.Some? && !MovesTo(current, version, View(d)) then None
      else
        var schema := SchemaOf(d, version);
        if schema.None? then None
        else
          var made := op.edit(current, schema.value);
          if made.None? then None
          else
            var defines := Typed(current);
            var counted := if defines then Numbered(d, op.id) else d;
            var number := if defines then NextNumber(d, op.id) else 0;
            var a := Artifact(current.kind, version.number, current.revision + 1, made.value.0, number, made.value.1);
            Some((Put(counted, op.id, a), Act(false, op.id, a.revision, version, Some(a), schema.value)))
  }

  function Deleted(d: Overlay, op: Operation): (done: Option<(Overlay, Act)>)
    requires op.Remove?
  {
    if !ReadAs(d, op.id, op.expected) || !op.whole then None
    else
      var was := ArtifactAt(d, op.id);
      Some((Taken(d, op.id), Act(false, op.id, was.revision + 1, Conforming(was), None, was.schema)))
  }

  ghost function Acted(d: Overlay, op: Operation): (done: Option<(Overlay, Act)>)
  {
    match op
    case Create(_, _, _, _, _, _) => Created(d, op)
    case Revise(_, _, _, _) => Revised(d, op)
    case Remove(_, _, _) => Deleted(d, op)
    case Unreadable => None
  }

  /** Every operation applied in order, none when any is refused as it acts. */
  ghost function Applied(s: Store, ops: seq<Operation>): (done: Option<(Overlay, seq<Act>)>)
    ensures done.Some? ==> |done.value.1| == |ops|
  {
    if ops == [] then Some((Fresh(s), []))
    else
      match Applied(s, ops[..|ops| - 1])
      case None => None
      case Some((d, acts)) =>
        match Acted(d, ops[|ops| - 1])
        case None => None
        case Some((e, act)) => Some((e, acts + [act]))
  }

  // ---- judging what the set leaves

  /** Whether a link lands in the corpus: on a held artifact of a kind its field allows, and on a part of it when it
      names one; or on an IRI not held under the nearest held type that its field allows. */
  predicate LandsIn(c: Corpus, v: Value, ref: Ref)
  {
    if v.part != "" && !ref.parts then false
    else if v.target !in c.held then
      var under := NearestType(c, v.target);
      under.Some? && under.value in ref.targets
    else c.held[v.target].kind in ref.targets && (v.part == "" || v.part in c.held[v.target].body.parts)
  }

  /** Whether only the part is missing: target held, of a kind in `ref.targets`, and `ref` allows parts. */
  predicate KeepsWaiting(c: Corpus, v: Value, ref: Ref)
  {
    ref.parts && v.target in c.held && c.held[v.target].kind in ref.targets
  }

  /** Whether a link lands, or is one that waited and still waits. */
  predicate Accepted(c: Corpus, values: seq<Value>, n: nat, declares: map<string, Ref>, waited: set<Told>)
    requires n < |values| && values[n].field in declares
  {
    var ref := declares[values[n].field];
    var told := ToldAt(ValueKeys(values), n);
    LandsIn(c, values[n], ref) || (told.Some? && told.value in waited && KeepsWaiting(c, values[n], ref))
  }

  /** The schema of the version `left` conforms to, as the finished overlay answers; or `acted`, when neither the
      artifact nor its kind is held in the overlay any more. */
  function TypedFor(d: Overlay, act: Act): (schema: Option<Schema>)
    requires act.left.Some?
  {
    if !Holds(d, act.id) && !Holds(d, act.left.value.kind) then Some(act.acted)
    else SchemaOf(d, Conforming(act.left.value))
  }

  /** Whether what a change left has the shape of its type. */
  predicate Shaped(d: Overlay, act: Act)
    requires act.left.Some?
  {
    TypedFor(d, act).Some? && TypedFor(d, act).value.fits(act.left.value.body)
  }

  /** Whether every link a change left lands or still waits, as the set leaves the store. */
  predicate LinksAccepted(d: Overlay, act: Act)
    requires act.left.Some? && TypedFor(d, act).Some?
  {
    var declares := TypedFor(d, act).value.declares;
    var own := Carried(act.left.value.body.values, declares);
    forall n :: 0 <= n < |own| ==> Accepted(View(d), own, n, declares, HeldWaiting(d.store, act.id))
  }

  /** Whether a type is one: its keywords where they are read, and every version it refers to kept, none of them the
      type itself as its base. */
  predicate IsAType(d: Overlay, i: Iri, schema: Schema)
  {
    schema.sound && forall n :: 0 <= n < |schema.refers| ==>
      !(schema.refers[n].to.of == i && schema.refers[n].whole) && Kept(View(d), schema.refers[n].to).Some?
  }

  /** Whether no later operation of a set acts on the artifact one acts on. */
  predicate IsLast(acts: seq<Act>, k: nat)
    requires k < |acts|
  {
    forall j :: k < j < |acts| ==> acts[j].id != acts[k].id
  }

  /** Whether a removal has no fault as the set leaves the store: nothing left links to what it removed, and nothing
      stands in the way of a type's removal. */
  ghost predicate FaultlessRemoval(d: Overlay, act: Act)
  {
    (forall each :: each in LinksIn(d, act.id) ==> each.source == act.id) && !InTheWay(d, act)
  }

  /** An act judged against the finished overlay. */
  ghost predicate Faultless(d: Overlay, act: Act)
  {
    if act.left.None? then FaultlessRemoval(d, act)
    else
      && Shaped(d, act) && LinksAccepted(d, act)
      && (Typed(act.left.value) ==> IsAType(d, act.id, act.left.value.schema))
  }

  /** Whether an operation has no fault but, for one a later one in the set acts over, in the links it left. */
  ghost predicate Stands(d: Overlay, acts: seq<Act>, k: nat)
    requires k < |acts|
  {
    var act := acts[k];
    if act.left.None? then FaultlessRemoval(d, act)
    else
      && Shaped(d, act) && (IsLast(acts, k) ==> LinksAccepted(d, act))
      && (Typed(act.left.value) ==> IsAType(d, act.id, act.left.value.schema))
  }

  /** Every link into a part of `Dropped` comes from an IRI the overlay touches. */
  ghost predicate KeptWhole(d: Overlay, acts: seq<Act>)
  {
    forall k, each :: 0 <= k < |acts| && each in LinksIn(d, acts[k].id) && each.part in Dropped(d, acts[k].id) ==>
      Touched(d, each.source)
  }

  // ---- what is handed to the port

  /** Of a type put, what `ReadThrough` finds from its new schema, TYPES left out; of anything else, none. */
  function ReadByTheVersionMade(d: Overlay, a: Artifact): (types: seq<Iri>)
  {
    if !Typed(a) then [] else ReadThrough(TYPES, a.schema.refers, View(d))[1..]
  }

  /** A change as the port takes it, with its links and parts when it is the last to its artifact. */
  function HandedOver(d: Overlay, acts: seq<Act>, k: nat): (c: Change)
    requires k < |acts|
    requires acts[k].left.Some? ==> TypedFor(d, acts[k]).Some?
  {
    var act := acts[k];
    var read := if act.revision == 0 then 0 else act.revision - 1;
    match act.left
    case None => Change(act.id, None, [], {}, read, act.revision, [], TYPES, None)
    case Some(a) =>
      var made := ReadByTheVersionMade(d, a);
      var number := if Typed(a) then Some(a.number) else None;
      if !IsLast(acts, k) then
        Change(act.id, Some(a), [], {}, read, act.revision, AsRead(d, made), a.kind, number)
      else
        var schema := TypedFor(d, act).value;
        var types := ReadThrough(a.kind, schema.refers, View(d)) + made;
        Change(act.id, Some(a), HandedLinks(a, schema, View(d), HeldWaiting(d.store, act.id)), a.body.parts, read,
               act.revision, AsRead(d, types), a.kind, number)
  }

  /** The IRIs whose becoming types would change what `NearestType` gives for the change's new artifact, or for the
      target of a link it hands. */
  predicate Open(c: Change, i: Iri)
  {
    && c.content.Some?
    && (|| (c.read == 0 && c.kind != TYPES && i in Between(c.artifact, c.kind))
        || (exists n :: 0 <= n < |c.links| && c.links[n].under.Some? && !c.links[n].implicit
              && i in Between(c.links[n].target, c.links[n].under.value)))
  }

  /** Those IRIs, listed. */
  function OpenIn(c: Change): (gap: seq<Iri>)
    ensures forall i :: i in gap <==> Open(c, i)
  {
    if c.content.None? then []
    else
      (if c.read == 0 && c.kind != TYPES then Between(c.artifact, c.kind) else []) + OpenLinks(c.links)
  }

  function OpenLinks(links: seq<Link>): (gap: seq<Iri>)
    ensures forall i :: i in gap <==> exists n ::
      0 <= n < |links| && links[n].under.Some? && !links[n].implicit && i in Between(links[n].target, links[n].under.value)
  {
    if links == [] then []
    else
      var gap := OpenLinks(links[..|links| - 1]);
      var last := links[|links| - 1];
      if last.under.Some? && !last.implicit then gap + Between(last.target, last.under.value) else gap
  }

  /** The IRIs of a list that the draft left alone and holds nothing at, each as read at revision 0. */
  function Empty(d: Overlay, gap: seq<Iri>): (read: seq<(Iri, nat)>)
    ensures forall each :: each in read <==>
      each.0 in gap && !Touched(d, each.0) && !Holds(d, each.0) && each.1 == 0
  {
    if gap == [] then []
    else
      var read := Empty(d, gap[..|gap| - 1]);
      var i := gap[|gap| - 1];
      assert gap == gap[..|gap| - 1] + [i];
      if !Touched(d, i) && !Holds(d, i) then read + [(i, 0)] else read
  }

  /** A change with the IRIs it needs to hold nothing among what it was read at. */
  function Guarded(d: Overlay, c: Change): Change
  {
    c.(through := c.through + Empty(d, OpenIn(c)))
  }

  /** Whether the draft holds something at one of those IRIs, where no revision would tell a type defined since. */
  predicate HeldBelow(d: Overlay, c: Change)
  {
    exists i :: i in OpenIn(c) && !Touched(d, i) && Holds(d, i)
  }

  /** Either refused, or the overlay, an act and a change per operation, and the flag that forbids landing it as it
      is. */
  datatype Drafted = Refused | Drafted(draft: Overlay, acts: seq<Act>, handed: seq<Change>, locked: bool)

  ghost predicate AllTyped(d: Overlay, acts: seq<Act>)
  {
    forall k :: 0 <= k < |acts| && acts[k].left.Some? ==> TypedFor(d, acts[k]).Some?
  }

  /** What a set is handed over as, once it is judged. */
  function HandedAll(d: Overlay, acts: seq<Act>): (r: Drafted)
    requires AllTyped(d, acts)
  {
    var plain := seq(|acts|, k requires 0 <= k < |acts| => HandedOver(d, acts, k));
    var handed := seq(|acts|, k requires 0 <= k < |acts| => Guarded(d, plain[k]));
    var locked :=
      || (exists k :: 0 <= k < |acts| && HeldBelow(d, plain[k]))
      || (exists k :: 0 <= k < |acts| && (RemovesAType(acts[k]) || DefinesAType(acts[k])));
    Drafted(d, acts, handed, locked)
  }

  lemma FaultlessStand(d: Overlay, acts: seq<Act>)
    requires forall k :: 0 <= k < |acts| ==> Faultless(d, acts[k])
    ensures forall k :: 0 <= k < |acts| ==> Stands(d, acts, k)
  {
    hide TypedFor, LinksAccepted, IsAType, FaultlessRemoval, IsLast;
    forall k | 0 <= k < |acts|
      ensures Stands(d, acts, k)
    {
      assert Faultless(d, acts[k]);
    }
  }

  lemma StandingAreTyped(d: Overlay, acts: seq<Act>)
    requires forall k :: 0 <= k < |acts| ==> Stands(d, acts, k)
    ensures AllTyped(d, acts)
  {
    hide TypedFor, LinksAccepted, IsAType, FaultlessRemoval;
    forall k | 0 <= k < |acts| && acts[k].left.Some?
      ensures TypedFor(d, acts[k]).Some?
    {
      assert Stands(d, acts, k);
    }
  }

  /** `Applied`, and `HandedAll` of it when each act is `Faultless` and `KeptWhole` holds. */
  ghost function DraftSet(s: Store, ops: seq<Operation>): (r: Drafted)
  {
    match Applied(s, ops)
    case None => Refused
    case Some((d, acts)) =>
      if (forall k :: 0 <= k < |acts| ==> Faultless(d, acts[k])) && KeptWhole(d, acts) then
        FaultlessStand(d, acts);
        StandingAreTyped(d, acts);
        HandedAll(d, acts)
      else Refused
  }

  /** A set drafted, but that a link only a change acted over later in the set left is not judged: what the port itself
      asks of a set, which is handed no link of such a change. */
  ghost function Planned(s: Store, ops: seq<Operation>): (r: Drafted)
  {
    match Applied(s, ops)
    case None => Refused
    case Some((d, acts)) =>
      if (forall k :: 0 <= k < |acts| ==> Stands(d, acts, k)) && KeptWhole(d, acts) then
        StandingAreTyped(d, acts);
        HandedAll(d, acts)
      else Refused
  }

  /** A set drafted without a fault is drafted so. */
  lemma DraftedIsPlanned(s: Store, ops: seq<Operation>)
    requires DraftSet(s, ops).Drafted?
    ensures Planned(s, ops) == DraftSet(s, ops)
  {
    var (d, acts) := Applied(s, ops).value;
    FaultlessStand(d, acts);
  }

  // ---- the sets the service makes

  predicate AllCreates(ops: seq<Operation>)
  {
    forall k :: 0 <= k < |ops| ==> ops[k].Create?
  }

  predicate AllRevisions(ops: seq<Operation>)
  {
    forall k :: 0 <= k < |ops| ==> ops[k].Revise?
  }

  predicate AllRemovals(ops: seq<Operation>)
  {
    forall k :: 0 <= k < |ops| ==> ops[k].Remove?
  }

  /** All creates, all replacements or items added, or all removals. */
  predicate OfOneSort(ops: seq<Operation>)
  {
    AllCreates(ops) || AllRevisions(ops) || AllRemovals(ops)
  }
}
