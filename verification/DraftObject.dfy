/** The draft as the object the operations change: its overlay put and removed in place, the types it reads and the links
    that waited before it kept as first read, and the links into an artifact put together from the store's and its own. */
module DraftObject {
  import opened Iris
  import opened PortValues
  import opened Landing
  import opened Composition
  import opened Links
  import opened Draft
  import opened Drafting

  /** Versions kept under each type's IRI by their number, kept by type and number together. */
  function ByVersion(made: map<Iri, map<nat, Artifact>>): (all: map<Named, Artifact>)
    ensures forall v: Named :: v in all <==> v.of in made && v.number in made[v.of]
    ensures forall v :: v in all ==> all[v] == made[v.of][v.number]
  {
    var names := set i, n | i in made && n in made[i] :: Named(i, n);
    assert forall v: Named :: v.of in made && v.number in made[v.of] ==> Named(v.of, v.number) in names;
    map v | v in names :: made[v.of][v.number]
  }

  lemma OneMoreByVersion(made: map<Iri, map<nat, Artifact>>, i: Iri, a: Artifact)
    ensures var before := if i in made then made[i] else map[];
      ByVersion(made[i := before[a.number := a]]) == ByVersion(made)[Named(i, a.number) := a]
  {
    var before := if i in made then made[i] else map[];
    var more := made[i := before[a.number := a]];
    hide ByVersion;
    forall v: Named
      ensures v in ByVersion(more) <==> v in ByVersion(made)[Named(i, a.number) := a]
      ensures v in ByVersion(more) ==> ByVersion(more)[v] == ByVersion(made)[Named(i, a.number) := a][v]
    {
      assert v.of == i && v.number == a.number ==> v == Named(i, a.number);
    }
  }

  lemma OneFewerByVersion(made: map<Iri, map<nat, Artifact>>, i: Iri)
    ensures ByVersion(made - {i}) == map v | v in ByVersion(made) && v.of != i :: ByVersion(made)[v]
  {
  }

  lemma KeptReads(d: Overlay, v: Named)
    ensures Composition.Kept(View(d), v) ==
      if Draft.Holds(d, v.of) && Typed(ArtifactAt(d, v.of)) then Draft.TypeVersion(d, v) else None
  {
    ViewReads(d);
  }

  class LiveDraft {
    const store: Store
    var pending: map<Iri, Artifact>
    var removed: set<Iri>
    var types: map<Iri, Artifact>
    var numbers: map<Iri, nat>
    var made: map<Iri, map<nat, Artifact>>
    var gone: set<Iri>
    var waited: map<Iri, set<Told>>

    /** The draft as a value. */
    function Value(): Overlay
      reads this
    {
      Overlay(store, pending, removed, numbers, ByVersion(made), gone)
    }

    /** What it keeps as first read is what the store holds. */
    ghost predicate Valid()
      reads this
    {
      && (forall i :: i in types ==> i in store.rows && Typed(types[i]) && types[i] == store.rows[i].content)
      && (forall i :: i in waited ==> waited[i] == HeldWaiting(store, i))
    }

    constructor (s: Store)
      ensures Valid() && Value() == Fresh(s) && types == map[]
    {
      store := s;
      pending, removed, types, numbers := map[], {}, map[], map[];
      made, gone, waited := map[], {}, map[];
      new;
      assert ByVersion(map[]) == map[];
    }

    /** Refines `Draft.Put`. */
    method Put(i: Iri, a: Artifact)
      requires Valid()
      modifies this`removed, this`pending, this`made
      ensures Valid() && Value() == Draft.Put(old(Value()), i, a)
    {
      removed := removed - {i};
      pending := pending[i := a];
      if Typed(a) {
        OneMoreByVersion(made, i, a);
        var before := if i in made then made[i] else map[];
        made := made[i := before[a.number := a]];
      }
    }

    /** Refines `Draft.Taken`: one entry of `removed` and of `gone` more, and no entry of `made` under the IRI. */
    method Remove(i: Iri)
      requires Valid()
      modifies this`removed, this`gone, this`made
      ensures Valid() && Value() == Taken(old(Value()), i)
    {
      removed := removed + {i};
      gone := gone + {i};
      OneFewerByVersion(made, i);
      made := made - {i};
    }

    predicate Holds(i: Iri)
      reads this
      ensures Holds(i) == Draft.Holds(Value(), i)
    {
      i !in removed && (i in pending || i in store.rows)
    }

    predicate Changed(i: Iri)
      reads this
      ensures Changed(i) == Touched(Value(), i)
    {
      i in pending || i in removed
    }

    /** The artifact at an IRI, a type of the store's kept as it is first read. An artifact the draft removed is asked
        for by none, and answered as it was put or as the store holds it; none where there is neither. */
    method Artifact(i: Iri) returns (found: Option<Artifact>)
      requires Valid()
      modifies this`types
      ensures Valid() && old(types.Keys) <= types.Keys <= old(types.Keys) + {i}
      ensures Holds(i) ==> found == Some(ArtifactAt(Value(), i))
      ensures !Holds(i) && !Changed(i) ==> found.None?
      ensures Holds(i) && !Changed(i) && Typed(ArtifactAt(Value(), i)) ==> i in types
    {
      if i in pending {
        return Some(pending[i]);
      }
      if i in types {
        return Some(types[i]);
      }
      if i !in store.rows {
        return None;
      }
      var content := store.rows[i].content;
      if Typed(content) {
        types := types[i := content];
      }
      return Some(content);
    }

    /** Refines `Draft.TypeVersion`, and caches what it read of a type not yet in the cache. */
    method TypeVersion(v: Named) returns (found: Option<Artifact>)
      modifies this`types
      ensures found == Draft.TypeVersion(Value(), v)
      ensures types ==
        if !Changed(v.of) && v in store.kept && v.of !in old(types) then old(types)[v.of := store.kept[v]] else old(types)
    {
      if v.of in removed {
        return None;
      }
      if v.of !in pending {
        if v !in store.kept {
          return None;
        }
        if v.of !in types {
          types := types[v.of := store.kept[v]];
        }
        return Some(store.kept[v]);
      }
      if Typed(pending[v.of]) && pending[v.of].number == v.number {
        return Some(pending[v.of]);
      }
      if v.of in made && v.number in made[v.of] {
        return Some(made[v.of][v.number]);
      }
      if v.of in gone || v !in store.kept {
        return None;
      }
      return Some(store.kept[v]);
    }

    /** The version of a type the draft keeps, the type read as it stands before any version of it: so whatever version
        is asked for, the type is known at the revision it stands at. */
    method Kept(v: Named) returns (found: Option<Artifact>)
      requires Valid()
      modifies this`types
      ensures Valid() && old(types.Keys) <= types.Keys
      ensures found == Composition.Kept(View(Value()), v)
      ensures found.Some? && !Changed(v.of) ==> v.of in types
    {
      KeptReads(Value(), v);
      hide View, Composition.Kept, Draft.TypeVersion;
      if !Holds(v.of) {
        return None;
      }
      var at := Artifact(v.of);
      if !Typed(at.value) {
        return None;
      }
      found := TypeVersion(v);
    }

    /** Refines `Draft.Numbered`. */
    method Numbered(i: Iri) returns (number: nat)
      requires Valid()
      modifies this`numbers, this`types
      ensures Valid() && Value() == Draft.Numbered(old(Value()), i)
      ensures number == NextNumber(old(Value()), i)
    {
      var last: nat := 0;
      if Holds(i) {
        if i in numbers && numbers[i] != 0 {
          last := numbers[i];
        } else {
          var at := Artifact(i);
          last := at.value.number;
        }
      }
      numbers := numbers[i := last + 1];
      return last + 1;
    }

    /** Of the types given, those in the cache and in neither layer, each with its cached revision. It equals
        `Draft.AsRead` when the cache holds all that stand there. */
    method AsRead(given: seq<Iri>) returns (read: seq<(Iri, nat)>)
      requires Valid()
      ensures forall j, k :: 0 <= j < k < |read| ==> read[j].0 != read[k].0
      ensures forall each :: each in read <==> each.0 in types && each in Draft.AsRead(Value(), given)
      ensures (forall i :: i in given && Holds(i) && !Changed(i) && Typed(ArtifactAt(Value(), i)) ==> i in types) ==>
        forall each :: each in read <==> each in Draft.AsRead(Value(), given)
    {
      read := [];
      for n := 0 to |given|
        invariant forall j, k :: 0 <= j < k < |read| ==> read[j].0 != read[k].0
        invariant forall each :: each in read <==>
          each.0 in given[..n] && each.0 in types && !Changed(each.0) && each.1 == types[each.0].revision
      {
        var i := given[n];
        assert given[..n + 1] == given[..n] + [i];
        if i !in given[..n] && i in types && i !in pending && i !in removed {
          read := read + [(i, types[i].revision)];
        }
      }
      assert given[..|given|] == given;
    }

    /** `HeldWaiting` of the store beneath, kept in `waited` from the first call on. */
    method Waited(i: Iri) returns (found: set<Told>)
      requires Valid()
      modifies this`waited
      ensures Valid() && found == HeldWaiting(store, i) && i in waited
    {
      if i !in waited {
        waited := waited[i := HeldWaiting(store, i)];
      }
      return waited[i];
    }

    /** Refines `Draft.Dropped`. */
    method Dropped(i: Iri) returns (gone: set<string>)
      ensures gone == Draft.Dropped(Value(), i)
    {
      if i !in pending || i in removed || i !in store.rows {
        return {};
      }
      return store.rows[i].content.body.parts - pending[i].body.parts;
    }

    // ---- what the operations of a set do to it

    /** The nearest type held above an IRI, each type read on the way kept as first read. */
    method Nearest(i: Iri) returns (nearest: Option<Iri>)
      requires Valid()
      modifies this`types
      ensures Valid() && nearest == NearestType(View(Value()), i)
    {
      hide View, NearestType;
      NearestAtTop(View(Value()));
      ghost var c := View(Value());
      var at := i;
      while at.within != []
        invariant Valid() && Value() == old(Value()) && NearestType(c, i) == NearestType(c, at)
        decreases |at.within|
      {
        NearestFrom(Value(), at);
        at := Parent(at).value;
        if Holds(at) {
          var found := Artifact(at);
          if Typed(found.value) {
            return Some(at);
          }
        }
      }
      return None;
    }

    /** Whether the draft holds what an operation changes, at the revision it says it was read at. */
    method StandsAsRead(i: Iri, expected: Option<nat>) returns (stands: bool)
      requires Valid()
      modifies this`types
      ensures Valid() && stands == ReadAs(Value(), i, expected)
    {
      if !Holds(i) {
        return false;
      }
      var found := Artifact(i);
      return expected.None? || found.value.revision == expected.value;
    }

    /** Refines `Drafting.Created`; nothing changes unless every check passes. */
    method Create(op: Operation) returns (act: Option<Act>)
      requires Valid() && op.Create?
      modifies this
      ensures Valid() && Does(op, old(Value()), act, Value())
    {
      ghost var d := Value();
      var version := Kept(op.version);
      CreatingAt(d, op, version);
      PlaceTakenIs(d, op.name);
      if version.None? {
        return None;
      }
      hide Acted, View, Composition.Kept, ByVersion, Draft.Put, Draft.Numbered, NextNumber, LiveDraft.Value, PlaceTaken;
      hide PlaceIsTaken, NearestType;
      var defines := op.version.of == TYPES;
      if !defines {
        var nearest := Nearest(op.name);
        if nearest != Some(op.version.of) {
          return None;
        }
      }
      if op.carried || Holds(op.name) || op.problems {
        return None;
      }
      if defines && PlaceIsTaken(Value(), op.name) {
        return None;
      }
      var schema := version.value.schema;
      var body := op.body(schema);
      if body.None? {
        return None;
      }
      var number: nat := 0;
      if defines {
        number := Numbered(op.name);
      }
      var a := PortValues.Artifact(op.version.of, op.version.number, 1, body.value, number, op.schema);
      Put(op.name, a);
      return Some(Act(true, op.name, 1, op.version, Some(a), schema));
    }

    /** An artifact's next revision, conforming to the version it is to move to or the one it conformed to. */
    method Revise(op: Operation) returns (act: Option<Act>)
      requires Valid() && op.Revise?
      modifies this
      ensures Valid() && Does(op, old(Value()), act, Value())
    {
      ghost var d := Value();
      RefusedUnread(d, op);
      var stands := StandsAsRead(op.id, op.expected);
      if !stands {
        return None;
      }
      hide Acted, View, NearestType;
      var found := Artifact(op.id);
      var current := found.value;
      var version := if op.to.None? then Conforming(current) else op.to.value;
      var kept := Kept(version);
      RevisingAt(d, op, current, version, kept);
      hide Acted, View, Composition.Kept, ByVersion, Draft.Put, Draft.Numbered, NextNumber, LiveDraft.Value;
      if op.to.Some? && !(version.of == current.kind && version.number >= current.conforms && kept.Some?) {
        return None;
      }
      if kept.None? {
        return None;
      }
      var made := op.edit(current, kept.value.schema);
      if made.None? {
        return None;
      }
      var done := Next(op.id, current, version, made.value, kept.value.schema);
      return Some(done);
    }

    /** One `Put` of a revision, a type numbered first. */
    method Next(id: Iri, current: Artifact, version: Named, made: (Body, Schema), acted: Schema) returns (act: Act)
      requires Valid()
      modifies this
      ensures Valid()
      ensures var d, typed := old(Value()), Typed(current);
        var a := PortValues.Artifact(current.kind, version.number, current.revision + 1, made.0,
                                     if typed then NextNumber(d, id) else 0, made.1);
        && Value() == Draft.Put(if typed then Draft.Numbered(d, id) else d, id, a)
        && act == Act(false, id, a.revision, version, Some(a), acted)
    {
      hide Draft.Put, Draft.Numbered, NextNumber, ByVersion, LiveDraft.Value;
      var number: nat := 0;
      if Typed(current) {
        number := Numbered(id);
      }
      var a := PortValues.Artifact(current.kind, version.number, current.revision + 1, made.0, number, made.1);
      Put(id, a);
      return Act(false, id, a.revision, version, Some(a), acted);
    }

    /** A whole artifact taken out. */
    method Delete(op: Operation) returns (act: Option<Act>)
      requires Valid() && op.Remove?
      modifies this
      ensures Valid() && Does(op, old(Value()), act, Value())
    {
      ghost var d := Value();
      RefusedUnread(d, op);
      var stands := StandsAsRead(op.id, op.expected);
      if !stands {
        return None;
      }
      RemovingAt(d, op);
      hide Acted, View, Taken, LiveDraft.Value;
      if !op.whole {
        return None;
      }
      var found := Artifact(op.id);
      var was := found.value;
      Remove(op.id);
      return Some(Act(false, op.id, was.revision + 1, Conforming(was), None, was.schema));
    }

    /** A set's operations acted in order, each as the ones before it left the draft; none when one is refused. */
    method ActAll(ops: seq<Operation>) returns (acts: Option<seq<Act>>)
      requires Valid() && Value() == Fresh(store)
      modifies this
      ensures Valid()
      ensures match Applied(store, ops)
        case None => acts.None?
        case Some((d, done)) => acts == Some(done) && Value() == d
    {
      var done := [];
      assert Applied(store, ops[..0]) == Some((Value(), done));
      hide Applied, Acted, Does;
      for k := 0 to |ops|
        invariant Valid() && Applied(store, ops[..k]) == Some((Value(), done))
      {
        var act := None;
        ghost var before := Value();
        match ops[k] {
          case Create(_, _, _, _, _, _) => act := Create(ops[k]);
          case Revise(_, _, _, _) => act := Revise(ops[k]);
          case Remove(_, _, _) => act := Delete(ops[k]);
          case Unreadable => UnreadableIsRefused(before);
        }
        OneMoreDone(store, ops, k, before, done, act, Value());
        if act.None? {
          RefusedByAPrefix(store, ops, k + 1);
          return None;
        }
        done := done + [act.value];
      }
      assert ops[..|ops|] == ops;
      return Some(done);
    }
  }

  /** Whether acting an operation on one draft comes to an act, and leaves another; refused, it leaves the draft. */
  ghost predicate Does(op: Operation, before: Overlay, act: Option<Act>, after: Overlay)
  {
    match Acted(before, op)
    case None => act.None? && after == before
    case Some((left, done)) => act == Some(done) && after == left
  }

  /** What `PlaceTaken` asks, asked of the links and the artifacts there are. */
  predicate PlaceIsTaken(d: Overlay, t: Iri)
  {
    var other := NearestType(View(d), t);
    other.Some? &&
    (|| (other.value != TYPES && exists i :: i in Ids(d, other.value) && t in Above(i))
     || exists source, each :: source in d.pending.Keys + d.store.rows.Keys && each in Carries(d, source)
          && WaitingIn(d, each)
          && ((other.value != TYPES && each.target == t) || NearestWas(View(d), each.target, t)))
  }

  lemma PlaceTakenIs(d: Overlay, t: Iri)
    ensures PlaceIsTaken(d, t) <==> PlaceTaken(d, t)
  {
    var other := NearestType(View(d), t);
    if other.Some? {
      if PlaceTaken(d, t) {
        var i :| Belongs(d, t, other.value, i);
        if i !in Ids(d, other.value) || t !in Above(i) || other.value == TYPES {
          var each :| WaitingIn(d, each) && each.target == i
            && ((other.value != TYPES && i == t) || NearestWas(View(d), i, t));
          assert each.source in d.pending.Keys + d.store.rows.Keys && each in Carries(d, each.source);
        }
      }
      if PlaceIsTaken(d, t) {
        if i :| other.value != TYPES && i in Ids(d, other.value) && t in Above(i) {
          assert Belongs(d, t, other.value, i);
        } else {
          var source, each :| source in d.pending.Keys + d.store.rows.Keys && each in Carries(d, source)
            && WaitingIn(d, each)
            && ((other.value != TYPES && each.target == t) || NearestWas(View(d), each.target, t));
          assert Belongs(d, t, other.value, each.target);
        }
      }
    }
  }

  lemma UnreadableIsRefused(d: Overlay)
    ensures Does(Unreadable, d, None, d)
  {
  }

  lemma OneMoreDone(
    s: Store, ops: seq<Operation>, k: nat, d: Overlay, done: seq<Act>, act: Option<Act>, after: Overlay)
    requires k < |ops| && Applied(s, ops[..k]) == Some((d, done)) && Does(ops[k], d, act, after)
    ensures Applied(s, ops[..k + 1]) == if act.None? then None else Some((after, done + [act.value]))
  {
    assert ops[..k + 1][..k] == ops[..k];
    hide Acted;
  }

  /** `Created` once its schema is looked up. */
  lemma CreatingAt(d: Overlay, op: Operation, version: Option<Artifact>)
    requires op.Create? && version == Composition.Kept(View(d), op.version)
    ensures
      var defines := op.version.of == TYPES;
      if || version.None? || (!defines && NearestType(View(d), op.name) != Some(op.version.of))
         || op.carried || Draft.Holds(d, op.name) || op.problems || (defines && PlaceTaken(d, op.name))
         || op.body(version.value.schema).None?
      then Acted(d, op) == None
      else
        var counted := if defines then Draft.Numbered(d, op.name) else d;
        var number := if defines then NextNumber(d, op.name) else 0;
        var a := PortValues.Artifact(
          op.version.of, op.version.number, 1, op.body(version.value.schema).value, number, op.schema);
        Acted(d, op)
          == Some((Draft.Put(counted, op.name, a), Act(true, op.name, 1, op.version, Some(a), version.value.schema)))
  {
    hide View, Composition.Kept, NearestType, PlaceTaken;
  }

  /** What revising comes to, the version it is revised at found. */
  /** What is not held, or not at the revision named, is neither revised nor removed. */
  lemma RefusedUnread(d: Overlay, op: Operation)
    ensures op.Revise? && !ReadAs(d, op.id, op.expected) ==> Acted(d, op) == None
    ensures op.Remove? && !ReadAs(d, op.id, op.expected) ==> Acted(d, op) == None
  {
    hide View;
  }

  lemma RemovingAt(d: Overlay, op: Operation)
    requires op.Remove? && ReadAs(d, op.id, op.expected)
    ensures var was := ArtifactAt(d, op.id);
      Acted(d, op) == if !op.whole then None
        else Some((Taken(d, op.id), Act(false, op.id, was.revision + 1, Conforming(was), None, was.schema)))
  {
  }

  lemma NearestAtTop(c: Corpus)
    ensures forall at: Iri :: at.within == [] ==> NearestType(c, at) == None
  {
  }

  /** Going up one. */
  lemma NearestFrom(d: Overlay, at: Iri)
    requires at.within != []
    ensures var p := Parent(at).value;
      NearestType(View(d), at) == if Draft.Holds(d, p) && Typed(ArtifactAt(d, p)) then Some(p) else NearestType(View(d), p)
  {
    TypedReads(d, Parent(at).value);
    hide View;
  }

  lemma TypedReads(d: Overlay, i: Iri)
    ensures TypedAt(View(d), i) <==> Draft.Holds(d, i) && Typed(ArtifactAt(d, i))
  {
    ViewReads(d);
  }

  lemma RevisingAt(d: Overlay, op: Operation, current: Artifact, version: Named, kept: Option<Artifact>)
    requires op.Revise? && ReadAs(d, op.id, op.expected) && current == ArtifactAt(d, op.id)
    requires version == if op.to.None? then Conforming(current) else op.to.value
    requires kept == Composition.Kept(View(d), version)
    ensures kept.None? || (op.to.Some? && !(version.of == current.kind && version.number >= current.conforms)) ==>
      Acted(d, op) == None
    ensures kept.Some? && (op.to.Some? ==> version.of == current.kind && version.number >= current.conforms) ==>
      var made := op.edit(current, kept.value.schema);
      if made.None? then Acted(d, op) == None
      else
        var counted := if Typed(current) then Draft.Numbered(d, op.id) else d;
        var number := if Typed(current) then NextNumber(d, op.id) else 0;
        var a := PortValues.Artifact(
          current.kind, version.number, current.revision + 1, made.value.0, number, made.value.1);
        Acted(d, op) == Some((Draft.Put(counted, op.id, a), Act(false, op.id, a.revision, version, Some(a), kept.value.schema)))
  {
    hide View, Composition.Kept;
  }

  lemma {:induction false} RefusedByAPrefix(s: Store, ops: seq<Operation>, n: nat)
    requires n <= |ops| && Applied(s, ops[..n]).None?
    ensures Applied(s, ops).None?
    decreases |ops|
  {
    if n == |ops| {
      assert ops[..n] == ops;
    } else {
      assert ops[..|ops| - 1][..n] == ops[..n];
      RefusedByAPrefix(s, ops[..|ops| - 1], n);
    }
  }
}
