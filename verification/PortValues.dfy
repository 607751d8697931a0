/** The values the storage port takes and gives: artifacts and the versions of types they conform to, the links a
    change hands, and what tells one link of an artifact from every other. */
module PortValues {
  import opened Iris

  /** Names a version: an IRI and a number. */
  datatype Named = Named(of: Iri, number: nat)

  /** What a link field says it may land on: the kinds, and whether a part may be named. */
  datatype Ref = Ref(targets: set<Iri>, parts: bool)

  /** A link as content carries it: its field, what holds the field, its place, and the IRI and the part it names,
      the part empty for the artifact itself. */
  datatype Value = Value(field: string, holder: string, place: string, target: Iri, part: string)

  /** The place of a part, which is never empty: a collection's name and an item's. */
  type Part = p: string | p != "" witness "items/one"

  /** What an artifact holds but what the store settles: its text, the links it carries in the order it carries them,
      and the places of its parts. */
  datatype Body = Body(text: string, values: seq<Value>, parts: set<Part>)

  /** A reference from a type's schema to a version of a type, to the whole of it or to a shape inside it. */
  datatype Reading = Reading(to: Named, whole: bool)

  /** A type's schema, flattened through what it is built on: the link fields it declares, the versions it refers to,
      whether its keywords stand where they are read, and the contents that fit it. */
  datatype Schema = Schema(declares: map<string, Ref>, refers: seq<Reading>, sound: bool, fits: Body -> bool)

  /** What a row's content is: `kind` and `conforms` name a version; `number` and `schema` say something of a type
      alone. */
  datatype Artifact = Artifact(kind: Iri, conforms: nat, revision: nat, body: Body, number: nat, schema: Schema)

  /** A type is whatever is of this kind, itself included. */
  const TYPES: Iri := Iri("missingmass.io", ["kb"], "type")

  predicate Typed(a: Artifact)
  {
    a.kind == TYPES
  }

  function Conforming(a: Artifact): Named
  {
    Named(a.kind, a.conforms)
  }

  /** A link a change hands the port. */
  datatype Link = Link(
    field: string, place: string, target: Iri, part: string, kinds: set<Iri>, implicit: bool, under: Option<Iri>,
    waits: bool, holder: Option<string>, imported: bool)

  /** A link as the store holds it, under its artifact's name; `kinds`, what its field allows, is kept by the model
      alone: the database has no such column and no check of the port reads it. */
  datatype Stored = Stored(
    field: string, place: string, target: Iri, part: string, implicit: bool, holder: Option<string>, kinds: set<Iri>)

  /** A link as a read of links gives it, with the artifact holding it. */
  datatype Linking = Linking(
    source: Iri, field: string, place: string, target: Iri, part: string, holder: Option<string>)

  /** What two links of one artifact share when only their number tells them apart. */
  datatype Key = Key(field: string, holder: Option<string>, target: Iri, part: string)

  /** What tells a link from every other of its artifact: its key, and how many links before it have that key. */
  datatype Told = Told(key: Key, before: nat)

  /** What tells the link at a place in a list of links, given by their keys; none for one of no holder. */
  function ToldAt(keys: seq<Key>, i: nat): (told: Option<Told>)
    requires i < |keys|
  {
    if keys[i].holder.None? then None else Some(Told(keys[i], multiset(keys[..i])[keys[i]]))
  }

  /** The counting loop behind `ToldAt`: `seen` holds one less than each key's count so far. */
  method TellApart(keys: seq<Key>) returns (found: seq<Option<Told>>)
    ensures |found| == |keys|
    ensures forall i :: 0 <= i < |keys| ==> found[i] == ToldAt(keys, i)
  {
    var seen: map<Key, nat> := map[];
    found := [];
    for n := 0 to |keys|
      invariant |found| == n
      invariant forall i :: 0 <= i < n ==> found[i] == ToldAt(keys, i)
      invariant forall k :: k in seen <==> k in keys[..n]
      invariant forall k :: k in seen ==> seen[k] + 1 == multiset(keys[..n])[k]
    {
      var key := keys[n];
      assert keys[..n + 1] == keys[..n] + [key];
      assert key !in seen ==> multiset(keys[..n])[key] == 0;
      seen := seen[key := if key in seen then seen[key] + 1 else 0];
      found := found + [if key.holder.None? then None else Some(Told(key, seen[key]))];
    }
  }

  /** The links of an artifact that can be told, each as it is told. */
  function ToldAll(keys: seq<Key>): (told: set<Told>)
  {
    set i | 0 <= i < |keys| && keys[i].holder.Some? :: ToldAt(keys, i).value
  }

  /** What one link more, at the end, adds to what is told. */
  lemma ToldOneMore(rest: seq<Key>, last: Key)
    ensures ToldAll(rest + [last]) ==
      ToldAll(rest) + if last.holder.None? then {} else {Told(last, multiset(rest)[last])}
  {
    var keys := rest + [last];
    assert keys[..|rest|] == rest;
    forall i | 0 <= i < |rest|
      ensures ToldAt(keys, i) == ToldAt(rest, i)
    {
      assert keys[..i] == rest[..i];
    }
    forall told | told in ToldAll(rest)
      ensures told in ToldAll(keys)
    {
      var i :| 0 <= i < |rest| && rest[i].holder.Some? && ToldAt(rest, i).value == told;
      assert keys[i].holder.Some? && ToldAt(keys, i).value == told;
    }
    if last.holder.Some? {
      assert keys[|rest|].holder.Some? && ToldAt(keys, |rest|).value == Told(last, multiset(rest)[last]);
    }
  }

  /** Whether a told link is one of those the copies of its key in a list are told by: the numbers from 0 up to how
      many there are, without a gap. */
  predicate Counted(told: Told, held: multiset<Key>)
  {
    told.key.holder.Some? && told.before < held[told.key]
  }

  /** What is told of a list of links depends on which links it holds, never on where they stand. */
  lemma {:induction false} ToldByCounting(keys: seq<Key>)
    ensures forall told :: told in ToldAll(keys) <==> Counted(told, multiset(keys))
  {
    if keys != [] {
      var rest, last := keys[..|keys| - 1], keys[|keys| - 1];
      ToldByCounting(rest);
      OneMoreCounted(rest, last);
      assert keys == rest + [last];
    }
  }

  lemma OneMoreCounted(rest: seq<Key>, last: Key)
    requires forall told :: told in ToldAll(rest) <==> Counted(told, multiset(rest))
    ensures forall told :: told in ToldAll(rest + [last]) <==> Counted(told, multiset(rest + [last]))
  {
    ToldOneMore(rest, last);
    assert multiset(rest + [last]) == multiset(rest) + multiset{last};
  }

  /** A list moved about, its links kept, is told the same. */
  lemma ToldWhereverItStands(keys: seq<Key>, moved: seq<Key>)
    requires multiset(keys) == multiset(moved)
    ensures ToldAll(keys) == ToldAll(moved)
  {
    ToldByCounting(keys);
    ToldByCounting(moved);
  }

  /** The links of a list that a test of their key keeps. */
  ghost function Keeping(keys: seq<Key>, keep: Key -> bool): (kept: seq<Key>)
  {
    if keys == [] then []
    else
      var kept := Keeping(keys[..|keys| - 1], keep);
      var last := keys[|keys| - 1];
      if keep(last) then kept + [last] else kept
  }

  lemma {:induction false} KeepingCounts(keys: seq<Key>, keep: Key -> bool, key: Key)
    ensures multiset(Keeping(keys, keep))[key] == if keep(key) then multiset(keys)[key] else 0
  {
    if keys == [] {
    } else {
      KeepingCounts(keys[..|keys| - 1], keep, key);
      assert keys == keys[..|keys| - 1] + [keys[|keys| - 1]];
    }
  }

  /** Telling links apart and then keeping some, by a test of what they name, tells what keeping them first tells. */
  lemma TellingCommutesWithKeeping(keys: seq<Key>, keep: Key -> bool)
    ensures ToldAll(Keeping(keys, keep)) == set told | told in ToldAll(keys) && keep(told.key)
  {
    ToldByCounting(keys);
    ToldByCounting(Keeping(keys, keep));
    forall told: Told
      ensures told in ToldAll(Keeping(keys, keep)) <==> told in ToldAll(keys) && keep(told.key)
    {
      KeepingCounts(keys, keep, told.key);
    }
  }
}
