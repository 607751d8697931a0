/** The store, and what landing a set does to it: every change compared and written in order, then the set's links and
    the links into what it takes out judged on the store as it leaves it, all or nothing. */
module Landing {
  import opened Iris
  import opened PortValues

  /** What the store holds of one artifact. `born`, the number of the landing its present life began at, is kept by
      the model alone: no check of the port reads it. */
  datatype Row = Row(
    kind: Iri, revision: nat, content: Artifact, parts: set<string>, links: seq<Stored>, born: nat)

  /** An entry of the history, by its id and its moment. */
  datatype Entry = Entry(id: string, at: string)

  /** The store: its artifacts, the versions kept of its types, its history, and how many sets have landed. */
  datatype Store = Store(rows: map<Iri, Row>, kept: map<Named, Artifact>, entries: seq<Entry>, landings: nat)

  /** One change of a landing. `content` is None for a removal; `through` pairs IRIs with revisions; `number`, of a
      type, is what its content is kept under. */
  datatype Change = Change(
    artifact: Iri, content: Option<Artifact>, links: seq<Link>, parts: set<string>, read: nat, revision: nat,
    through: seq<(Iri, nat)>, kind: Iri, number: Option<nat>)

  /** What landing comes to: the store as the set leaves it, or why nothing landed. `Clash` is the database refusing a
      second version of a type under one number. */
  datatype Outcome = Landed(store: Store) | Conflict | Unlanded | Linked | Clash

  // ---- reading the store

  /** The revision an artifact stands at, 0 when it is not held. */
  function Rev(s: Store, i: Iri): nat
  {
    if i in s.rows then s.rows[i].revision else 0
  }

  function Parts(s: Store, i: Iri): set<string>
  {
    if i in s.rows then s.rows[i].parts else {}
  }

  function Links(s: Store, i: Iri): seq<Stored>
  {
    if i in s.rows then s.rows[i].links else []
  }

  function StoredKey(l: Stored): Key
  {
    Key(l.field, l.holder, l.target, l.part)
  }

  /** Whether a stored link lands on nothing held: its target not held, or lacking the part it names. */
  predicate Waits(s: Store, target: Iri, part: string)
  {
    target !in s.rows || (part != "" && part !in s.rows[target].parts)
  }

  /** The keys of an artifact's links that land on nothing held, in the order it carries them. */
  function WaitingKeys(s: Store, links: seq<Stored>): (keys: seq<Key>)
  {
    if links == [] then []
    else
      var keys := WaitingKeys(s, links[..|links| - 1]);
      var last := links[|links| - 1];
      if !last.implicit && Waits(s, last.target, last.part) then keys + [StoredKey(last)] else keys
  }

  /** `WaitingKeys` of an artifact's stored links, counted as `ToldAll` counts. */
  function HeldWaiting(s: Store, i: Iri): set<Told>
  {
    ToldAll(WaitingKeys(s, Links(s, i)))
  }

  // ---- writing

  function AsStored(l: Link): Stored
  {
    Stored(l.field, l.place, l.target, l.part, l.implicit, l.holder, l.kinds)
  }

  function StoreAll(links: seq<Link>): (stored: seq<Stored>)
  {
    seq(|links|, n requires 0 <= n < |links| => AsStored(links[n]))
  }

  /** One change written: what the artifact held goes, then what the change gives it stands, and with a removal every
      version kept under the IRI goes. */
  function Write(s: Store, c: Change): Store
  {
    match c.content
    case None =>
      s.(rows := s.rows - {c.artifact}, kept := map v | v in s.kept && v.of != c.artifact :: s.kept[v])
    case Some(content) =>
      var born := if c.artifact in s.rows then s.rows[c.artifact].born else s.landings;
      var row := Row(c.kind, c.revision, content, c.parts, StoreAll(c.links), born);
      s.(rows := s.rows[c.artifact := row],
         kept := if c.number.Some? then s.kept[Named(c.artifact, c.number.value) := content] else s.kept)
  }

  predicate Clashes(s: Store, c: Change)
  {
    c.content.Some? && c.number.Some? && Named(c.artifact, c.number.value) in s.kept
  }

  /** The changes compared and written in order. */
  function WriteAll(s: Store, changes: seq<Change>): (r: Outcome)
    ensures r.Landed? || r.Conflict? || r.Clash?
  {
    if changes == [] then Landed(s)
    else
      var before := WriteAll(s, changes[..|changes| - 1]);
      var c := changes[|changes| - 1];
      if !before.Landed? then before
      else if Rev(before.store, c.artifact) != c.read then Conflict
      else if Clashes(before.store, c) then Clash
      else Landed(Write(before.store, c))
  }

  // ---- judging

  function Changed(changes: seq<Change>): set<Iri>
  {
    set k | 0 <= k < |changes| :: changes[k].artifact
  }

  /** Where the last change a set makes to an artifact stands in it. */
  function LastAt(changes: seq<Change>, i: Iri): (at: nat)
    requires i in Changed(changes)
    ensures at < |changes| && changes[at].artifact == i
    ensures forall k :: at < k < |changes| ==> changes[k].artifact != i
  {
    var n := |changes| - 1;
    if changes[n].artifact == i then n else LastAt(changes[..n], i)
  }

  function LinkKeys(links: seq<Link>): (keys: seq<Key>)
  {
    seq(|links|, n requires 0 <= n < |links| => Key(links[n].field, links[n].holder, links[n].target, links[n].part))
  }

  /** What is asked of a link whose target has no row: `under` has one, and is among `kinds`. Not that it is a type. */
  predicate Vouched(s: Store, l: Link)
  {
    !l.implicit && l.under.Some? && l.under.value in l.kinds && l.under.value in s.rows
  }

  /** Whether a link lands on the store the set leaves, `told` as it is told among its artifact's, `waited` the links
      that waited for its artifact before the set. */
  predicate Lands(s: Store, l: Link, told: Option<Told>, waited: set<Told>)
  {
    if l.target !in s.rows then Vouched(s, l)
    else
      && s.rows[l.target].kind in l.kinds
      && (|| l.part == ""
          || l.part in s.rows[l.target].parts
          || l.imported
          || (l.waits && told.Some? && told.value in waited))
  }

  /** Whether every link a change hands lands. */
  predicate ChangeLands(before: Store, after: Store, c: Change)
  {
    c.content.Some? ==>
      forall n :: 0 <= n < |c.links| ==>
        Lands(after, c.links[n], ToldAt(LinkKeys(c.links), n), HeldWaiting(before, c.artifact))
  }

  /** Whether every link the set hands lands, the last change to each artifact handing its links. */
  predicate AllLand(before: Store, after: Store, changes: seq<Change>)
  {
    forall i :: i in Changed(changes) ==> ChangeLands(before, after, changes[LastAt(changes, i)])
  }

  /** Whether a link from an artifact the set leaves alone lands in what the set takes out: an artifact it removes, or
      a part it drops. */
  predicate Severs(before: Store, after: Store, changed: set<Iri>, source: Iri, l: Stored)
  {
    && source !in changed && l.target in changed && Rev(before, l.target) > 0
    && (l.target in after.rows ==> l.part in Parts(before, l.target) - Parts(after, l.target))
  }

  predicate SeversAny(before: Store, after: Store, changed: set<Iri>)
  {
    exists source, l :: source in after.rows && l in after.rows[source].links && Severs(before, after, changed, source, l)
  }

  /** Whether two entries would share an id, both new or one of them there before. */
  predicate IdsTaken(s: Store, entries: seq<Entry>)
  {
    || (exists n, e :: 0 <= n < |entries| && e in s.entries && entries[n].id == e.id)
    || (exists m, n :: 0 <= m < n < |entries| && entries[m].id == entries[n].id)
  }

  /** Every pair of every `through` names a revision that is current, 0 for an IRI with no row. */
  predicate Unmoved(s: Store, changes: seq<Change>)
  {
    forall k, t :: 0 <= k < |changes| && t in changes[k].through ==> Rev(s, t.0) == t.1
  }

  /** A set landed, all of it or nothing. */
  ghost function Land(s: Store, changes: seq<Change>, entries: seq<Entry>): Outcome
  {
    if IdsTaken(s, entries) || !Unmoved(s, changes) then Conflict
    else
      var written := WriteAll(s, changes);
      if !written.Landed? then written
      else if !AllLand(s, written.store, changes) then Unlanded
      else if SeversAny(s, written.store, Changed(changes)) then Linked
      else Landed(written.store.(entries := s.entries + entries, landings := s.landings + 1))
  }

  // ---- what writing leaves

  /** What the last change to an artifact leaves of it. */
  function Left(s: Store, changes: seq<Change>, i: Iri): Option<Row>
  {
    if i !in Changed(changes) then if i in s.rows then Some(s.rows[i]) else None
    else
      var c := changes[LastAt(changes, i)];
      if c.content.None? then None
      else Some(Row(c.kind, c.revision, c.content.value, c.parts, StoreAll(c.links), Born(s, changes, i)))
  }

  /** The landing the life a set leaves an artifact in began at. */
  function Born(s: Store, changes: seq<Change>, i: Iri): nat
  {
    if i in s.rows && forall k :: 0 <= k < |changes| && changes[k].artifact == i ==> changes[k].content.Some? then s.rows[i].born
    else s.landings
  }

  lemma ChangedByOneMore(rest: seq<Change>, c: Change)
    ensures Changed(rest + [c]) == Changed(rest) + {c.artifact}
  {
    var changes := rest + [c];
    assert forall k :: 0 <= k < |rest| ==> changes[k] == rest[k];
    assert changes[|rest|] == c;
  }

  lemma LeftByOneMore(s: Store, rest: seq<Change>, c: Change, i: Iri)
    ensures Left(s, rest + [c], i) ==
      if c.artifact != i then Left(s, rest, i)
      else if c.content.None? then None
      else
        var was := Left(s, rest, i);
        Some(Row(c.kind, c.revision, c.content.value, c.parts, StoreAll(c.links),
                 if was.Some? then was.value.born else s.landings))
  {
    var changes := rest + [c];
    assert changes[..|rest|] == rest && changes[|rest|] == c;
    assert forall k :: 0 <= k < |rest| ==> changes[k] == rest[k];
    ChangedByOneMore(rest, c);
  }

  /** Writing a set leaves each artifact as the last change to it does, and every other as it was, with the versions
      kept of it. */
  lemma {:induction false} WritingLeaves(s: Store, changes: seq<Change>)
    requires WriteAll(s, changes).Landed?
    ensures var after := WriteAll(s, changes).store;
      && after.landings == s.landings && after.entries == s.entries
      && (forall i :: (i in after.rows <==> Left(s, changes, i).Some?)
           && (i in after.rows ==> Left(s, changes, i) == Some(after.rows[i])))
      && (forall v: Named :: v.of !in Changed(changes) ==>
           (v in after.kept <==> v in s.kept) && (v in s.kept ==> after.kept[v] == s.kept[v]))
  {
    if changes != [] {
      var rest, c := changes[..|changes| - 1], changes[|changes| - 1];
      WritingLeaves(s, rest);
      var mid, after := WriteAll(s, rest).store, WriteAll(s, changes).store;
      assert changes == rest + [c];
      forall i
        ensures (i in after.rows <==> Left(s, changes, i).Some?)
        ensures i in after.rows ==> Left(s, changes, i) == Some(after.rows[i])
      {
        LeftByOneMore(s, rest, c, i);
      }
      ChangedByOneMore(rest, c);
    }
  }

  /** Whether one of a set's changes makes a version. */
  predicate Makes(changes: seq<Change>, k: int, v: Named)
  {
    0 <= k < |changes| && changes[k].content.Some? && changes[k].artifact == v.of && changes[k].number == Some(v.number)
  }

  /** What a set that removes nothing leaves kept of what was: all of that, as it was; and beside it exactly the versions
      its changes make, none of them kept before. */
  ghost predicate KeepsAndAdds(before: map<Named, Artifact>, changes: seq<Change>, after: map<Named, Artifact>)
  {
    && (forall v :: v in before ==> v in after && after[v] == before[v])
    && (forall v :: v in after && v !in before ==> exists k :: Makes(changes, k, v))
    && (forall k, v :: Makes(changes, k, v) ==> v !in before && v in after && changes[k].content == Some(after[v]))
  }

  lemma MakesOneMore(rest: seq<Change>, c: Change, k: int, v: Named)
    ensures Makes(rest + [c], k, v) <==> Makes(rest, k, v) || (k == |rest| && Makes([c], 0, v))
  {
  }

  lemma OneMoreAdded(before: map<Named, Artifact>, rest: seq<Change>, c: Change, mid: map<Named, Artifact>)
    requires KeepsAndAdds(before, rest, mid) && c.content.Some?
    requires c.number.Some? ==> Named(c.artifact, c.number.value) !in mid
    ensures KeepsAndAdds(before, rest + [c],
      if c.number.Some? then mid[Named(c.artifact, c.number.value) := c.content.value] else mid)
  {
    var after := if c.number.Some? then mid[Named(c.artifact, c.number.value) := c.content.value] else mid;
    var changes := rest + [c];
    assert changes[|rest|] == c && forall k :: 0 <= k < |rest| ==> changes[k] == rest[k];
    forall k, v | Makes(changes, k, v)
      ensures v !in before && v in after && changes[k].content == Some(after[v])
    {
      MakesOneMore(rest, c, k, v);
    }
    forall v | v in after && v !in before
      ensures exists k :: Makes(changes, k, v)
    {
      if v in mid {
        var k :| Makes(rest, k, v);
        assert Makes(changes, k, v);
      } else {
        assert Makes(changes, |rest|, v);
      }
    }
  }

  lemma {:induction false} WritingKeepsAndAdds(s: Store, changes: seq<Change>)
    requires WriteAll(s, changes).Landed? && forall k :: 0 <= k < |changes| ==> changes[k].content.Some?
    ensures KeepsAndAdds(s.kept, changes, WriteAll(s, changes).store.kept)
  {
    if changes != [] {
      var rest, c := changes[..|changes| - 1], changes[|changes| - 1];
      assert changes == rest + [c];
      hide KeepsAndAdds;
      WritingKeepsAndAdds(s, rest);
      OneMoreAdded(s.kept, rest, c, WriteAll(s, rest).store.kept);
    }
  }
}
