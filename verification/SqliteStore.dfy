/** The adapter's tables, changed in place: a set written step by step inside its transaction, checked as it is
    written, and taken back whole when anything refuses it. */
module SqliteStore {
  import opened Iris
  import opened PortValues
  import opened Landing

  /** A row of the artifacts' table. */
  datatype Held = Held(kind: Iri, revision: nat, content: Artifact)

  /** What a landing answers: done, or which refusal was raised. */
  datatype Answer = Done | Moved | NotLanding | LinkedInto | Broken

  function Answering(o: Outcome): Answer
  {
    match o
    case Landed(_) => Done
    case Conflict => Moved
    case Unlanded => NotLanding
    case Linked => LinkedInto
    case Clash => Broken
  }

  /** The tables as a transaction found them, to go back to. */
  datatype Tables = Tables(
    artifacts: map<Iri, Held>, parts: map<Iri, set<string>>, links: map<Iri, seq<Stored>>,
    versions: map<Named, Artifact>, entries: seq<Entry>, sets: nat)

  /** The rows the tables come to. */
  ghost function Rows(
    artifacts: map<Iri, Held>, parts: map<Iri, set<string>>, links: map<Iri, seq<Stored>>, born: map<Iri, nat>
  ): (rows: map<Iri, Row>)
    requires artifacts.Keys == parts.Keys == links.Keys == born.Keys
    ensures rows.Keys == artifacts.Keys
  {
    map i | i in artifacts ::
      Row(artifacts[i].kind, artifacts[i].revision, artifacts[i].content, parts[i], links[i], born[i])
  }

  lemma RowsDeleted(
    artifacts: map<Iri, Held>, parts: map<Iri, set<string>>, links: map<Iri, seq<Stored>>, born: map<Iri, nat>, i: Iri)
    requires artifacts.Keys == parts.Keys == links.Keys == born.Keys
    ensures (artifacts - {i}).Keys == (parts - {i}).Keys == (links - {i}).Keys == (born - {i}).Keys
    ensures Rows(artifacts - {i}, parts - {i}, links - {i}, born - {i}) == Rows(artifacts, parts, links, born) - {i}
  {
  }

  lemma RowsInserted(
    artifacts: map<Iri, Held>, parts: map<Iri, set<string>>, links: map<Iri, seq<Stored>>, born: map<Iri, nat>,
    i: Iri, held: Held, places: set<string>, carried: seq<Stored>, since: nat)
    requires artifacts.Keys == parts.Keys == links.Keys == born.Keys
    ensures artifacts[i := held].Keys == parts[i := places].Keys == links[i := carried].Keys == born[i := since].Keys
    ensures Rows(artifacts[i := held], parts[i := places], links[i := carried], born[i := since])
      == Rows(artifacts, parts, links, born)[i := Row(held.kind, held.revision, held.content, places, carried, since)]
  {
  }

  class Database {
    var artifacts: map<Iri, Held>
    var parts: map<Iri, set<string>>
    var links: map<Iri, seq<Stored>>
    var versions: map<Named, Artifact>
    var entries: seq<Entry>
    var sets: nat
    var locked: bool
    var began: Tables
    ghost var born: map<Iri, nat>
    ghost var bornThen: map<Iri, nat>

    /** The tables agree on what is held, and did when the write lock was taken. */
    ghost predicate Valid()
      reads this
    {
      && artifacts.Keys == parts.Keys == links.Keys == born.Keys
      && (locked ==> began.artifacts.Keys == began.parts.Keys == began.links.Keys == bornThen.Keys)
    }

    /** What the tables held when the write lock was taken. */
    ghost function Began(): Store
      reads this
      requires Valid() && locked
    {
      Store(Rows(began.artifacts, began.parts, began.links, bornThen), began.versions, began.entries, began.sets)
    }

    /** What the tables hold, as the landing numbered `landed` reads them. */
    ghost function Read(landed: nat): Store
      reads this
      requires Valid()
    {
      Store(Rows(artifacts, parts, links, born), versions, entries, landed)
    }

    ghost function Contents(): Store
      reads this
      requires Valid()
    {
      Read(sets)
    }

    /** A database of no artifacts, no versions and no history. */
    constructor ()
      ensures Valid() && Contents() == Store(map[], map[], [], 0) && !locked
    {
      artifacts, parts, links, versions, entries := map[], map[], map[], map[], [];
      sets, locked, born := 0, false, map[];
      began, bornThen := Tables(map[], map[], map[], map[], [], 0), map[];
    }

    /** The write lock taken, unless a block around this one holds it. */
    method Take() returns (taken: bool)
      requires Valid()
      modifies this`locked, this`began, this`bornThen
      ensures Valid() && locked && taken == !old(locked) && Contents() == old(Contents())
      ensures Began() == if taken then old(Contents()) else old(Began())
    {
      if locked {
        return false;
      }
      began, bornThen := Tables(artifacts, parts, links, versions, entries, sets), born;
      locked := true;
      return true;
    }

    /** The write lock given up by the block that took it: committed, or everything since taken back. */
    method Give(taken: bool, committed: bool)
      requires Valid() && locked
      modifies this
      ensures Valid() && locked == !taken
      ensures Contents() == if taken && !committed then old(Began()) else old(Contents())
      ensures !taken ==> Began() == old(Began())
    {
      if !taken {
        return;
      }
      if !committed {
        artifacts, parts, links, versions := began.artifacts, began.parts, began.links, began.versions;
        entries, sets, born := began.entries, began.sets, bornThen;
      }
      locked := false;
    }

    /** The revision an artifact stands at, 0 when it is not held. */
    function Revision(i: Iri): nat
      reads this
    {
      if i in artifacts then artifacts[i].revision else 0
    }

    function PartsOf(i: Iri): set<string>
      reads this
    {
      if i in parts then parts[i] else {}
    }

    /** The keys of an artifact's waiting links, in the order it carries them. */
    method Waiting(i: Iri) returns (keys: seq<Key>)
      requires Valid()
      ensures forall landed :: keys == WaitingKeys(Read(landed), Landing.Links(Read(landed), i))
    {
      keys := [];
      var carried := if i in links then links[i] else [];
      ghost var s := Read(0);
      for n := 0 to |carried|
        invariant keys == WaitingKeys(s, carried[..n])
      {
        var l := carried[n];
        assert carried[..n + 1][..n] == carried[..n];
        if !l.implicit && (l.target !in artifacts || (l.part != "" && l.part !in parts[l.target])) {
          keys := keys + [Key(l.field, l.holder, l.target, l.part)];
        }
      }
      assert carried[..|carried|] == carried == Landing.Links(s, i);
      forall landed
        ensures WaitingKeys(Read(landed), carried) == WaitingKeys(s, carried)
      {
        WaitingReadsRowsOnly(s, Read(landed), carried);
      }
    }

    /** Everything the tables hold of an artifact, but the versions kept under its IRI, deleted. */
    method Deleted(name: Iri)
      requires Valid()
      modifies this`artifacts, this`parts, this`links, this`born
      ensures Valid()
      ensures forall landed :: Read(landed) == old(Read(landed)).(rows := old(Read(landed)).rows - {name})
    {
      RowsDeleted(artifacts, parts, links, born, name);
      parts := parts - {name};
      artifacts := artifacts - {name};
      links := links - {name};
      born := born - {name};
    }

    /** A row inserted, with its links and its parts. */
    method Inserted(name: Iri, held: Held, places: set<string>, carried: seq<Stored>, ghost since: nat)
      requires Valid()
      modifies this`artifacts, this`parts, this`links, this`born
      ensures Valid()
      ensures forall landed :: Read(landed) == old(Read(landed)).(
        rows := old(Read(landed)).rows[name := Row(held.kind, held.revision, held.content, places, carried, since)])
    {
      RowsInserted(artifacts, parts, links, born, name, held, places, carried, since);
      links := links[name := carried];
      artifacts := artifacts[name := held];
      parts := parts[name := places];
      born := born[name := since];
    }

    /** One change written: what the artifact held deleted from every table, then what the change leaves inserted;
        false when the database refuses its version, one of that number being kept. */
    method Written(c: Change, ghost landed: nat) returns (made: bool)
      requires Valid()
      modifies this`artifacts, this`parts, this`links, this`versions, this`born
      ensures Valid()
      ensures made == !Clashes(old(Read(landed)), c)
      ensures made ==> Read(landed) == Write(old(Read(landed)), c)
    {
      var name := c.artifact;
      ghost var before := Read(landed);
      ghost var since := if name in born then born[name] else landed;
      Deleted(name);
      if c.content.None? {
        versions := map v | v in versions && v.of != name :: versions[v];
        return true;
      }
      Inserted(name, Held(c.kind, c.revision, c.content.value), c.parts, StoreAll(c.links), since);
      assert Read(landed).rows == Write(before, c).rows by {
        RowTwice(before.rows, name, Read(landed).rows[name]);
      }
      if c.number.Some? {
        if Named(name, c.number.value) in versions {
          return false;
        }
        versions := versions[Named(name, c.number.value) := c.content.value];
      }
      return true;
    }

    /** `HeldWaiting` of every artifact changed, taken while the tables are as they were. */
    method WaitedFor(changes: seq<Change>) returns (waited: map<Iri, set<Told>>)
      requires Valid()
      ensures waited.Keys == Changed(changes)
      ensures forall landed, i :: i in waited ==> waited[i] == HeldWaiting(Read(landed), i)
    {
      waited := map[];
      for n := 0 to |changes|
        invariant waited.Keys == Changed(changes[..n])
        invariant forall landed, i :: i in waited ==> waited[i] == HeldWaiting(Read(landed), i)
      {
        var keys := Waiting(changes[n].artifact);
        waited := waited[changes[n].artifact := ToldAll(keys)];
        assert changes[..n + 1] == changes[..n] + [changes[n]];
        ChangedByOneMore(changes[..n], changes[n]);
      }
      assert changes[..|changes|] == changes;
    }

    /** Whether everything the changes were read through stands as it was read. */
    predicate Compared(changes: seq<Change>)
      reads this
    {
      forall k, t :: 0 <= k < |changes| && t in changes[k].through ==> Revision(t.0) == t.1
    }

    /** Whether a link the set hands lands, asked of the tables as the set leaves them. */
    predicate LandsHere(l: Link, told: Option<Told>, waited: set<Told>)
      reads this
      requires Valid()
    {
      if l.target !in artifacts then
        !l.implicit && l.under.Some? && l.under.value in l.kinds && l.under.value in artifacts
      else if artifacts[l.target].kind !in l.kinds then false
      else if l.part == "" || l.part in parts[l.target] then true
      else l.imported || (l.waits && told.Some? && told.value in waited)
    }

    /** Collects every stored link for which `Severs` holds. */
    method LinkedIntoGone(before: map<Iri, (nat, set<string>)>, ghost was: Store, ghost landed: nat)
      returns (linked: set<Linking>)
      requires Valid()
      requires forall i :: i in before ==> before[i] == (Rev(was, i), Landing.Parts(was, i))
      ensures linked != {} <==> SeversAny(was, Read(landed), before.Keys)
    {
      linked := {};
      var judged := {};
      while judged != before.Keys
        invariant judged <= before.Keys
        invariant linked != {} <==> SeversAmong(was, Read(landed), before.Keys, judged)
        decreases before.Keys - judged
      {
        assert exists i :: i in before.Keys && i !in judged;
        var i :| i in before.Keys && i !in judged;
        var (held, places) := before[i];
        var gone := places - PartsOf(i);
        if held > 0 {
          var into := set source, l |
            source in links && l in links[source] && l.target == i && source !in before
            && (i in artifacts ==> l.part in gone)
            :: Linking(source, l.field, l.place, l.target, l.part, l.holder);
          assert into != {} <==> SeversAmong(was, Read(landed), before.Keys, {i}) by {
            SeveredAreListed(was, Read(landed), before.Keys, i, into);
          }
          linked := linked + into;
        }
        judged := judged + {i};
      }
    }

    /** A set landed in one transaction: all of it, or the tables as they were and the refusal. Inside a block that
        holds the write lock the refusal takes back the set alone, and the block can still take back everything. */
    method Land(changes: seq<Change>, added: seq<Entry>) returns (answer: Answer)
      requires Valid()
      modifies this
      ensures Valid() && locked == old(locked)
      ensures locked ==> Began() == old(Began())
      ensures answer == Answering(Landing.Land(old(Contents()), changes, added))
      ensures answer == Done ==> Contents() == Landing.Land(old(Contents()), changes, added).store
      ensures answer != Done ==> Contents() == old(Contents())
    {
      var taken := Take();
      answer := Saved(changes, added);
      Give(taken, answer == Done);
    }

    /** Refines `Landing.Land` with the tables put back on any refusal. */
    method Saved(changes: seq<Change>, added: seq<Entry>) returns (answer: Answer)
      requires Valid() && locked
      modifies this`artifacts, this`parts, this`links, this`versions, this`born, this`sets, this`entries
      ensures Valid() && Began() == old(Began())
      ensures answer == Answering(Landing.Land(old(Contents()), changes, added))
      ensures answer == Done ==> Contents() == Landing.Land(old(Contents()), changes, added).store
      ensures answer != Done ==> Contents() == old(Contents())
    {
      var saved := Tables(artifacts, parts, links, versions, entries, sets);
      ghost var born' := born;
      answer := Checked(changes, added);
      if answer == Done {
        entries := entries + added;
      } else {
        artifacts, parts, links, versions := saved.artifacts, saved.parts, saved.links, saved.versions;
        entries, sets, born := saved.entries, saved.sets, born';
      }
    }

    /** Whether no entry's id is held already, or given twice. */
    predicate Unheld(added: seq<Entry>)
      reads this`entries
    {
      && (forall n, e :: 0 <= n < |added| && e in entries ==> added[n].id != e.id)
      && (forall m, n :: 0 <= m < n < |added| ==> added[m].id != added[n].id)
    }

    /** The set compared, written and judged, whatever it comes to left in the tables. */
    method Checked(changes: seq<Change>, added: seq<Entry>) returns (answer: Answer)
      requires Valid()
      modifies this`artifacts, this`parts, this`links, this`versions, this`born, this`sets
      ensures Valid()
      ensures answer == Answering(Landing.Land(old(Contents()), changes, added))
      ensures answer == Done ==>
        Contents().(entries := entries + added) == Landing.Land(old(Contents()), changes, added).store
    {
      ghost var s := Contents();
      if !Unheld(added) {
        return Moved;
      }
      sets := sets + 1;
      if !Compared(changes) {
        return Moved;
      }
      answer := Transacted(changes, s);
      assert !IdsTaken(s, added) && Unmoved(s, changes);
    }

    /** The set written in order, then judged. */
    method Transacted(changes: seq<Change>, ghost s: Store) returns (answer: Answer)
      requires Valid() && s == Read(s.landings)
      modifies this`artifacts, this`parts, this`links, this`versions, this`born
      ensures Valid()
      ensures answer ==
        var written := WriteAll(s, changes);
        if !written.Landed? then Answering(written)
        else if !AllLand(s, written.store, changes) then NotLanding
        else if SeversAny(s, written.store, Changed(changes)) then LinkedInto
        else Done
      ensures answer == Done ==> Read(s.landings) == WriteAll(s, changes).store
    {
      var waited := WaitedFor(changes);
      var before;
      answer, before := Stepped(changes, s.landings);
      if answer == Done {
        answer := Integral(changes, before, waited, s, s.landings);
      }
    }

    /** Every change compared and written in order, each artifact's revision and parts noted as they were before. */
    method Stepped(changes: seq<Change>, ghost landed: nat)
      returns (answer: Answer, before: map<Iri, (nat, set<string>)>)
      requires Valid()
      modifies this`artifacts, this`parts, this`links, this`versions, this`born
      ensures Valid()
      ensures answer == Answering(WriteAll(old(Read(landed)), changes))
      ensures answer == Done ==> Landed(Read(landed)) == WriteAll(old(Read(landed)), changes)
      ensures answer == Done ==> before.Keys == Changed(changes)
      ensures answer == Done ==> forall i :: i in before ==>
        before[i] == (Rev(old(Read(landed)), i), Landing.Parts(old(Read(landed)), i))
    {
      ghost var s := Read(landed);
      before := map[];
      for step := 0 to |changes|
        invariant Valid()
        invariant WriteAll(s, changes[..step]) == Landed(Read(landed))
        invariant before.Keys == Changed(changes[..step])
        invariant forall i :: i in before ==> before[i] == (Rev(s, i), Landing.Parts(s, i))
      {
        var c := changes[step];
        assert changes[..step + 1] == changes[..step] + [c];
        ChangedByOneMore(changes[..step], c);
        if Revision(c.artifact) != c.read {
          StoppedByAPrefix(s, changes, step + 1);
          return Moved, before;
        }
        if c.artifact !in before {
          UnchangedSoFar(s, changes[..step], Read(landed), c.artifact);
          before := before[c.artifact := (Revision(c.artifact), PartsOf(c.artifact))];
        }
        var made := Written(c, landed);
        if !made {
          StoppedByAPrefix(s, changes, step + 1);
          return Broken, before;
        }
      }
      assert changes[..|changes|] == changes;
      return Done, before;
    }

    /** Whether every link a change hands lands, asked of the tables as the set leaves them. */
    method Judged(c: Change, waited: set<Told>, ghost s: Store, ghost landed: nat) returns (lands: bool)
      requires Valid()
      requires waited == HeldWaiting(s, c.artifact)
      ensures lands == ChangeLands(s, Read(landed), c)
    {
      if c.content.None? {
        return true;
      }
      var told := TellApart(LinkKeys(c.links));
      for n := 0 to |c.links|
        invariant forall m :: 0 <= m < n ==>
          Lands(Read(landed), c.links[m], ToldAt(LinkKeys(c.links), m), waited)
      {
        assert LandsHere(c.links[n], told[n], waited)
          == Lands(Read(landed), c.links[n], ToldAt(LinkKeys(c.links), n), waited);
        if !LandsHere(c.links[n], told[n], waited) {
          return false;
        }
      }
      return true;
    }

    /** The set judged on the tables as it left them: every link it hands, then every link from outside into what it
        takes out. */
    method Integral(changes: seq<Change>, before: map<Iri, (nat, set<string>)>, waited: map<Iri, set<Told>>,
                    ghost s: Store, ghost landed: nat)
      returns (answer: Answer)
      requires Valid()
      requires before.Keys == waited.Keys == Changed(changes)
      requires forall i :: i in before ==> before[i] == (Rev(s, i), Landing.Parts(s, i))
      requires forall i :: i in waited ==> waited[i] == HeldWaiting(s, i)
      ensures answer ==
        if !AllLand(s, Read(landed), changes) then NotLanding
        else if SeversAny(s, Read(landed), Changed(changes)) then LinkedInto
        else Done
    {
      var judged := {};
      while judged != before.Keys
        invariant judged <= before.Keys
        invariant forall i :: i in judged ==> ChangeLands(s, Read(landed), changes[LastAt(changes, i)])
        decreases before.Keys - judged
      {
        assert exists i :: i in before.Keys && i !in judged;
        var i :| i in before.Keys && i !in judged;
        var lands := Judged(changes[LastAt(changes, i)], waited[i], s, landed);
        if !lands {
          return NotLanding;
        }
        judged := judged + {i};
      }
      var linked := LinkedIntoGone(before, s, landed);
      assert SeversAmong(s, Read(landed), before.Keys, before.Keys)
        == SeversAny(s, Read(landed), Changed(changes));
      answer := if linked != {} then LinkedInto else Done;
    }
  }

  lemma UnchangedSoFar(s: Store, changes: seq<Change>, t: Store, i: Iri)
    requires WriteAll(s, changes) == Landed(t) && i !in Changed(changes)
    ensures Rev(t, i) == Rev(s, i) && Landing.Parts(t, i) == Landing.Parts(s, i)
  {
    WritingLeaves(s, changes);
  }

  /** A set stopped partway comes to what its changes so far come to. */
  lemma {:induction false} StoppedByAPrefix(s: Store, changes: seq<Change>, step: nat)
    requires step <= |changes| && !WriteAll(s, changes[..step]).Landed?
    ensures WriteAll(s, changes) == WriteAll(s, changes[..step])
    decreases |changes|
  {
    if step == |changes| {
      assert changes[..step] == changes;
    } else {
      var rest := changes[..|changes| - 1];
      assert rest[..step] == changes[..step];
      StoppedByAPrefix(s, rest, step);
    }
  }

  /** Whether a link from outside lands in what is taken out of one of the artifacts judged. */
  ghost predicate SeversAmong(was: Store, after: Store, changed: set<Iri>, judged: set<Iri>)
  {
    exists source, l :: source in after.rows && l in after.rows[source].links && l.target in judged
                        && Severs(was, after, changed, source, l)
  }

  lemma SeveredAreListed(was: Store, after: Store, changed: set<Iri>, i: Iri, into: set<Linking>)
    requires i in changed && Rev(was, i) > 0
    requires into == set source, l |
      source in after.rows && l in after.rows[source].links && l.target == i && source !in changed
      && (i in after.rows ==> l.part in Landing.Parts(was, i) - Landing.Parts(after, i))
      :: Linking(source, l.field, l.place, l.target, l.part, l.holder)
    ensures into != {} <==> SeversAmong(was, after, changed, {i})
  {
    if SeversAmong(was, after, changed, {i}) {
      var source, l :| source in after.rows && l in after.rows[source].links && l.target in {i}
                       && Severs(was, after, changed, source, l);
      assert Linking(source, l.field, l.place, l.target, l.part, l.holder) in into;
    }
    if into != {} {
      var each :| each in into;
      var source, l :| source in after.rows && l in after.rows[source].links && l.target == i && source !in changed
        && (i in after.rows ==> l.part in Landing.Parts(was, i) - Landing.Parts(after, i))
        && each == Linking(source, l.field, l.place, l.target, l.part, l.holder);
      assert Severs(was, after, changed, source, l);
    }
  }

  lemma RowTwice(rows: map<Iri, Row>, i: Iri, row: Row)
    ensures (rows - {i})[i := row] == rows[i := row]
  {
  }

  lemma WaitingReadsRowsOnly(s: Store, t: Store, links: seq<Stored>)
    requires s.rows == t.rows
    ensures WaitingKeys(s, links) == WaitingKeys(t, links)
  {
    if links != [] {
      WaitingReadsRowsOnly(s, t, links[..|links| - 1]);
    }
  }
}
