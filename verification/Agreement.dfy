/** A set drafted against a store lands on it as drafted: it never conflicts, every link the draft accepted lands, and
    what the draft reads is what the store then holds. */
module Agreement {
  import opened Iris
  import opened PortValues
  import opened Landing
  import opened Composition
  import opened Links
  import opened Draft
  import opened Drafting
  import opened Invariants
  import opened Applying
  import Order

  /** What a change handed over says of what an operation did, whether or not it is the last to its artifact. */
  ghost predicate Bare(act: Act, c: Change)
  {
    && c.artifact == act.id && c.content == act.left && c.revision == act.revision && c.read + 1 == act.revision
    && (act.left.Some? ==>
         c.kind == act.left.value.kind
         && c.number == if Typed(act.left.value) then Some(act.left.value.number) else None)
  }

  ghost predicate AllBare(acts: seq<Act>, changes: seq<Change>)
  {
    |acts| == |changes| && forall k :: 0 <= k < |acts| ==> Bare(acts[k], changes[k])
  }

  lemma HandedAreBare(s: Store, ops: seq<Operation>)
    requires Planned(s, ops).Drafted?
    requires forall k :: 0 <= k < |Planned(s, ops).acts| ==> Planned(s, ops).acts[k].revision >= 1
    ensures AllBare(Planned(s, ops).acts, Planned(s, ops).handed)
  {
    var r := Planned(s, ops);
    forall k | 0 <= k < |r.acts|
      ensures Bare(r.acts[k], r.handed[k])
    {
      assert Stands(r.draft, r.acts, k);
      assert r.handed[k] == Guarded(r.draft, HandedOver(r.draft, r.acts, k));
    }
  }

  /** Each artifact the tables hold at the revision and of the kind its content says. */
  ghost predicate SaysItsContent(s: Store)
  {
    forall i :: i in s.rows ==>
      s.rows[i].revision == s.rows[i].content.revision && s.rows[i].kind == s.rows[i].content.kind
  }

  // ---- writing a set of creates or revisions

  lemma NumberIsFree(c: Corpus, i: Iri, a: Artifact)
    requires Versioned(c) && Follows(c, i, a) && Typed(a)
    ensures Named(i, a.number) !in c.kept
  {
    if i in c.held {
      assert TypedAt(c, i);
      assert NumbersRun(c);
      assert Named(i, a.number).of == i;
    } else {
      assert !TypedAt(c, i);
    }
  }

  lemma WritingOnePut(s: Store, act: Act, c: Change)
    requires SaysItsContent(s) && Versioned(StoreView(s)) && PutsOn(StoreView(s), act) && Bare(act, c)
    ensures Rev(s, c.artifact) == c.read && !Clashes(s, c)
    ensures StoreView(Write(s, c)) == PutIn(StoreView(s), act.id, act.left.value) && SaysItsContent(Write(s, c))
  {
    var i, a := act.id, act.left.value;
    if Typed(a) {
      NumberIsFree(StoreView(s), i, a);
    }
    hide Versioned, Follows;
    assert StoreView(Write(s, c)).held == PutIn(StoreView(s), i, a).held;
  }

  /** The changes of a set of creates or revisions, compared and written in order, each find the artifact at the
      revision they were read at, and leave the store holding what the draft holds. */
  lemma {:induction false} WritingPuts(s: Store, ops: seq<Operation>, changes: seq<Change>)
    requires Inv(s) && AllPut(ops) && Applied(s, ops).Some? && AllBare(Applied(s, ops).value.1, changes)
    ensures WriteAll(s, changes).Landed?
    ensures StoreView(WriteAll(s, changes).store) == View(Applied(s, ops).value.0)
    ensures SaysItsContent(WriteAll(s, changes).store)
  {
    if ops == [] {
      FreshIsReady(s);
    } else {
      var n := |ops| - 1;
      var d, acts, e, act := LastOperation(s, ops);
      hide Applied, Acted;
      AllBareBefore(acts, act, changes);
      WritingPuts(s, ops[..n], changes[..n]);
      AppliedIsReady(s, ops[..n]);
      OneMorePut(d, ops[n]);
      WritingOnePut(WriteAll(s, changes[..n]).store, act, changes[n]);
    }
  }

  lemma AllBareBefore(acts: seq<Act>, act: Act, changes: seq<Change>)
    requires AllBare(acts + [act], changes)
    ensures AllBare(acts, changes[..|changes| - 1]) && Bare(act, changes[|changes| - 1])
  {
    assert (acts + [act])[|acts|] == act;
    assert forall k :: 0 <= k < |acts| ==> (acts + [act])[k] == acts[k];
  }

  /** The artifacts a set acted on. */
  ghost function ActedOn(acts: seq<Act>): set<Iri>
  {
    set k | 0 <= k < |acts| :: acts[k].id
  }

  lemma ActedOnOneMore(acts: seq<Act>, act: Act)
    ensures ActedOn(acts + [act]) == ActedOn(acts) + {act.id}
    ensures forall k :: 0 <= k < |acts| && IsLast(acts + [act], k) ==> IsLast(acts, k) && acts[k].id != act.id
  {
    var all := acts + [act];
    assert all[|acts|] == act && forall k :: 0 <= k < |acts| ==> all[k] == acts[k];
  }

  /** The last change to an artifact leaves it as the draft holds it. */
  ghost predicate LeavesPending(d: Overlay, acts: seq<Act>)
  {
    && d.removed == {} && d.pending.Keys == ActedOn(acts)
    && (forall k :: 0 <= k < |acts| ==> acts[k].left.Some? && acts[k].left.value.revision == acts[k].revision >= 1)
    && (forall k :: 0 <= k < |acts| ==>
         acts[k].version == Conforming(acts[k].left.value) && acts[k].version.of == d.pending[acts[k].id].kind)
    && (forall k :: 0 <= k < |acts| && IsLast(acts, k) ==> acts[k].left == Some(d.pending[acts[k].id]))
  }

  lemma {:induction false} LastIsPending(s: Store, ops: seq<Operation>)
    requires Inv(s) && AllPut(ops) && Applied(s, ops).Some?
    ensures LeavesPending(Applied(s, ops).value.0, Applied(s, ops).value.1)
  {
    if ops != [] {
      var n := |ops| - 1;
      var d, acts, e, act := LastOperation(s, ops);
      hide Applied, Acted;
      LastIsPending(s, ops[..n]);
      AppliedIsReady(s, ops[..n]);
      OneMorePut(d, ops[n]);
      OneMorePending(d, acts, e, act);
    }
  }

  lemma OneMorePending(d: Overlay, acts: seq<Act>, e: Overlay, act: Act)
    requires LeavesPending(d, acts) && act.left.Some? && act.left.value.revision == act.revision >= 1
    requires act.version == Conforming(act.left.value)
    requires act.id in d.pending ==> act.left.value.kind == d.pending[act.id].kind
    requires e.pending == d.pending[act.id := act.left.value] && e.removed == {}
    ensures LeavesPending(e, acts + [act])
  {
    ActedOnOneMore(acts, act);
    var all := acts + [act];
    assert forall k :: 0 <= k < |acts| ==> acts[k].id in ActedOn(acts);
    hide ActedOn;
    forall k | 0 <= k < |all|
      ensures all[k].left.Some? && all[k].left.value.revision == all[k].revision >= 1
      ensures all[k].version == Conforming(all[k].left.value) && all[k].version.of == e.pending[all[k].id].kind
    {
      assert k < |acts| ==> all[k] == acts[k];
    }
    forall k | 0 <= k < |all| && IsLast(all, k)
      ensures all[k].left == Some(e.pending[all[k].id])
    {
      assert k < |acts| ==> all[k] == acts[k];
    }
  }

  /** The changes handed over are to the artifacts acted on, each last where its operation is. */
  lemma LastChanges(acts: seq<Act>, changes: seq<Change>)
    requires AllBare(acts, changes)
    ensures Changed(changes) == ActedOn(acts)
    ensures forall i :: i in Changed(changes) ==>
      IsLast(acts, LastAt(changes, i)) && acts[LastAt(changes, i)].id == i
  {
    forall i
      ensures i in Changed(changes) <==> i in ActedOn(acts)
    {
      if i in Changed(changes) {
        var k :| 0 <= k < |changes| && changes[k].artifact == i;
        assert Bare(acts[k], changes[k]);
      }
      if i in ActedOn(acts) {
        var k :| 0 <= k < |acts| && acts[k].id == i;
        assert Bare(acts[k], changes[k]);
      }
    }
    forall i | i in Changed(changes)
      ensures IsLast(acts, LastAt(changes, i)) && acts[LastAt(changes, i)].id == i
    {
      var k := LastAt(changes, i);
      assert Bare(acts[k], changes[k]);
      forall j | k < j < |acts|
        ensures acts[j].id != acts[k].id
      {
        assert Bare(acts[j], changes[j]);
      }
    }
  }

  /** What the last change to an artifact hands over: what the draft holds, with its parts and every link it carries
      read through its own version of its type, all of which the draft accepted. */
  ghost predicate HandsOver(d: Overlay, i: Iri, a: Artifact, c: Change)
  {
    var own := Kept(View(d), Conforming(a));
    && own.Some? && c.artifact == i && c.content == Some(a) && c.parts == a.body.parts && c.kind == a.kind
    && c.revision == a.revision && a.revision >= 1
    && c.links == HandedLinks(a, own.value.schema, View(d), HeldWaiting(d.store, i))
    && var carried := Carried(a.body.values, own.value.schema.declares);
      forall n :: 0 <= n < |carried| ==>
        Accepted(View(d), carried, n, own.value.schema.declares, HeldWaiting(d.store, i))
  }

  lemma LastHandsOver(d: Overlay, acts: seq<Act>, k: nat)
    requires k < |acts| && IsLast(acts, k) && acts[k].left.Some? && Stands(d, acts, k)
    requires Holds(d, acts[k].id)
    requires acts[k].left.value.revision == acts[k].revision >= 1
    ensures HandsOver(d, acts[k].id, acts[k].left.value, Guarded(d, HandedOver(d, acts, k)))
  {
  }

  /** A set of creates or revisions as it is drafted: what `Applied` makes of it, found to have no fault. */
  lemma DraftedPuts(s: Store, ops: seq<Operation>)
    requires Inv(s) && AllPut(ops) && Planned(s, ops).Drafted?
    ensures var r := Planned(s, ops);
      && Applied(s, ops) == Some((r.draft, r.acts)) && Ready(r.draft) && r.draft.store == s
      && LeavesPending(r.draft, r.acts) && AllBare(r.acts, r.handed)
      && Changed(r.handed) == r.draft.pending.Keys
      && (forall i :: i in r.draft.pending ==>
           HandsOver(r.draft, i, r.draft.pending[i], r.handed[LastAt(r.handed, i)]))
      && KeptWhole(r.draft, r.acts)
  {
    var r := Planned(s, ops);
    AppliedIsReady(s, ops);
    LastIsPending(s, ops);
    HandedAreBare(s, ops);
    LastChanges(r.acts, r.handed);
    hide Ready, Applied;
    forall i | i in r.draft.pending
      ensures HandsOver(r.draft, i, r.draft.pending[i], r.handed[LastAt(r.handed, i)])
    {
      var k := LastAt(r.handed, i);
      assert Stands(r.draft, r.acts, k);
      assert r.handed[k] == Guarded(r.draft, HandedOver(r.draft, r.acts, k));
      LastHandsOver(r.draft, r.acts, k);
    }
  }

  lemma RowsAfterWriting(s: Store, d: Overlay, changes: seq<Change>, t: Store)
    requires RowsKept(s)
    requires forall i :: i in Changed(changes) ==> i in d.pending && HandsOver(d, i, d.pending[i], changes[LastAt(changes, i)])
    requires forall i :: i in t.rows ==> Left(s, changes, i) == Some(t.rows[i])
    ensures RowsKept(t.(landings := s.landings + 1))
  {
    forall i | i in t.rows
      ensures RowKept(i, t.rows[i], s.landings + 1)
    {
      if i in Changed(changes) {
        WrittenRowKept(s, d, i, d.pending[i], changes, t.rows[i]);
      } else {
        assert RowKept(i, s.rows[i], s.landings);
      }
    }
  }

  /** The rows a set of creates or revisions leaves say what their contents say, and hold the implicit link. */
  lemma WrittenRowsKept(s: Store, ops: seq<Operation>)
    requires Inv(s) && AllPut(ops) && Planned(s, ops).Drafted?
    ensures var r := Planned(s, ops);
      && WriteAll(s, r.handed).Landed? && StoreView(WriteAll(s, r.handed).store) == View(r.draft)
      && RowsKept(WriteAll(s, r.handed).store.(landings := s.landings + 1))
  {
    var r := Planned(s, ops);
    DraftedPuts(s, ops);
    WritingPuts(s, ops, r.handed);
    WritingLeaves(s, r.handed);
    hide Ready, Applied, KeptWhole, LeavesPending, WriteAll, Planned, HandsOver, RowsKept;
    RowsAfterWriting(s, r.draft, r.handed, WriteAll(s, r.handed).store);
  }

  lemma WrittenRowKept(s: Store, d: Overlay, i: Iri, a: Artifact, changes: seq<Change>, row: Row)
    requires RowsKept(s) && i in Changed(changes) && HandsOver(d, i, a, changes[LastAt(changes, i)])
    requires Left(s, changes, i) == Some(row)
    ensures RowKept(i, row, s.landings + 1)
  {
    var c := changes[LastAt(changes, i)];
    assert StoreAll(c.links)[0] == AsStored(Implicit(a.kind));
    if i in s.rows {
      assert RowKept(i, s.rows[i], s.landings);
    }
  }

  // ---- nothing the draft accepted is refused by the port

  /** A link the draft accepted lands in the tables as the set leaves them. */
  lemma AcceptedLinkLands(s: Store, d: Overlay, t: Store, i: Iri, a: Artifact, c: Change, n: nat)
    requires StoreView(t) == View(d) && d.store == s
    requires forall j :: j in t.rows ==>
      t.rows[j].kind == t.rows[j].content.kind && t.rows[j].parts == t.rows[j].content.body.parts
    requires HandsOver(d, i, a, c) && 0 < n < |c.links|
    ensures Lands(t, c.links[n], ToldAt(LinkKeys(c.links), n), HeldWaiting(s, i))
  {
    var schema, waited := Kept(View(d), Conforming(a)).value.schema, HeldWaiting(s, i);
    var own := Carried(a.body.values, schema.declares);
    var v, ref := own[n - 1], schema.declares[own[n - 1].field];
    assert Accepted(View(d), own, n - 1, schema.declares, waited);
    assert c.links[n] == HandedLink(own, n - 1, schema.declares, View(d), waited);
    assert forall j :: j in t.rows <==> j in View(d).held;
    if v.part != "" {
      ToldBehindTheImplicit(a, schema, View(d), waited, n - 1);
    }
    if v.target !in t.rows {
      assert LandsIn(View(d), v, ref);
      NearestTypeStands(View(d), v.target, NearestType(View(d), v.target).value);
    } else {
      assert t.rows[v.target].content == View(d).held[v.target];
    }
  }

  lemma ImplicitLinkLands(t: Store, a: Artifact, told: Option<Told>, waited: set<Told>)
    requires TypedAt(StoreView(t), a.kind) && t.rows[a.kind].kind == t.rows[a.kind].content.kind
    ensures Lands(t, Implicit(a.kind), told, waited)
  {
  }

  lemma AcceptedLinksLand(s: Store, ops: seq<Operation>)
    requires Inv(s) && AllPut(ops) && Planned(s, ops).Drafted?
    ensures var r := Planned(s, ops);
      WriteAll(s, r.handed).Landed? && AllLand(s, WriteAll(s, r.handed).store, r.handed)
  {
    var r := Planned(s, ops);
    DraftedPuts(s, ops);
    WrittenRowsKept(s, ops);
    var d, t := r.draft, WriteAll(s, r.handed).store;
    hide Ready, Applied, KeptWhole, LeavesPending, WriteAll, Planned, Inv;
    assert forall j :: j in t.rows ==> RowKept(j, t.rows[j], s.landings + 1);
    forall i | i in Changed(r.handed)
      ensures ChangeLands(s, t, r.handed[LastAt(r.handed, i)])
    {
      var a, c := d.pending[i], r.handed[LastAt(r.handed, i)];
      assert HandsOver(d, i, a, c);
      assert TypedAt(View(d), a.kind);
      forall n | 0 <= n < |c.links|
        ensures Lands(t, c.links[n], ToldAt(LinkKeys(c.links), n), HeldWaiting(s, i))
      {
        if n == 0 {
          ImplicitLinkLands(t, a, ToldAt(LinkKeys(c.links), n), HeldWaiting(s, i));
        } else {
          AcceptedLinkLands(s, d, t, i, a, c, n);
        }
      }
    }
  }

  lemma NotSevered(s: Store, d: Overlay, acts: seq<Act>, t: Store, source: Iri, l: Stored)
    requires RowsKept(s) && RowsKept(t.(landings := s.landings + 1)) && LinkedWell(s) && d.store == s
    requires KeptWhole(d, acts) && d.removed == {} && d.pending.Keys == ActedOn(acts)
    requires StoreView(t) == View(d)
    requires source in s.rows && source !in d.pending && l in s.rows[source].links
    ensures !Severs(s, t, d.pending.Keys, source, l)
  {
    if Severs(s, t, d.pending.Keys, source, l) {
      var i := l.target;
      ViewReads(d);
      assert Holds(d, i) && i in StoreView(t).held;
      assert RowKept(i, s.rows[i], s.landings) && RowKept(i, t.rows[i], s.landings + 1);
      assert t.rows[i].content == StoreView(t).held[i] == d.pending[i];
      assert l.part in Dropped(d, i);
      assert WellLinked(StoreView(s), l);
      SeveredIsSeen(d, i, source, l);
      assert false;
    }
  }

  lemma SeveredIsSeen(d: Overlay, i: Iri, source: Iri, l: Stored)
    requires source in d.store.rows && !Touched(d, source) && l in d.store.rows[source].links && l.target == i
    requires !l.implicit
    ensures AsLinking(source, l) in LinksIn(d, i)
  {
    StoredLinkingsHold(source, d.store.rows[source].links);
    LinksInHolds(d, i);
  }

  /** No artifact the set leaves alone links into a part it drops. */
  lemma NothingSevered(s: Store, ops: seq<Operation>)
    requires Inv(s) && AllPut(ops) && Planned(s, ops).Drafted?
    ensures var r := Planned(s, ops);
      WriteAll(s, r.handed).Landed? && !SeversAny(s, WriteAll(s, r.handed).store, Changed(r.handed))
  {
    var r := Planned(s, ops);
    DraftedPuts(s, ops);
    WrittenRowsKept(s, ops);
    WritingLeaves(s, r.handed);
    var d, t := r.draft, WriteAll(s, r.handed).store;
    hide Ready, Applied, WriteAll, Planned, Placed, Versioned, Referring, KeptWhole, RowsKept, LinkedWell, Severs;
    forall source, l | source in t.rows && l in t.rows[source].links
      ensures !Severs(s, t, Changed(r.handed), source, l)
    {
      if source in Changed(r.handed) {
        SeversNoneChanged(s, t, Changed(r.handed), source, l);
      } else {
        assert Left(s, r.handed, source) == Some(t.rows[source]);
        NotSevered(s, d, r.acts, t, source, l);
      }
    }
  }

  lemma SeversNoneChanged(s: Store, t: Store, changed: set<Iri>, source: Iri, l: Stored)
    requires source in changed
    ensures !Severs(s, t, changed, source, l)
  {
  }

  // ---- a set drafted on a store lands on it

  /** Everything the changes were read through stands as the draft read it. */
  lemma DraftedUnmoved(s: Store, ops: seq<Operation>)
    requires Inv(s) && Planned(s, ops).Drafted? && Planned(s, ops).draft.store == s
    ensures Unmoved(s, Planned(s, ops).handed)
  {
    var r := Planned(s, ops);
    forall k, t | 0 <= k < |r.handed| && t in r.handed[k].through
      ensures Rev(s, t.0) == t.1
    {
      assert r.acts[k].left.Some? ==> Stands(r.draft, r.acts, k);
      var plain := HandedOver(r.draft, r.acts, k);
      assert r.handed[k] == Guarded(r.draft, plain);
      if t in plain.through {
        assert RowKept(t.0, s.rows[t.0], s.landings);
      }
    }
  }

  /** For sets of creates, of replacements and of items added: a set the draft accepts is refused by none of the port's
      checks when nothing lands in between, so a set checked only is answered as it would land. */
  lemma AcceptedSetsLand(s: Store, ops: seq<Operation>, entries: seq<Entry>)
    requires Inv(s) && AllPut(ops) && Planned(s, ops).Drafted? && !IdsTaken(s, entries)
    ensures Land(s, Planned(s, ops).handed, entries).Landed?
  {
    DraftedPuts(s, ops);
    DraftedUnmoved(s, ops);
    AcceptedLinksLand(s, ops);
    NothingSevered(s, ops);
  }

  // ---- a set of removals

  /** The changes of a set of removals, compared and written in order, leave the store holding what the draft holds. */
  lemma {:induction false} WritingRemovals(s: Store, ops: seq<Operation>, changes: seq<Change>)
    requires SaysItsContent(s) && AllRemovals(ops) && Applied(s, ops).Some?
    requires AllBare(Applied(s, ops).value.1, changes)
    ensures WriteAll(s, changes).Landed? && SaysItsContent(WriteAll(s, changes).store)
    ensures StoreView(WriteAll(s, changes).store) == View(Applied(s, ops).value.0)
  {
    if ops == [] {
      FreshView(s);
    } else {
      var n := |ops| - 1;
      var d, acts, e, act := LastOperation(s, ops);
      AppliedClears(s, ops);
      AppliedClears(s, ops[..n]);
      AllBareBefore(acts, act, changes);
      assert (acts + [act])[n] == act;
      hide Applied, Acted;
      WritingRemovals(s, ops[..n], changes[..n]);
      ClearingView(d);
      ClearingView(e);
      WritingOneRemoval(s, WriteAll(s, changes[..n]).store, d.removed, act, changes[n]);
      assert e.removed == d.removed + {act.id} by {
        ActedOnOneMore(acts, act);
      }
    }
  }

  lemma WritingOneRemoval(s: Store, t: Store, removed: set<Iri>, act: Act, c: Change)
    requires StoreView(t) == Cleared(s, removed) && SaysItsContent(t)
    requires Bare(act, c) && TakesFrom(s, act) && act.id !in removed
    ensures Rev(t, c.artifact) == c.read && !Clashes(t, c)
    ensures StoreView(Write(t, c)) == Cleared(s, removed + {act.id}) && SaysItsContent(Write(t, c))
  {
    assert act.id in StoreView(t).held;
    assert t.rows[act.id].content == StoreView(t).held[act.id] == s.rows[act.id].content;
    assert forall i :: i in t.rows <==> i in Cleared(s, removed).held;
    assert forall i :: i in t.rows ==> t.rows[i].content == Cleared(s, removed).held[i];
    assert StoreView(Write(t, c)).held == Cleared(s, removed + {act.id}).held;
    assert StoreView(Write(t, c)).kept == Cleared(s, removed + {act.id}).kept;
  }

  /** What the operations of a set of removals do, and the changes they are handed over as. */
  ghost predicate ClearsAll(s: Store, r: Drafted)
  {
    && r.Drafted? && Clearing(r.draft) && r.draft.store == s
    && r.draft.removed == ActedOn(r.acts) == Changed(r.handed) && AllBare(r.acts, r.handed)
    && (forall k :: 0 <= k < |r.acts| ==> TakesFrom(s, r.acts[k]) && FaultlessRemoval(r.draft, r.acts[k]))
    && (forall k :: 0 <= k < |r.handed| ==> r.handed[k].content.None?)
  }

  lemma RemovalsClear(s: Store, ops: seq<Operation>)
    requires AllRemovals(ops) && Planned(s, ops).Drafted?
    ensures var r := Planned(s, ops);
      ClearsAll(s, r) && Applied(s, ops) == Some((r.draft, r.acts))
  {
    var r := Planned(s, ops);
    AppliedClears(s, ops);
    HandedAreBare(s, ops);
    LastChanges(r.acts, r.handed);
    forall k | 0 <= k < |r.acts|
      ensures TakesFrom(s, r.acts[k]) && FaultlessRemoval(r.draft, r.acts[k]) && r.handed[k].content.None?
    {
      assert Stands(r.draft, r.acts, k) && Bare(r.acts[k], r.handed[k]);
    }
  }

  lemma RowsAfterRemovals(s: Store, changes: seq<Change>)
    requires WriteAll(s, changes).Landed? && forall k :: 0 <= k < |changes| ==> changes[k].content.None?
    ensures var rows := WriteAll(s, changes).store.rows;
      && (forall i :: i in rows <==> i in s.rows && i !in Changed(changes))
      && (forall i :: i in rows ==> rows[i] == s.rows[i])
  {
    WritingLeaves(s, changes);
  }

  /** A set of removals as it is drafted and written. */
  lemma DraftedRemovals(s: Store, ops: seq<Operation>)
    requires Inv(s) && AllRemovals(ops) && Planned(s, ops).Drafted?
    ensures var r := Planned(s, ops);
      && ClearsAll(s, r) && Applied(s, ops) == Some((r.draft, r.acts))
      && WriteAll(s, r.handed).Landed? && StoreView(WriteAll(s, r.handed).store) == View(r.draft)
      && (forall i :: i in WriteAll(s, r.handed).store.rows <==> i in s.rows && i !in r.draft.removed)
      && (forall i :: i in s.rows && i !in r.draft.removed ==> WriteAll(s, r.handed).store.rows[i] == s.rows[i])
  {
    var r := Planned(s, ops);
    RemovalsClear(s, ops);
    assert SaysItsContent(s) by {
      assert forall i :: i in s.rows ==> RowKept(i, s.rows[i], s.landings);
    }
    WritingRemovals(s, ops, r.handed);
    RowsAfterRemovals(s, r.handed);
  }

  /** A set of removals hands no link. */
  lemma RemovalsHandNoLink(s: Store, t: Store, changes: seq<Change>)
    requires forall k :: 0 <= k < |changes| ==> changes[k].content.None?
    ensures AllLand(s, t, changes)
  {
  }

  /** A set of removals the draft accepts lands, unless something left links into what it removes: nothing it was read
      at has moved, and it hands no link. */
  lemma AcceptedRemovalsLandOrAreLinked(s: Store, ops: seq<Operation>, entries: seq<Entry>)
    requires Inv(s) && AllRemovals(ops) && Planned(s, ops).Drafted? && !IdsTaken(s, entries)
    ensures var r := Land(s, Planned(s, ops).handed, entries); r.Landed? || r.Linked?
  {
    DraftedRemovals(s, ops);
    DraftedUnmoved(s, ops);
    RemovalsHandNoLink(s, WriteAll(s, Planned(s, ops).handed).store, Planned(s, ops).handed);
  }

  /** A set drafted on the store it lands on never conflicts: each change finds its artifact at the revision the one
      before it left, whatever it was read through stands as it was read, and no version it makes is kept already. */
  lemma DraftedUnderTheLockNeverConflicts(s: Store, ops: seq<Operation>, entries: seq<Entry>)
    requires Inv(s) && OfOneSort(ops) && Planned(s, ops).Drafted? && !IdsTaken(s, entries)
    ensures var r := Land(s, Planned(s, ops).handed, entries); r.Landed? || r.Linked?
    ensures !AllRemovals(ops) ==> Land(s, Planned(s, ops).handed, entries).Landed?
  {
    if AllRemovals(ops) {
      AcceptedRemovalsLandOrAreLinked(s, ops, entries);
    } else {
      AcceptedSetsLand(s, ops, entries);
    }
  }

  // ---- what the draft reads is what the store then holds

  lemma RemovedRowsKept(s: Store, ops: seq<Operation>)
    requires Inv(s) && AllRemovals(ops) && Planned(s, ops).Drafted?
    ensures var r := Planned(s, ops);
      && WriteAll(s, r.handed).Landed? && StoreView(WriteAll(s, r.handed).store) == View(r.draft) && r.draft.store == s
      && RowsKept(WriteAll(s, r.handed).store.(landings := s.landings + 1))
  {
    DraftedRemovals(s, ops);
    var written := WriteAll(s, Planned(s, ops).handed).store;
    assert RowsKept(s);
    hide Planned, WriteAll, Inv, View, StoreView, AllBare, FaultlessRemoval;
    forall i | i in written.rows
      ensures RowKept(i, written.rows[i], s.landings + 1)
    {
      assert RowKept(i, s.rows[i], s.landings);
    }
  }

  lemma PutRowsKept(s: Store, ops: seq<Operation>)
    requires Inv(s) && AllPut(ops) && Planned(s, ops).Drafted?
    ensures var r := Planned(s, ops);
      && WriteAll(s, r.handed).Landed? && StoreView(WriteAll(s, r.handed).store) == View(r.draft) && r.draft.store == s
      && RowsKept(WriteAll(s, r.handed).store.(landings := s.landings + 1))
  {
    WrittenRowsKept(s, ops);
    DraftedPuts(s, ops);
  }

  /** What landing adds to what the changes write: the entries, and one landing. */
  lemma LandedAs(s: Store, changes: seq<Change>, entries: seq<Entry>)
    requires Land(s, changes, entries).Landed?
    ensures WriteAll(s, changes).Landed?
    ensures Land(s, changes, entries).store
      == WriteAll(s, changes).store.(entries := s.entries + entries, landings := s.landings + 1)
  {
  }

  lemma SameTablesSameView(t: Store, u: Store)
    requires t.rows == u.rows && t.kept == u.kept
    ensures StoreView(t) == StoreView(u)
    ensures t.landings == u.landings && RowsKept(t) ==> RowsKept(u)
  {
  }

  /** The rows a set drafted on a store leaves are those the draft holds. */
  lemma LandedView(s: Store, ops: seq<Operation>, entries: seq<Entry>)
    requires Inv(s) && OfOneSort(ops) && Planned(s, ops).Drafted?
    requires Land(s, Planned(s, ops).handed, entries).Landed?
    ensures var r := Planned(s, ops);
      var t := Land(s, r.handed, entries).store;
      && StoreView(t) == View(r.draft) && t.landings == s.landings + 1 && t.entries == s.entries + entries
      && r.draft.store == s && RowsKept(t)
  {
    var r := Planned(s, ops);
    var written, t := WriteAll(s, r.handed).store, Land(s, r.handed, entries).store;
    LandedAs(s, r.handed, entries);
    hide Planned, WriteAll, Land, Inv, View, StoreView, RowsKept;
    if AllRemovals(ops) {
      RemovedRowsKept(s, ops);
    } else {
      PutRowsKept(s, ops);
    }
    SameTablesSameView(written, t);
    SameTablesSameView(written.(landings := s.landings + 1), t);
  }

  /** An artifact's links as the draft reads them are those it lands with, in the order it carries them. */
  ghost predicate ReadAsCarried(d: Overlay, t: Store)
  {
    && HeldBy(d).Keys == t.rows.Keys
    && forall i :: i in t.rows ==> Carries(d, i) == StoredLinkings(i, t.rows[i].links)
  }

  lemma PutReadAsCarried(d: Overlay, i: Iri, c: Change)
    requires i in d.pending && i !in d.removed && HandsOver(d, i, d.pending[i], c)
    ensures Carries(d, i) == StoredLinkings(i, StoreAll(c.links))
  {
    var a := d.pending[i];
    HandedReadBack(i, a, Kept(View(d), Conforming(a)).value.schema, View(d), HeldWaiting(d.store, i));
  }

  lemma AllReadAsCarried(s: Store, d: Overlay, changes: seq<Change>, t: Store)
    requires d.store == s && HeldBy(d).Keys == t.rows.Keys
    requires forall i :: i in t.rows ==> Left(s, changes, i) == Some(t.rows[i])
    requires forall i :: Touched(d, i) <==> i in Changed(changes)
    requires forall i :: i in t.rows && i in Changed(changes) ==>
      i in d.pending && i !in d.removed && HandsOver(d, i, d.pending[i], changes[LastAt(changes, i)])
    ensures ReadAsCarried(d, t)
  {
    hide HeldBy, HandsOver;
    forall i | i in t.rows
      ensures Carries(d, i) == StoredLinkings(i, t.rows[i].links)
    {
      if i in Changed(changes) {
        PutReadAsCarried(d, i, changes[LastAt(changes, i)]);
      }
    }
  }

  /** What landing leaves, and what the draft held, of the rows. */
  lemma LandedRows(s: Store, ops: seq<Operation>, entries: seq<Entry>)
    requires Inv(s) && OfOneSort(ops) && Planned(s, ops).Drafted?
    requires Land(s, Planned(s, ops).handed, entries).Landed?
    ensures var r := Planned(s, ops);
      var t := Land(s, r.handed, entries).store;
      && HeldBy(r.draft).Keys == t.rows.Keys
      && (forall i :: i in t.rows ==> Left(s, r.handed, i) == Some(t.rows[i]))
  {
    var t := Land(s, Planned(s, ops).handed, entries).store;
    LandedView(s, ops, entries);
    WritingLeaves(s, Planned(s, ops).handed);
    hide Planned, Inv, RowsKept;
    assert forall i :: i in StoreView(t).held <==> i in t.rows;
  }

  lemma CarriedLikeLanded(s: Store, ops: seq<Operation>, entries: seq<Entry>)
    requires Inv(s) && OfOneSort(ops) && Planned(s, ops).Drafted?
    requires Land(s, Planned(s, ops).handed, entries).Landed?
    ensures ReadAsCarried(Planned(s, ops).draft, Land(s, Planned(s, ops).handed, entries).store)
  {
    var r := Planned(s, ops);
    LandedRows(s, ops, entries);
    DraftedFrame(s, ops);
    hide Planned, Land, Inv, HandsOver, ReadAsCarried, Sound, KindsKept;
    if AllRemovals(ops) {
      DraftedRemovals(s, ops);
    } else {
      DraftedPuts(s, ops);
    }
    hide Ready, KeptWhole, AllBare, Clearing, LeavesPending, FaultlessRemoval;
    AllReadAsCarried(s, r.draft, r.handed, Land(s, r.handed, entries).store);
  }

  lemma LinksInAlike(d: Overlay, t: Store, target: Iri)
    requires ReadAsCarried(d, t)
    ensures LinksIn(d, target) == StoreLinksIn(t, target)
  {
    var drafted := map i | i in HeldBy(d) :: Into(Carries(d, i), target);
    var landed := map i | i in t.rows :: Into(StoredLinkings(i, t.rows[i].links), target);
    hide HeldBy, Carries;
    assert drafted == landed;
  }

  /** For a set that lands as it was drafted, the draft reads as the store then does: it holds the same artifacts and
      keeps the same versions, lists the same artifacts of each kind, and gives the same links into every target, in
      the same order. */
  lemma DraftReadsAsLanded(s: Store, ops: seq<Operation>, entries: seq<Entry>)
    requires Inv(s) && OfOneSort(ops) && Planned(s, ops).Drafted?
    requires Land(s, Planned(s, ops).handed, entries).Landed?
    ensures var (d, t) := (Planned(s, ops).draft, Land(s, Planned(s, ops).handed, entries).store);
      && (forall i :: Holds(d, i) <==> i in t.rows)
      && (forall i :: i in t.rows ==> ArtifactAt(d, i) == t.rows[i].content)
      && (forall v :: TypeVersion(d, v) == if v in t.kept then Some(t.kept[v]) else None)
      && (forall target :: LinksIn(d, target) == StoreLinksIn(t, target))
  {
    var d, t := Planned(s, ops).draft, Land(s, Planned(s, ops).handed, entries).store;
    LandedView(s, ops, entries);
    CarriedLikeLanded(s, ops, entries);
    ViewReads(d);
    hide Planned, Inv, RowsKept, Land, ReadAsCarried;
    assert forall i :: i in StoreView(t).held <==> i in t.rows;
    forall target
      ensures LinksIn(d, target) == StoreLinksIn(t, target)
    {
      LinksInAlike(d, t, target);
    }
  }

  /** The numbers a draft lists of a type are those of the versions it answers. */
  lemma VersionsRead(d: Overlay, i: Iri, n: nat)
    requires Sound(d)
    ensures n in VersionsOf(d, i) <==> TypeVersion(d, Named(i, n)).Some?
  {
    var v := Named(i, n);
    assert v.of == i && v.number == n;
  }

  lemma VersionsListed(d: Overlay, t: Store, i: Iri)
    requires Sound(d) && forall v :: TypeVersion(d, v) == if v in t.kept then Some(t.kept[v]) else None
    ensures VersionsOf(d, i) == set v | v in t.kept && v.of == i :: v.number
  {
    forall n: nat
      ensures n in VersionsOf(d, i) <==> Named(i, n) in t.kept
    {
      VersionsRead(d, i, n);
    }
    forall v | v in t.kept && v.of == i
      ensures v.number in VersionsOf(d, i)
    {
      assert v == Named(i, v.number);
    }
    forall n | n in VersionsOf(d, i)
      ensures n in set v | v in t.kept && v.of == i :: v.number
    {
      assert Named(i, n) in t.kept && Named(i, n).of == i;
    }
  }

  /** What every draft of sets of one sort keeps. */
  lemma DraftedFrame(s: Store, ops: seq<Operation>)
    requires Inv(s) && OfOneSort(ops) && Planned(s, ops).Drafted?
    ensures var d := Planned(s, ops).draft;
      Sound(d) && KindsKept(d) && d.store == s && forall i :: Touched(d, i) <==> i in Changed(Planned(s, ops).handed)
  {
    if AllRemovals(ops) {
      DraftedRemovals(s, ops);
    } else {
      DraftedPuts(s, ops);
    }
  }

  /** A link left alone that waits on an IRI not held after the set waited on it before. */
  lemma WaitedBefore(s: Store, changes: seq<Change>, entries: seq<Entry>, source: Iri, each: Linking)
    requires RowsKept(s) && Land(s, changes, entries).Landed?
    requires var t := Land(s, changes, entries).store;
      source in t.rows && source !in Changed(changes) && each.target !in t.rows
    requires each in StoredLinkings(source, Landing.Links(s, source))
    ensures Waits(s, each.target, each.part)
  {
    WritingLeaves(s, changes);
    var t, written := Land(s, changes, entries).store, WriteAll(s, changes).store;
    assert t.rows == written.rows && source in s.rows && t.rows[source] == s.rows[source];
    StoredLinkingsHold(source, s.rows[source].links);
    var l :| l in s.rows[source].links && !l.implicit && each == AsLinking(source, l);
    assert !Severs(s, written, Changed(changes), source, l);
    assert l.target in s.rows ==> RowKept(l.target, s.rows[l.target], s.landings);
  }

  /** And it lists the artifacts of each kind, the versions of each type, and the links waiting on IRIs not held, as the
      store then does. */
  lemma DraftListsAsLanded(s: Store, ops: seq<Operation>, entries: seq<Entry>)
    requires Inv(s) && OfOneSort(ops) && Planned(s, ops).Drafted?
    requires Land(s, Planned(s, ops).handed, entries).Landed?
    ensures var (d, t) := (Planned(s, ops).draft, Land(s, Planned(s, ops).handed, entries).store);
      && (forall kind :: Ids(d, kind) == set i | i in t.rows && t.rows[i].kind == kind)
      && (forall i :: VersionsOf(d, i) == set v | v in t.kept && v.of == i :: v.number)
      && (forall each: Linking :: Holds(d, each.source) && WaitingIn(d, each) <==>
           each.source in t.rows && each in StoredLinkings(each.source, t.rows[each.source].links)
           && each.target !in t.rows)
  {
    var r := Planned(s, ops);
    var d, t := r.draft, Land(s, r.handed, entries).store;
    DraftReadsAsLanded(s, ops, entries);
    LandedView(s, ops, entries);
    DraftedFrame(s, ops);
    CarriedLikeLanded(s, ops, entries);
    assert RowsKept(s);
    hide Planned, Inv, Sound, KindsKept;
    forall kind
      ensures Ids(d, kind) == set i | i in t.rows && t.rows[i].kind == kind
    {
      IdsListed(d, t, kind);
    }
    forall i
      ensures VersionsOf(d, i) == set v | v in t.kept && v.of == i :: v.number
    {
      VersionsListed(d, t, i);
    }
    forall each: Linking
      ensures Holds(d, each.source) && WaitingIn(d, each) <==>
        each.source in t.rows && each in StoredLinkings(each.source, t.rows[each.source].links) && each.target !in t.rows
    {
      WaitingListed(d, t, r.handed, entries, each);
    }
  }

  lemma IdsListed(d: Overlay, t: Store, kind: Iri)
    requires RowsKept(d.store) && KindsKept(d) && RowsKept(t)
    requires forall i :: Holds(d, i) <==> i in t.rows
    requires forall i :: i in t.rows ==> ArtifactAt(d, i) == t.rows[i].content
    ensures Ids(d, kind) == set i | i in t.rows && t.rows[i].kind == kind
  {
    IdsOf(d, kind);
    assert forall i :: i in t.rows ==> RowKept(i, t.rows[i], t.landings);
  }

  lemma WaitingListed(d: Overlay, t: Store, changes: seq<Change>, entries: seq<Entry>, each: Linking)
    requires RowsKept(d.store) && Land(d.store, changes, entries) == Landed(t)
    requires forall i :: Touched(d, i) <==> i in Changed(changes)
    requires forall i :: Holds(d, i) <==> i in t.rows
    requires ReadAsCarried(d, t)
    ensures Holds(d, each.source) && WaitingIn(d, each) <==>
      each.source in t.rows && each in StoredLinkings(each.source, t.rows[each.source].links) && each.target !in t.rows
  {
    var source := each.source;
    if source in t.rows && each in Carries(d, source) && each.target !in t.rows && !Touched(d, source) {
      WaitedBefore(d.store, changes, entries, source, each);
    }
  }
}
