/** What every landing keeps, whatever changes the set holds: a link that lands keeps landing until its own artifact is
    changed, an implicit link's target is always held, and no set makes a link wait for a part its target lacks that
    its artifact did not hold waiting before. */
module Integrity {
  import opened Iris
  import opened PortValues
  import opened Landing

  /** Every artifact held stands at a revision above 0, which says an IRI holds nothing. */
  ghost predicate Revised(s: Store)
  {
    forall i :: i in s.rows ==> s.rows[i].revision > 0
  }

  ghost predicate LeavesRevised(changes: seq<Change>)
  {
    forall k :: 0 <= k < |changes| && changes[k].content.Some? ==> changes[k].revision > 0
  }

  /** Whether a stored link lands: on a held artifact, and on the part it names if it names one. */
  predicate LandsNow(s: Store, l: Stored)
  {
    l.target in s.rows && (l.part == "" || l.part in s.rows[l.target].parts)
  }

  /** What a landing leaves of one artifact. */
  lemma LandingLeaves(s: Store, changes: seq<Change>, entries: seq<Entry>)
    requires Land(s, changes, entries).Landed?
    ensures var after := Land(s, changes, entries).store;
      && after.landings == s.landings + 1 && after.entries == s.entries + entries
      && (forall i :: (i in after.rows <==> Left(s, changes, i).Some?)
           && (i in after.rows ==> Left(s, changes, i) == Some(after.rows[i])))
      && (forall v: Named :: v.of !in Changed(changes) ==>
           (v in after.kept <==> v in s.kept) && (v in s.kept ==> after.kept[v] == s.kept[v]))
  {
    WritingLeaves(s, changes);
  }

  lemma LandingKeepsRevised(s: Store, changes: seq<Change>, entries: seq<Entry>)
    requires Land(s, changes, entries).Landed? && Revised(s) && LeavesRevised(changes)
    ensures Revised(Land(s, changes, entries).store)
  {
    LandingLeaves(s, changes, entries);
  }

  /** One landing leaves a link where it landed, when its artifact is none of those the set changes. */
  lemma LandingKeepsLinks(s: Store, changes: seq<Change>, entries: seq<Entry>, source: Iri, l: Stored)
    requires Land(s, changes, entries).Landed? && Revised(s)
    requires source in s.rows && l in s.rows[source].links && source !in Changed(changes) && LandsNow(s, l)
    ensures var after := Land(s, changes, entries).store;
      source in after.rows && after.rows[source] == s.rows[source] && LandsNow(after, l)
  {
    LandingLeaves(s, changes, entries);
    var after := Land(s, changes, entries).store;
    assert after.rows[source] == s.rows[source];
    if l.target in Changed(changes) {
      var written := WriteAll(s, changes).store;
      assert written.rows == after.rows;
      assert !Severs(s, written, Changed(changes), source, l);
    } else {
      assert after.rows[l.target] == s.rows[l.target];
    }
  }

  /** Every implicit link's target is held. */
  ghost predicate ImplicitHeld(s: Store)
  {
    forall i, l :: i in s.rows && l in s.rows[i].links && l.implicit ==> l.target in s.rows
  }

  lemma LandingKeepsImplicit(s: Store, changes: seq<Change>, entries: seq<Entry>)
    requires Land(s, changes, entries).Landed? && Revised(s) && ImplicitHeld(s)
    ensures ImplicitHeld(Land(s, changes, entries).store)
  {
    LandingLeaves(s, changes, entries);
    var after := Land(s, changes, entries).store;
    var written := WriteAll(s, changes).store;
    assert written.rows == after.rows;
    forall i, l | i in after.rows && l in after.rows[i].links && l.implicit
      ensures l.target in after.rows
    {
      if i in Changed(changes) {
        var c := changes[LastAt(changes, i)];
        var n :| 0 <= n < |c.links| && AsStored(c.links[n]) == l;
        assert ChangeLands(s, written, c);
        assert Lands(written, c.links[n], ToldAt(LinkKeys(c.links), n), HeldWaiting(s, i));
      } else {
        assert after.rows[i] == s.rows[i];
        if l.target in Changed(changes) {
          assert !Severs(s, written, Changed(changes), i, l);
        }
      }
    }
  }

  // ---- over any sequence of sets

  datatype Handed = Handed(changes: seq<Change>, entries: seq<Entry>)

  /** The store after a sequence of sets, one refused leaving it as it was. */
  ghost function After(s: Store, sets: seq<Handed>): Store
  {
    if sets == [] then s
    else
      var before := After(s, sets[..|sets| - 1]);
      var r := Land(before, sets[|sets| - 1].changes, sets[|sets| - 1].entries);
      if r.Landed? then r.store else before
  }

  ghost predicate AllLeaveRevised(sets: seq<Handed>)
  {
    forall k :: 0 <= k < |sets| ==> LeavesRevised(sets[k].changes)
  }

  /** Over any sequence of sets, whatever they change, artifacts stay above revision 0 and every implicit link's target
      is held. */
  lemma {:induction false} ImplicitLinksAlwaysLand(s: Store, sets: seq<Handed>)
    requires Revised(s) && ImplicitHeld(s) && AllLeaveRevised(sets)
    ensures Revised(After(s, sets)) && ImplicitHeld(After(s, sets))
  {
    if sets != [] {
      var rest, last := sets[..|sets| - 1], sets[|sets| - 1];
      ImplicitLinksAlwaysLand(s, rest);
      var before := After(s, rest);
      if Land(before, last.changes, last.entries).Landed? {
        LandingKeepsRevised(before, last.changes, last.entries);
        LandingKeepsImplicit(before, last.changes, last.entries);
      }
    }
  }

  /** Over any sequence of sets none of which changes the artifact holding it, a link that lands keeps landing where it
      did: nothing removes its target, or drops the part it names. */
  lemma {:induction false} LinksKeepLanding(s: Store, sets: seq<Handed>, source: Iri, l: Stored)
    requires Revised(s) && AllLeaveRevised(sets)
    requires source in s.rows && l in s.rows[source].links && LandsNow(s, l)
    requires forall k :: 0 <= k < |sets| ==> source !in Changed(sets[k].changes)
    ensures var after := After(s, sets);
      Revised(after) && source in after.rows && after.rows[source] == s.rows[source] && LandsNow(after, l)
  {
    if sets != [] {
      var rest, last := sets[..|sets| - 1], sets[|sets| - 1];
      LinksKeepLanding(s, rest, source, l);
      var before := After(s, rest);
      if Land(before, last.changes, last.entries).Landed? {
        LandingKeepsRevised(before, last.changes, last.entries);
        LandingKeepsLinks(before, last.changes, last.entries, source, l);
      }
    }
  }

  // ---- links that wait for a part

  /** Whether a key names a part that its target, held, lacks. */
  predicate Lacking(s: Store, key: Key)
  {
    key.holder.Some? && key.target in s.rows && key.part != "" && key.part !in s.rows[key.target].parts
  }

  lemma WaitingOneMore(s: Store, links: seq<Stored>)
    requires multiset(WaitingKeys(s, links)) != multiset{}
    ensures links != []
    ensures var rest, last := links[..|links| - 1], links[|links| - 1];
      multiset(WaitingKeys(s, links)) == multiset(WaitingKeys(s, rest)) +
        if !last.implicit && Waits(s, last.target, last.part) then multiset{StoredKey(last)} else multiset{}
  {
  }

  /** Among links of which some wait under one key, one stands after all the others. */
  lemma {:induction false} LastWaiting(s: Store, links: seq<Stored>, key: Key) returns (at: nat)
    requires multiset(WaitingKeys(s, links))[key] > 0
    ensures at < |links| && !links[at].implicit && StoredKey(links[at]) == key
    ensures multiset(StoredKeys(links[..at]))[key] >= multiset(WaitingKeys(s, links))[key] - 1
  {
    var rest, last := links[..|links| - 1], links[|links| - 1];
    WaitingOneMore(s, links);
    hide WaitingKeys, StoredKeys;
    if !last.implicit && Waits(s, last.target, last.part) && StoredKey(last) == key {
      at := |rest|;
      WaitingAreStored(s, rest, key);
      assert links[..at] == rest;
    } else {
      at := LastWaiting(s, rest, key);
      assert links[..at] == rest[..at];
    }
  }

  function StoredKeys(links: seq<Stored>): (keys: seq<Key>)
  {
    seq(|links|, n requires 0 <= n < |links| => StoredKey(links[n]))
  }

  lemma {:induction false} WaitingAreStored(s: Store, links: seq<Stored>, key: Key)
    ensures multiset(WaitingKeys(s, links))[key] <= multiset(StoredKeys(links))[key]
  {
    if links != [] {
      var rest, last := links[..|links| - 1], links[|links| - 1];
      WaitingAreStored(s, rest, key);
      assert StoredKeys(links) == StoredKeys(rest) + [StoredKey(last)];
    }
  }

  /** Two stores in which a key waits alike hold as many waiting links of that key. */
  lemma {:induction false} WaitingAlike(s: Store, t: Store, links: seq<Stored>, key: Key)
    requires Waits(t, key.target, key.part) ==> Waits(s, key.target, key.part)
    ensures multiset(WaitingKeys(t, links))[key] <= multiset(WaitingKeys(s, links))[key]
  {
    if links != [] {
      WaitingAlike(s, t, links[..|links| - 1], key);
    }
  }

  /** A key some of whose links wait is the key of a link held, waiting, not implicit. */
  lemma {:induction false} AWaitingLink(s: Store, links: seq<Stored>, key: Key) returns (l: Stored)
    requires multiset(WaitingKeys(s, links))[key] > 0
    ensures l in links && !l.implicit && StoredKey(l) == key && Waits(s, l.target, l.part)
  {
    var rest, last := links[..|links| - 1], links[|links| - 1];
    if !last.implicit && Waits(s, last.target, last.part) && StoredKey(last) == key {
      l := last;
    } else {
      l := AWaitingLink(s, rest, key);
    }
  }

  ghost predicate NoneImported(changes: seq<Change>)
  {
    forall k, n :: 0 <= k < |changes| && 0 <= n < |changes[k].links| ==> !changes[k].links[n].imported
  }

  /** No landing but an import's leaves an artifact with more links of one field, holder and target into a part that
      target lacks than waited for it there before the set, wherever the items holding them were moved, added or
      dropped: a link waiting so is one that waited. */
  lemma NoNewLinkWaitsForAPart(s: Store, changes: seq<Change>, entries: seq<Entry>, i: Iri, key: Key)
    requires Land(s, changes, entries).Landed? && Revised(s) && NoneImported(changes)
    requires var after := Land(s, changes, entries).store; i in after.rows && Lacking(after, key)
    ensures var after := Land(s, changes, entries).store;
      multiset(WaitingKeys(after, Links(after, i)))[key] <= multiset(WaitingKeys(s, Links(s, i)))[key]
  {
    LandingLeaves(s, changes, entries);
    var after := Land(s, changes, entries).store;
    var links := after.rows[i].links;
    if multiset(WaitingKeys(after, links))[key] > 0 {
      if i in Changed(changes) {
        var at := LastWaiting(after, links, key);
        var c := changes[LastAt(changes, i)];
        var written := WriteAll(s, changes).store;
        assert written.rows == after.rows;
        assert StoredKeys(links[..at]) == LinkKeys(c.links)[..at];
        assert ChangeLands(s, written, c);
        assert Lands(written, c.links[at], ToldAt(LinkKeys(c.links), at), HeldWaiting(s, i));
        ToldByCounting(WaitingKeys(s, Links(s, i)));
      } else {
        assert after.rows[i] == s.rows[i];
        if !Waits(s, key.target, key.part) {
          var l := AWaitingLink(after, links, key);
          LandingKeepsLinks(s, changes, entries, i, l);
        }
        WaitingAlike(s, after, links, key);
      }
    }
  }
}
