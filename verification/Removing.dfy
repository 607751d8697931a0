/** When a set of removals is drafted, said of the store alone: each takes out something held, as it was read, once; and
    nothing left links into what they take out, reads a type of it, or waits under one. */
module Removing {
  import opened Iris
  import opened PortValues
  import opened Landing
  import opened Composition
  import opened Links
  import opened Draft
  import opened Drafting
  import opened Invariants
  import opened Applying
  import opened Agreement
  import opened Keeping

  /** What a set of removals takes out. */
  function Goes(ops: seq<Operation>): (gone: set<Iri>)
    requires AllRemovals(ops)
  {
    set k | 0 <= k < |ops| :: ops[k].id
  }

  /** Whether one of a set's removals may act: on something held, whole, at the revision it says, and not taken out
      before it. */
  predicate MayRemove(s: Store, ops: seq<Operation>, k: nat)
    requires AllRemovals(ops) && k < |ops|
  {
    && ops[k].whole && ops[k].id in s.rows
    && (ops[k].expected.Some? ==> ops[k].expected.value == s.rows[ops[k].id].content.revision)
    && forall j :: 0 <= j < k ==> ops[j].id != ops[k].id
  }

  ghost predicate AllMayRemove(s: Store, ops: seq<Operation>)
    requires AllRemovals(ops)
  {
    forall k :: 0 <= k < |ops| ==> MayRemove(s, ops, k)
  }

  /** Whether nothing left holds a link of its own into what goes. */
  ghost predicate NothingLeftLinksInto(s: Store, gone: set<Iri>)
  {
    forall i, l :: i in s.rows && i !in gone && l in s.rows[i].links && !l.implicit ==> l.target !in gone
  }

  // ---- each acts

  /** A draft of a set's removals: of the store, without what they take out. */
  ghost predicate DraftOf(s: Store, ops: seq<Operation>, d: Overlay, acts: seq<Act>)
    requires AllRemovals(ops)
  {
    && Clearing(d) && d.store == s && d.removed == Goes(ops) && |acts| == |ops|
    && forall k :: 0 <= k < |acts| ==> TakesFrom(s, acts[k]) && acts[k].id == ops[k].id
  }

  lemma GoesOneMore(ops: seq<Operation>)
    requires AllRemovals(ops) && ops != []
    ensures AllRemovals(ops[..|ops| - 1]) && Goes(ops) == Goes(ops[..|ops| - 1]) + {ops[|ops| - 1].id}
  {
    var n := |ops| - 1;
    assert forall k :: 0 <= k < n ==> ops[..n][k] == ops[k];
  }

  lemma MayRemoveOneMore(s: Store, ops: seq<Operation>)
    requires AllRemovals(ops) && ops != []
    ensures AllRemovals(ops[..|ops| - 1])
    ensures AllMayRemove(s, ops) <==> AllMayRemove(s, ops[..|ops| - 1]) && MayRemove(s, ops, |ops| - 1)
  {
    var n := |ops| - 1;
    assert forall k :: 0 <= k < n ==> ops[..n][k] == ops[k];
    forall k | 0 <= k < n
      ensures MayRemove(s, ops, k) <==> MayRemove(s, ops[..n], k)
    {
    }
  }

  /** The last removal acts on the draft of those before it exactly when it may. */
  lemma RemovesExactly(s: Store, ops: seq<Operation>, d: Overlay, acts: seq<Act>)
    requires AllRemovals(ops) && ops != []
    requires AllRemovals(ops[..|ops| - 1]) && DraftOf(s, ops[..|ops| - 1], d, acts)
    ensures Acted(d, ops[|ops| - 1]).Some? <==> MayRemove(s, ops, |ops| - 1)
    ensures Acted(d, ops[|ops| - 1]).Some? ==>
      var (e, act) := Acted(d, ops[|ops| - 1]).value;
      DraftOf(s, ops, e, acts + [act])
  {
    var n := |ops| - 1;
    GoesOneMore(ops);
    assert Holds(d, ops[n].id) <==> ops[n].id in s.rows && forall j :: 0 <= j < n ==> ops[j].id != ops[n].id by {
      assert forall j :: 0 <= j < n ==> ops[..n][j].id in Goes(ops[..n]);
    }
    if Acted(d, ops[n]).Some? {
      var (e, act) := Acted(d, ops[n]).value;
      var all := acts + [act];
      assert all[n] == act && forall k :: 0 <= k < n ==> all[k] == acts[k] && ops[..n][k] == ops[k];
    }
  }

  lemma {:induction false} AppliedExactly(s: Store, ops: seq<Operation>)
    requires AllRemovals(ops)
    ensures Applied(s, ops).Some? <==> AllMayRemove(s, ops)
    ensures Applied(s, ops).Some? ==> var (d, acts) := Applied(s, ops).value; DraftOf(s, ops, d, acts)
  {
    if ops != [] {
      var n := |ops| - 1;
      hide DraftOf, MayRemove, Acted, AllMayRemove;
      MayRemoveOneMore(s, ops);
      AppliedExactly(s, ops[..n]);
      if Applied(s, ops[..n]).Some? {
        var (d, acts) := Applied(s, ops[..n]).value;
        RemovesExactly(s, ops, d, acts);
      }
    }
  }

  // ---- each leaves no fault

  lemma LeftIsHeld(s: Store, d: Overlay, each: Linking) returns (l: Stored)
    requires Clearing(d) && d.store == s && Holds(d, each.source) && each in Carries(d, each.source)
    ensures each.source in s.rows && each.source !in d.removed
    ensures l in s.rows[each.source].links && !l.implicit && each == AsLinking(each.source, l)
  {
    StoredLinkingsHold(each.source, s.rows[each.source].links);
    l :| l in s.rows[each.source].links && !l.implicit && each == AsLinking(each.source, l);
  }

  lemma NoneLinksIn(s: Store, d: Overlay, i: Iri)
    requires Clearing(d) && d.store == s && NothingLeftLinksInto(s, d.removed) && i in d.removed
    ensures LinksIn(d, i) == []
  {
    LinksInHolds(d, i);
    if LinksIn(d, i) != [] {
      var l := LeftIsHeld(s, d, LinksIn(d, i)[0]);
      assert false;
    }
  }

  lemma NoneReads(s: Store, d: Overlay, reader: Iri, t: Iri)
    requires Clearing(d) && d.store == s && NoneReadGone(s, d.removed) && t in d.removed && reader !in d.removed
    ensures !ReadsType(d, reader, t)
  {
  }

  /** Of two IRIs that one sits under, one is met first going up. */
  lemma OneIsBetween(i: Iri, a: Iri, b: Iri)
    requires a in Above(i) && b in Above(i) && a != b
    ensures a in Between(i, b) || b in Between(i, a)
  {
    var j :| 0 <= j < |Above(i)| && Above(i)[j] == a;
    var k :| 0 <= k < |Above(i)| && Above(i)[k] == b;
    BetweenIsARunOfAbove(i, j);
    BetweenIsARunOfAbove(i, k);
    if j < k {
      assert Above(i)[..k][j] == a;
    } else {
      assert Above(i)[..j][k] == b;
    }
  }

  lemma NoneWaits(s: Store, d: Overlay, act: Act, each: Linking)
    requires LinkedWell(s) && Clearing(d) && d.store == s && act.id in d.removed && TypedAt(StoreView(s), act.id)
    requires NothingLeftLinksInto(s, d.removed) && NoneWaitsUnderGone(s, d.removed) && WaitingIn(d, each)
    requires Holds(d, each.source)
    ensures !NearestWas(View(d), each.target, act.id)
  {
    var l := LeftIsHeld(s, d, each);
    var i, target, c := each.source, l.target, StoreView(s);
    ClearingView(d);
    assert WellLinked(c, l);
    assert target !in s.rows;
    var t := NearestType(c, target).value;
    NearestTypeStands(c, target, t);
    assert WaitsUnder(s, i, l, t);
    if NearestWas(View(d), target, act.id) {
      NearestWasStands(View(d), target, act.id);
      hide Above, Between, NearestType, NearestWas, WellLinked;
      OneIsBetween(target, t, act.id);
      assert false;
    }
  }

  lemma WaitingIsHeld(d: Overlay, each: Linking)
    requires Clearing(d) && WaitingIn(d, each)
    ensures Holds(d, each.source)
  {
  }

  lemma RemovalIsFaultless(s: Store, d: Overlay, act: Act)
    requires LinkedWell(s) && RowsKept(s) && Clearing(d) && d.store == s && act.id in d.removed && TakesFrom(s, act)
    requires NothingLeftLinksInto(s, d.removed) && NoneReadGone(s, d.removed) && NoneWaitsUnderGone(s, d.removed)
    ensures FaultlessRemoval(d, act)
  {
    NoneLinksIn(s, d, act.id);
    if RemovesAType(act) {
      assert TypedAt(StoreView(s), act.id);
      forall reader | reader in Ids(d, TYPES)
        ensures !ReadsType(d, reader, act.id)
      {
        NoneReads(s, d, reader, act.id);
      }
      forall each | WaitingIn(d, each)
        ensures !NearestWas(View(d), each.target, act.id)
      {
        WaitingIsHeld(d, each);
        NoneWaits(s, d, act, each);
      }
    }
  }

  lemma FaultlessLinksNothing(s: Store, d: Overlay, acts: seq<Act>)
    requires Clearing(d) && d.store == s && d.removed == ActedOn(acts)
    requires forall k :: 0 <= k < |acts| ==> FaultlessRemoval(d, acts[k])
    ensures NothingLeftLinksInto(s, d.removed)
  {
    forall i, l | i in s.rows && i !in d.removed && l in s.rows[i].links && !l.implicit
      ensures l.target !in d.removed
    {
      if l.target in d.removed {
        var k :| 0 <= k < |acts| && acts[k].id == l.target;
        assert FaultlessRemoval(d, acts[k]);
        StoredLinkingsHold(i, s.rows[i].links);
        LinksInHolds(d, l.target);
        assert false;
      }
    }
  }

  lemma ActsOnWhatGoes(s: Store, ops: seq<Operation>, d: Overlay, acts: seq<Act>)
    requires AllRemovals(ops) && DraftOf(s, ops, d, acts)
    ensures d.removed == ActedOn(acts) && KeptWhole(d, acts)
  {
    hide LinksIn;
    forall i
      ensures i in Goes(ops) <==> i in ActedOn(acts)
    {
      if i in Goes(ops) {
        var k :| 0 <= k < |ops| && ops[k].id == i;
        assert acts[k].id == i;
      }
    }
  }

  lemma FaultlessExactlyWhen(s: Store, ops: seq<Operation>, d: Overlay, acts: seq<Act>)
    requires Inv(s) && AllRemovals(ops) && DraftOf(s, ops, d, acts)
    ensures (forall k :: 0 <= k < |acts| ==> Faultless(d, acts[k]))
      <==> NothingLeftLinksInto(s, Goes(ops)) && NoneReadGone(s, Goes(ops)) && NoneWaitsUnderGone(s, Goes(ops))
  {
    ActsOnWhatGoes(s, ops, d, acts);
    assert RowsKept(s) && Versioned(StoreView(s)) && Referring(StoreView(s)) && LinkedWell(s);
    assert forall k :: 0 <= k < |acts| ==> acts[k].id in ActedOn(acts);
    hide RowsKept, Versioned, Referring, LinkedWell, Inv, FaultlessRemoval, NothingLeftLinksInto, NoneReadGone;
    hide NoneWaitsUnderGone, Goes, ActedOn, Clearing, StoreView;
    if forall k :: 0 <= k < |acts| ==> Faultless(d, acts[k]) {
      FaultlessLinksNothing(s, d, acts);
      RemovalsReadNone(s, d, acts);
    }
    if NothingLeftLinksInto(s, Goes(ops)) && NoneReadGone(s, Goes(ops)) && NoneWaitsUnderGone(s, Goes(ops)) {
      forall k | 0 <= k < |acts|
        ensures Faultless(d, acts[k])
      {
        RemovalIsFaultless(s, d, acts[k]);
      }
    }
  }

  /** A set of removals is drafted exactly when each takes out something held, whole, at the revision it was read at and
      once; nothing left links into what goes; no version left of a type reads a type that goes; and nothing left waits on
      an IRI whose nearest type goes. */
  lemma RemovalsAreDraftedExactlyWhen(s: Store, ops: seq<Operation>)
    requires Inv(s) && AllRemovals(ops)
    ensures DraftSet(s, ops).Drafted? <==>
      && AllMayRemove(s, ops) && NothingLeftLinksInto(s, Goes(ops)) && NoneReadGone(s, Goes(ops))
      && NoneWaitsUnderGone(s, Goes(ops))
  {
    AppliedExactly(s, ops);
    hide Inv, Applied, AllMayRemove, DraftOf, NothingLeftLinksInto, NoneReadGone, NoneWaitsUnderGone, Faultless, KeptWhole;
    if Applied(s, ops).Some? {
      var (d, acts) := Applied(s, ops).value;
      ActsOnWhatGoes(s, ops, d, acts);
      FaultlessExactlyWhen(s, ops, d, acts);
    }
  }
}
