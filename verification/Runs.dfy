/** Runs of many clients drafting and landing sets, interleaved: every store they reach keeps what a store should, and
    what they land they land as if one after another. */
module Runs {
  import opened Iris
  import opened PortValues
  import opened Landing
  import opened Composition
  import opened Links
  import opened Draft
  import opened Drafting
  import opened Invariants
  import opened Applying
  import opened Agreement
  import opened Keeping
  import opened Serial
  import opened LateLanding

  // ---- a store and a later one

  /** An IRI held in both stores in one life. */
  predicate OneLife(s: Store, t: Store, i: Iri)
  {
    i in s.rows && i in t.rows && s.rows[i].born == t.rows[i].born
  }

  /** `kept` only grows under an IRI of one life. */
  ghost predicate VersionsStay(s: Store, t: Store)
  {
    forall v :: v in s.kept && OneLife(s, t, v.of) ==> v in t.kept && t.kept[v] == s.kept[v]
  }

  /** What a later store says of an earlier one: whatever lives on keeps its kind, its revision only rises and each
      revision is of one content; every other life began since. */
  ghost predicate Evolved(s: Store, t: Store)
  {
    && s.landings <= t.landings
    && (forall i :: OneLife(s, t, i) ==> LivesOn(s, t, i))
    && (forall i :: i in t.rows && !OneLife(s, t, i) ==> t.rows[i].born >= s.landings)
    && VersionsStay(s, t)
  }

  lemma EvolvedAtOnce(s: Store)
    ensures Evolved(s, s)
  {
  }

  lemma LifeInBetween(s: Store, t: Store, u: Store, i: Iri)
    requires RowsKept(s) && Evolved(s, t) && Evolved(t, u) && OneLife(s, u, i)
    ensures OneLife(s, t, i) && OneLife(t, u, i)
  {
    assert RowKept(i, s.rows[i], s.landings);
  }

  lemma EvolvedOnwards(s: Store, t: Store, u: Store)
    requires RowsKept(s) && Evolved(s, t) && Evolved(t, u)
    ensures Evolved(s, u)
  {
    forall i | OneLife(s, u, i)
      ensures LivesOn(s, u, i)
    {
      LifeInBetween(s, t, u, i);
      assert LivesOn(s, t, i) && LivesOn(t, u, i);
    }
    forall v | v in s.kept && OneLife(s, u, v.of)
      ensures v in u.kept && u.kept[v] == s.kept[v]
    {
      LifeInBetween(s, t, u, v.of);
    }
  }

  /** What landing a set of creates or revisions leaves of one artifact. */
  lemma PutRowEvolves(s: Store, d: Overlay, changes: seq<Change>, t: Store, i: Iri)
    requires RowsKept(s) && RowsKept(t) && d.store == s && Rises(d) && Changed(changes) == d.pending.Keys
    requires forall k :: 0 <= k < |changes| ==> changes[k].content.Some?
    requires i in t.rows && Left(s, changes, i) == Some(t.rows[i])
    requires i in d.pending ==> t.rows[i].content == d.pending[i]
    requires forall v: Named :: v.of !in Changed(changes) ==>
      (v in t.kept <==> v in s.kept) && (v in s.kept ==> t.kept[v] == s.kept[v])
    ensures if i in s.rows then OneLife(s, t, i) && LivesOn(s, t, i) else t.rows[i].born == s.landings
  {
    assert RowKept(i, t.rows[i], t.landings);
    assert i in s.rows ==> RowKept(i, s.rows[i], s.landings);
  }

  /** What the rows, and the versions, of a store say of an earlier one when each artifact evolved on its own. */
  lemma AllEvolved(s: Store, t: Store)
    requires s.landings <= t.landings && VersionsStay(s, t)
    requires forall i :: i in t.rows ==>
      if i in s.rows then OneLife(s, t, i) && LivesOn(s, t, i) else t.rows[i].born == s.landings
    ensures Evolved(s, t)
  {
    hide LivesOn;
  }

  lemma PutContents(s: Store, ops: seq<Operation>, entries: seq<Entry>)
    requires Inv(s) && OfOneSort(ops) && AllPut(ops) && Planned(s, ops).Drafted?
    requires Land(s, Planned(s, ops).handed, entries).Landed?
    ensures var r := Planned(s, ops);
      var t := Land(s, r.handed, entries).store;
      && r.draft.store == s && Changed(r.handed) == r.draft.pending.Keys && Rises(r.draft)
      && (forall k :: 0 <= k < |r.handed| ==> r.handed[k].content.Some?)
      && (forall i :: i in t.rows && i in r.draft.pending ==> t.rows[i].content == r.draft.pending[i])
      && VersionsStay(s, t)
  {
    var r := Planned(s, ops);
    var t := Land(s, r.handed, entries).store;
    DraftedPuts(s, ops);
    RevisionsRise(s, ops);
    LandedView(s, ops, entries);
    VersionsKeptAndMade(s, ops);
    assert t.kept == KeptBy(r.draft);
    forall k | 0 <= k < |r.handed|
      ensures r.handed[k].content.Some?
    {
      assert Bare(r.acts[k], r.handed[k]);
    }
    ViewReads(r.draft);
    assert StoreView(t).held == HeldBy(r.draft) && r.draft.removed == {};
    assert forall i :: i in t.rows ==> i in StoreView(t).held && t.rows[i].content == StoreView(t).held[i];
  }

  /** A set drafted on the store it lands on leaves a later store. */
  lemma PutsEvolve(s: Store, ops: seq<Operation>, entries: seq<Entry>)
    requires Inv(s) && OfOneSort(ops) && AllPut(ops) && Planned(s, ops).Drafted?
    requires Land(s, Planned(s, ops).handed, entries).Landed?
    ensures Evolved(s, Land(s, Planned(s, ops).handed, entries).store)
  {
    var r := Planned(s, ops);
    var t := Land(s, r.handed, entries).store;
    PutContents(s, ops, entries);
    LandedView(s, ops, entries);
    LandedRows(s, ops, entries);
    WritingLeaves(s, r.handed);
    assert t.kept == WriteAll(s, r.handed).store.kept && RowsKept(s) && RowsKept(t);
    hide Planned, Land, WriteAll, View, StoreView, Inv, Rises, RowsKept, VersionsStay, HeldBy;
    forall i | i in t.rows
      ensures if i in s.rows then OneLife(s, t, i) && LivesOn(s, t, i) else t.rows[i].born == s.landings
    {
      PutRowEvolves(s, r.draft, r.handed, t, i);
    }
    AllEvolved(s, t);
  }

  lemma FewerEvolves(s: Store, t: Store)
    requires s.landings <= t.landings
    requires forall i :: i in t.rows ==> i in s.rows && t.rows[i] == s.rows[i]
    requires forall v: Named :: v.of in t.rows ==> (v in t.kept <==> v in s.kept) && (v in s.kept ==> t.kept[v] == s.kept[v])
    ensures Evolved(s, t)
  {
    forall i | OneLife(s, t, i)
      ensures LivesOn(s, t, i)
    {
      assert AgreeAt(s, t, i);
    }
  }

  /** Changes that remove alone leave a later store, wherever they land. */
  lemma RemovingEvolves(s: Store, changes: seq<Change>, entries: seq<Entry>)
    requires Land(s, changes, entries).Landed? && forall k :: 0 <= k < |changes| ==> changes[k].content.None?
    ensures Evolved(s, Land(s, changes, entries).store)
  {
    LandedIsWritten(s, changes, entries);
    RowsAfterRemovals(s, changes);
    hide Land, WriteAll, Evolved, AllLand, SeversAny, Unmoved, Left;
    FewerEvolves(s, Land(s, changes, entries).store);
  }

  lemma RemovalsEvolve(s: Store, ops: seq<Operation>, entries: seq<Entry>)
    requires Inv(s) && AllRemovals(ops) && Planned(s, ops).Drafted?
    requires Land(s, Planned(s, ops).handed, entries).Landed?
    ensures Evolved(s, Land(s, Planned(s, ops).handed, entries).store)
  {
    RemovalsClear(s, ops);
    hide Planned, Land, Evolved, Inv, AllBare, FaultlessRemoval, Applied;
    RemovingEvolves(s, Planned(s, ops).handed, entries);
  }

  lemma LandedAsDraftedEvolves(s: Store, ops: seq<Operation>, entries: seq<Entry>)
    requires Inv(s) && OfOneSort(ops) && Planned(s, ops).Drafted?
    requires Land(s, Planned(s, ops).handed, entries).Landed?
    ensures Evolved(s, Land(s, Planned(s, ops).handed, entries).store)
  {
    if AllRemovals(ops) {
      RemovalsEvolve(s, ops, entries);
    } else {
      PutsEvolve(s, ops, entries);
    }
  }

  lemma PutRowRises(s: Store, t: Store, r: Drafted, x: Store, i: Iri)
    requires MetLate(s, t, r, x) && KindsStand(t, r.handed) && Rises(r.draft)
    requires RowsKept(s) && RowsKept(t) && RowsKept(x) && i in x.rows && i in r.draft.pending
    ensures if i in t.rows then OneLife(t, x, i) && LivesOn(t, x, i) else x.rows[i].born == t.landings
  {
    if i in t.rows {
      KindStands(s, t, r, x, i);
      assert RowKept(i, x.rows[i], x.landings) && RowKept(i, t.rows[i], t.landings);
      assert i in s.rows && RowKept(i, s.rows[i], s.landings);
    }
    hide View, KeepsAndAdds, OfTheirKinds, KindsStand, AgreeAt, RowsKept;
  }

  lemma LeftRowStays(s: Store, t: Store, r: Drafted, x: Store, i: Iri)
    requires MetLate(s, t, r, x) && r.draft.removed == {} && i in x.rows && i !in r.draft.pending
    ensures i in t.rows && OneLife(t, x, i) && LivesOn(t, x, i)
  {
    HeldByX(s, t, r, x, i);
    LeftAgrees(s, t, r, x, i);
    hide MetLate, AgreeAt;
  }

  lemma LateRowEvolves(s: Store, t: Store, r: Drafted, x: Store, i: Iri)
    requires r.Drafted? && MetLate(s, t, r, x) && KindsStand(t, r.handed) && Rises(r.draft) && r.draft.removed == {}
    requires RowsKept(s) && RowsKept(t) && RowsKept(x) && i in x.rows
    ensures if i in t.rows then OneLife(t, x, i) && LivesOn(t, x, i) else x.rows[i].born == t.landings
  {
    hide *;
    if i in r.draft.pending {
      PutRowRises(s, t, r, x, i);
    } else {
      LeftRowStays(s, t, r, x, i);
    }
  }

  lemma LeftAgrees(s: Store, t: Store, r: Drafted, x: Store, i: Iri)
    requires MetLate(s, t, r, x) && r.draft.removed == {} && i !in r.draft.pending
    ensures AgreeAt(t, x, i)
  {
    HeldByX(s, t, r, x, i);
    hide RowsWritten, StandsAlike, View, OfTheirKinds, KeepsAndAdds;
    forall v: Named | v.of == i
      ensures (v in t.kept <==> v in x.kept) && (v in t.kept ==> t.kept[v] == x.kept[v])
    {
      UnchangedIsKept(s, t, r, x, v);
      if v in t.kept {
        AddedStays(s, t, r, x, v);
      }
    }
  }

  /** A set drafted on an earlier store, landed where its kinds stand, leaves a later store. */
  lemma LatePutsEvolve(s: Store, t: Store, ops: seq<Operation>, entries: seq<Entry>)
    requires LandsOn(s, t, ops, entries) && AllPut(ops) && KindsStand(t, Planned(s, ops).handed)
    ensures Evolved(t, After(s, t, ops, entries))
  {
    var r, x := Planned(s, ops), After(s, t, ops, entries);
    BothAreKept(s, t, ops, entries);
    LateIsMet(s, t, ops, entries);
    LateDraftIsSound(s, ops);
    DraftedViews(s, t, r);
    LandedIsWritten(t, r.handed, entries);
    assert t.landings <= x.landings;
    hide *;
    forall i | i in x.rows
      ensures if i in t.rows then OneLife(t, x, i) && LivesOn(t, x, i) else x.rows[i].born == t.landings
    {
      LateRowEvolves(s, t, r, x, i);
    }
    MetKeepsVersions(s, t, r, x);
    AllEvolved(t, x);
  }

  lemma MetKeepsVersions(s: Store, t: Store, r: Drafted, x: Store)
    requires MetLate(s, t, r, x)
    ensures VersionsStay(t, x)
  {
    hide RowsWritten, StandsAlike, View, OfTheirKinds;
  }

  lemma LateRemovalsEvolve(s: Store, t: Store, ops: seq<Operation>, entries: seq<Entry>)
    requires LandsOn(s, t, ops, entries) && AllRemovals(ops)
    ensures Evolved(t, After(s, t, ops, entries))
  {
    RemovalsClear(s, ops);
    hide Planned, Land, Evolved, Inv, AllBare, FaultlessRemoval, Applied;
    RemovingEvolves(t, Planned(s, ops).handed, entries);
  }

  lemma LateEvolves(s: Store, t: Store, ops: seq<Operation>, entries: seq<Entry>)
    requires LandsOn(s, t, ops, entries) && Bears(t, Planned(s, ops).handed)
    ensures Evolved(t, After(s, t, ops, entries))
  {
    hide Planned, Land, Evolved, Inv;
    if AllRemovals(ops) {
      LateRemovalsEvolve(s, t, ops, entries);
    } else {
      LatePutsEvolve(s, t, ops, entries);
    }
  }

  // ---- many clients

  /** A set a client drafted, and the store it drafted it against. */
  datatype Attempt = Attempt(base: Store, ops: seq<Operation>)

  datatype World = World(store: Store, attempts: map<nat, Attempt>)

  /** One step of a run: a client drafts a set; one lands the set it drafted, as it drafted it; one drafts and lands a
      set while it holds the write lock; or what a piece of work read is recorded. A set refused changes nothing. */
  datatype Step =
    | Drafts(client: nat, ops: seq<Operation>)
    | LandsFirst(client: nat, entries: seq<Entry>)
    | LandsLocked(ops: seq<Operation>, entries: seq<Entry>)
    | Records(entries: seq<Entry>)

  ghost predicate Next(w: World, step: Step, x: World)
  {
    match step
    case Drafts(client, ops) =>
      OfOneSort(ops) && DraftSet(w.store, ops).Drafted?
      && x == w.(attempts := w.attempts[client := Attempt(w.store, ops)])
    case LandsFirst(client, entries) =>
      && client in w.attempts
      && var r := DraftSet(w.attempts[client].base, w.attempts[client].ops);
        && r.Drafted? && !r.locked
        && var landed := Land(w.store, r.handed, entries);
          landed.Landed? && x == World(landed.store, w.attempts - {client})
    case LandsLocked(ops, entries) =>
      && OfOneSort(ops)
      && var r := DraftSet(w.store, ops);
        && r.Drafted?
        && var landed := Land(w.store, r.handed, entries);
          landed.Landed? && x == w.(store := landed.store)
    case Records(entries) =>
      var landed := Land(w.store, [], entries);
      landed.Landed? && x == w.(store := landed.store)
  }

  /** Whether, when a step lands a set as it was first drafted, the store bears the changes it hands. */
  ghost predicate BorneIn(w: World, step: Step)
  {
    step.LandsFirst? && step.client in w.attempts ==>
      var r := DraftSet(w.attempts[step.client].base, w.attempts[step.client].ops);
      r.Drafted? ==> Bears(w.store, r.handed)
  }

  /** Whether no IRI a set read was removed and then held again between its draft and its landing. Revisions begin again
      at 1, so the comparisons alone do not tell the two lives apart. */
  ghost predicate NoneReborn(s: Store, t: Store, r: Drafted)
    requires r.Drafted?
  {
    forall i :: ReadBy(r, i) && i in s.rows && i in t.rows ==> OneLife(s, t, i)
  }

  ghost predicate NoneRebornIn(w: World, step: Step)
  {
    step.LandsFirst? && step.client in w.attempts ==>
      var a := w.attempts[step.client];
      var r := DraftSet(a.base, a.ops);
      r.Drafted? ==> NoneReborn(a.base, w.store, r)
  }

  /** What every world a run reaches keeps. */
  ghost predicate WellKept(w: World)
  {
    && Inv(w.store)
    && forall client :: client in w.attempts ==>
      var a := w.attempts[client];
      Inv(a.base) && OfOneSort(a.ops) && DraftSet(a.base, a.ops).Drafted? && Evolved(a.base, w.store)
  }

  /** A set landed as it was first drafted lands late as `Serial` has it. */
  lemma FirstLandsLate(w: World, client: nat, entries: seq<Entry>)
    requires WellKept(w) && client in w.attempts
    requires var a := w.attempts[client];
      var r := DraftSet(a.base, a.ops);
      r.Drafted? && !r.locked && NoneReborn(a.base, w.store, r) && Land(w.store, r.handed, entries).Landed?
    ensures LandsLate(w.attempts[client].base, w.store, w.attempts[client].ops, entries)
  {
    var a := w.attempts[client];
    DraftedIsPlanned(a.base, a.ops);
    var r := Planned(a.base, a.ops);
    hide DraftSet, Planned, Inv, Land, ReadBy;
    forall i | ReadBy(r, i)
      ensures LivesOn(a.base, w.store, i)
    {
      if i in a.base.rows && i in w.store.rows {
        assert OneLife(a.base, w.store, i);
      }
    }
  }

  /** The set a step lands, if it lands one. */
  ghost function SetOf(w: World, step: Step): (landed: Option<(seq<Operation>, seq<Entry>)>)
  {
    match step
    case LandsFirst(client, entries) => if client in w.attempts then Some((w.attempts[client].ops, entries)) else None
    case LandsLocked(ops, entries) => Some((ops, entries))
    case _ => None
  }

  /** Every step that lands a set leaves the store that drafting it where it lands, and landing it, leaves. */
  lemma StepsAreSerial(w: World, step: Step, x: World)
    requires WellKept(w) && Next(w, step, x) && NoneRebornIn(w, step) && SetOf(w, step).Some?
    ensures var (ops, entries) := SetOf(w, step).value;
      && OfOneSort(ops) && Planned(w.store, ops).Drafted?
      && Land(w.store, Planned(w.store, ops).handed, entries) == Landed(x.store)
  {
    match step
    case LandsFirst(client, entries) =>
      var a := w.attempts[client];
      FirstLandsLate(w, client, entries);
      DraftedIsPlanned(a.base, a.ops);
      hide DraftSet, Planned, Land;
      LateIsAfresh(a.base, w.store, a.ops, entries);
    case LandsLocked(ops, entries) =>
      DraftedIsPlanned(w.store, ops);
  }

  lemma RecordingKeeps(s: Store, entries: seq<Entry>)
    requires Inv(s) && Land(s, [], entries).Landed?
    ensures Inv(Land(s, [], entries).store) && Evolved(s, Land(s, [], entries).store)
  {
    var t := Land(s, [], entries).store;
    assert WriteAll(s, []) == Landed(s);
    assert t.rows == s.rows && t.kept == s.kept;
    assert StoreView(t) == StoreView(s);
    assert forall i :: i in s.rows ==> RowKept(i, s.rows[i], s.landings);
  }

  /** A set landed as it was first drafted lands on the store as it stands. */
  lemma FirstLandsOn(w: World, client: nat, entries: seq<Entry>, x: World)
    requires WellKept(w) && Next(w, LandsFirst(client, entries), x)
    ensures client in w.attempts && LandsOn(w.attempts[client].base, w.store, w.attempts[client].ops, entries)
    ensures var a := w.attempts[client];
      && DraftSet(a.base, a.ops) == Planned(a.base, a.ops)
      && x.store == After(a.base, w.store, a.ops, entries)
  {
    DraftedIsPlanned(w.attempts[client].base, w.attempts[client].ops);
  }

  /** Every step but a late landing keeps everything, and a late landing exactly when the store bears what it hands. */
  lemma StepsKeepWhereBorne(w: World, step: Step, x: World)
    requires WellKept(w) && Next(w, step, x)
    ensures Inv(x.store) <==> BorneIn(w, step)
    ensures BorneIn(w, step) ==> Evolved(w.store, x.store)
  {
    match step
    case Drafts(_, _) =>
      EvolvedAtOnce(w.store);
    case LandsFirst(client, entries) =>
      FirstLandsOn(w, client, entries, x);
      var a := w.attempts[client];
      hide DraftSet, Planned, Inv, Land, Evolved, Bears;
      KeptWhereBorne(a.base, w.store, a.ops, entries);
      if BorneIn(w, step) {
        LateEvolves(a.base, w.store, a.ops, entries);
      }
    case LandsLocked(ops, entries) =>
      DraftedIsPlanned(w.store, ops);
      hide DraftSet, Planned, Inv, Land, Evolved;
      LandedAsDraftedKeepsInv(w.store, ops, entries);
      LandedAsDraftedEvolves(w.store, ops, entries);
    case Records(entries) =>
      RecordingKeeps(w.store, entries);
  }

  /** Every step keeps what every world keeps, each late landing on a store that bears what it hands. */
  lemma StepsKeep(w: World, step: Step, x: World)
    requires WellKept(w) && Next(w, step, x) && BorneIn(w, step)
    ensures WellKept(x) && Evolved(w.store, x.store)
  {
    hide DraftSet, Land, Evolved, Inv, BorneIn, WellKept;
    StepsKeepWhereBorne(w, step, x);
    AttemptsKeep(w, step, x);
  }

  /** Where nothing a set read was held again, the store bears what it hands. */
  lemma NoneRebornIsBorne(w: World, step: Step, x: World)
    requires WellKept(w) && Next(w, step, x) && NoneRebornIn(w, step)
    ensures BorneIn(w, step)
  {
    if step.LandsFirst? {
      var a := w.attempts[step.client];
      var r := DraftSet(a.base, a.ops);
      FirstLandsLate(w, step.client, step.entries);
      FirstLandsOn(w, step.client, step.entries, x);
      hide DraftSet, Planned, Inv, Land, Evolved, Bears, LandsOn;
      LateIsAfresh(a.base, w.store, a.ops, step.entries);
      LandedAsDraftedKeepsInv(w.store, a.ops, step.entries);
      KeptWhereBorne(a.base, w.store, a.ops, step.entries);
    }
  }

  lemma AttemptsKeep(w: World, step: Step, x: World)
    requires WellKept(w) && Next(w, step, x) && Inv(x.store) && Evolved(w.store, x.store)
    ensures WellKept(x)
  {
    hide DraftSet, Land, Evolved;
    forall client | client in x.attempts
      ensures var a := x.attempts[client];
        Inv(a.base) && OfOneSort(a.ops) && DraftSet(a.base, a.ops).Drafted? && Evolved(a.base, x.store)
    {
      var a := x.attempts[client];
      if client in w.attempts && a == w.attempts[client] {
        assert RowsKept(a.base);
        EvolvedOnwards(a.base, w.store, x.store);
      } else {
        EvolvedAtOnce(w.store);
      }
    }
  }

  // ---- whole runs

  ghost predicate Fresh(w: World)
  {
    w.attempts == map[] && exists meta, entry :: Metaschema(meta) && Started(meta, entry) == Landed(w.store)
  }

  /** A run from a store just started. */
  ghost predicate IsRun(worlds: seq<World>, steps: seq<Step>)
  {
    && |worlds| == |steps| + 1 && Fresh(worlds[0])
    && forall k :: 0 <= k < |steps| ==> Next(worlds[k], steps[k], worlds[k + 1])
  }

  /** A run whose every late landing is on a store that bears what it hands. */
  ghost predicate IsBorneRun(worlds: seq<World>, steps: seq<Step>)
  {
    IsRun(worlds, steps) && forall k :: 0 <= k < |steps| ==> BorneIn(worlds[k], steps[k])
  }

  /** A run in which no IRI a set read is removed and held again between its draft and its landing. */
  ghost predicate IsUnbrokenRun(worlds: seq<World>, steps: seq<Step>)
  {
    IsRun(worlds, steps) && forall k :: 0 <= k < |steps| ==> NoneRebornIn(worlds[k], steps[k])
  }

  lemma RunBegins(worlds: seq<World>, steps: seq<Step>)
    requires IsRun(worlds, steps)
    ensures Fresh(worlds[0]) && |worlds| == |steps| + 1
  {
    hide Next, Fresh;
  }

  lemma StepOfARun(worlds: seq<World>, steps: seq<Step>, k: nat)
    requires IsRun(worlds, steps) && k < |steps|
    ensures |worlds| == |steps| + 1 && Next(worlds[k], steps[k], worlds[k + 1])
  {
    hide Next, Fresh;
  }

  lemma FreshIsKept(w: World)
    requires Fresh(w)
    ensures WellKept(w)
  {
    var meta, entry :| Metaschema(meta) && Started(meta, entry) == Landed(w.store);
    StartedKeeps(meta, entry);
  }

  /** A run keeps what every world keeps for as long as its late landings are borne. */
  lemma {:induction false} KeptSoFar(worlds: seq<World>, steps: seq<Step>, k: nat)
    requires IsRun(worlds, steps) && k < |worlds| && forall j :: 0 <= j < k && j < |steps| ==> BorneIn(worlds[j], steps[j])
    ensures WellKept(worlds[k])
  {
    hide *;
    RunBegins(worlds, steps);
    if k == 0 {
      FreshIsKept(worlds[0]);
    } else {
      KeptSoFar(worlds, steps, k - 1);
      StepOfARun(worlds, steps, k - 1);
      StepsKeep(worlds[k - 1], steps[k - 1], worlds[k]);
    }
  }

  lemma {:induction false} BorneSoFar(worlds: seq<World>, steps: seq<Step>, k: nat)
    requires IsRun(worlds, steps) && k < |worlds| && forall j :: 0 <= j <= k ==> Inv(worlds[j].store)
    ensures forall j :: 0 <= j < k && j < |steps| ==> BorneIn(worlds[j], steps[j])
  {
    hide *;
    if k > 0 {
      BorneSoFar(worlds, steps, k - 1);
      KeptSoFar(worlds, steps, k - 1);
      RunBegins(worlds, steps);
      StepOfARun(worlds, steps, k - 1);
      StepsKeepWhereBorne(worlds[k - 1], steps[k - 1], worlds[k]);
    }
  }

  /** A run keeps what every store should in every store it reaches exactly when each of its late landings is on a store
      that bears what it hands. */
  lemma RunsKeepExactly(worlds: seq<World>, steps: seq<Step>)
    requires IsRun(worlds, steps)
    ensures (forall k :: 0 <= k < |worlds| ==> Inv(worlds[k].store)) <==> IsBorneRun(worlds, steps)
  {
    RunBegins(worlds, steps);
    hide IsRun, Inv, BorneIn;
    if forall k :: 0 <= k < |worlds| ==> Inv(worlds[k].store) {
      BorneSoFar(worlds, steps, |steps|);
    }
    if IsBorneRun(worlds, steps) {
      forall k | 0 <= k < |worlds|
        ensures Inv(worlds[k].store)
      {
        KeptSoFar(worlds, steps, k);
        WellKeptIsKept(worlds[k]);
      }
    }
  }

  lemma WellKeptIsKept(w: World)
    requires WellKept(w)
    ensures Inv(w.store) && RowsKept(w.store)
  {
    hide Evolved, DraftSet;
  }

  lemma RunsKeep(worlds: seq<World>, steps: seq<Step>, k: nat)
    requires IsBorneRun(worlds, steps) && k < |worlds|
    ensures WellKept(worlds[k])
  {
    hide IsRun, BorneIn, WellKept;
    KeptSoFar(worlds, steps, k);
  }

  lemma {:induction false} UnbrokenSoFar(worlds: seq<World>, steps: seq<Step>, k: nat)
    requires IsUnbrokenRun(worlds, steps) && k < |worlds|
    ensures WellKept(worlds[k])
    ensures forall j :: 0 <= j < k && j < |steps| ==> BorneIn(worlds[j], steps[j])
  {
    hide BorneIn, WellKept, NoneRebornIn, IsRun, Next, Evolved;
    RunBegins(worlds, steps);
    if k == 0 {
      FreshIsKept(worlds[0]);
    } else {
      UnbrokenSoFar(worlds, steps, k - 1);
      StepOfARun(worlds, steps, k - 1);
      NoneRebornIsBorne(worlds[k - 1], steps[k - 1], worlds[k]);
      StepsKeep(worlds[k - 1], steps[k - 1], worlds[k]);
    }
  }

  /** Where nothing read is held again, every late landing is borne. */
  lemma UnbrokenRunsAreBorne(worlds: seq<World>, steps: seq<Step>)
    requires IsUnbrokenRun(worlds, steps)
    ensures IsBorneRun(worlds, steps)
  {
    hide BorneIn, NoneRebornIn, WellKept, Next, Fresh;
    UnbrokenSoFar(worlds, steps, |steps|);
  }

  /** What a link of a store says when it is well linked. */
  ghost predicate LinkPlaced(s: Store, l: Stored)
  {
    if l.implicit then l.target in s.rows && s.rows[l.target].kind == TYPES
    else if l.target in s.rows then s.rows[l.target].kind in l.kinds
    else exists t :: NearestType(StoreView(s), l.target) == Some(t) && t in l.kinds
  }

  lemma WellLinkedIsPlaced(s: Store, i: Iri, l: Stored)
    requires RowsKept(s) && LinkedWell(s) && i in s.rows && l in s.rows[i].links
    ensures LinkPlaced(s, l)
  {
    assert WellLinked(StoreView(s), l);
    assert l.target in s.rows ==> RowKept(l.target, s.rows[l.target], s.landings);
  }

  lemma PlacedByKind(s: Store, i: Iri)
    requires RowsKept(s) && Placed(StoreView(s)) && i in s.rows && s.rows[i].kind != TYPES
    ensures NearestType(StoreView(s), i) == Some(s.rows[i].kind)
  {
    assert RowKept(i, s.rows[i], s.landings) && i in StoreView(s).held;
  }

  /** In every store of every run: each artifact that is no type is of the nearest held type above its IRI; each link
      whose target is held lands on an artifact of a kind its field allows; each link to an IRI not held waits under
      the nearest held type above that IRI, and its field allows it; and every implicit link lands on a held type. */
  lemma EveryRunKeepsPlaces(worlds: seq<World>, steps: seq<Step>, k: nat)
    requires IsBorneRun(worlds, steps) && k < |worlds|
    ensures var s := worlds[k].store;
      && (forall i :: i in s.rows && s.rows[i].kind != TYPES ==> NearestType(StoreView(s), i) == Some(s.rows[i].kind))
      && (forall i, l :: i in s.rows && l in s.rows[i].links ==> LinkPlaced(s, l))
  {
    RunsKeep(worlds, steps, k);
    var s := worlds[k].store;
    assert RowsKept(s) && Placed(StoreView(s)) && LinkedWell(s);
    hide *;
    forall i | i in s.rows && s.rows[i].kind != TYPES
      ensures NearestType(StoreView(s), i) == Some(s.rows[i].kind)
    {
      PlacedByKind(s, i);
    }
    forall i, l | i in s.rows && l in s.rows[i].links
      ensures LinkPlaced(s, l)
    {
      WellLinkedIsPlaced(s, i, l);
    }
  }

  lemma VersionsOfAType(s: Store, v: Named)
    requires Inv(s)
    ensures v in s.kept <==> v.of in s.rows && s.rows[v.of].kind == TYPES && 1 <= v.number <= s.rows[v.of].content.number
  {
    var c := StoreView(s);
    assert KeptAreTyped(c) && NumbersRun(c) && RowsKept(s);
    assert v.of in s.rows ==> RowKept(v.of, s.rows[v.of], s.landings);
    assert v in c.kept ==> TypedAt(c, v.of);
    hide Inv, Placed, Referring, LinkedWell, Paced;
    assert TypedAt(c, v.of) ==> (v in c.kept <==> 1 <= v.number <= c.held[v.of].number);
  }

  lemma TypeStandsAtItsLast(s: Store, i: Iri)
    requires Inv(s) && i in s.rows && s.rows[i].kind == TYPES
    ensures var v := Named(i, s.rows[i].revision); v in s.kept && s.kept[v] == s.rows[i].content
    ensures s.rows[i].content.number == s.rows[i].revision
  {
    var c := StoreView(s);
    assert StandsAtLast(c) && Paced(c) && RowsKept(s) && RowKept(i, s.rows[i], s.landings) && TypedAt(c, i);
  }

  lemma WhatIsNamedIsKept(s: Store)
    requires Inv(s)
    ensures forall i :: i in s.rows ==> Conforming(s.rows[i].content) in s.kept
    ensures forall v, n :: v in s.kept && 0 <= n < |s.kept[v].schema.refers| ==> s.kept[v].schema.refers[n].to in s.kept
  {
    var c := StoreView(s);
    assert Conform(c) && Referring(c);
    assert forall i :: i in s.rows ==> i in c.held && c.held[i] == s.rows[i].content;
  }

  /** In every store of every run whose late landings are borne: the versions kept under an IRI are 1 up to the one its
      type stands at, and none where no type is held; that one is the type as it stands, numbered as its revision; what
      every artifact conforms to is kept; and so is what every version kept refers to. */
  lemma EveryRunKeepsVersions(worlds: seq<World>, steps: seq<Step>, k: nat)
    requires IsBorneRun(worlds, steps) && k < |worlds|
    ensures var s := worlds[k].store;
      && (forall v :: v in s.kept <==>
           v.of in s.rows && s.rows[v.of].kind == TYPES && 1 <= v.number <= s.rows[v.of].content.number)
      && (forall i :: i in s.rows && s.rows[i].kind == TYPES ==>
           && s.rows[i].content.number == s.rows[i].revision
           && Named(i, s.rows[i].revision) in s.kept && s.kept[Named(i, s.rows[i].revision)] == s.rows[i].content)
      && (forall i :: i in s.rows ==> Conforming(s.rows[i].content) in s.kept)
      && (forall v, n :: v in s.kept && 0 <= n < |s.kept[v].schema.refers| ==> s.kept[v].schema.refers[n].to in s.kept)
  {
    RunsKeep(worlds, steps, k);
    WellKeptIsKept(worlds[k]);
    var s := worlds[k].store;
    hide *;
    forall v
      ensures v in s.kept <==>
        v.of in s.rows && s.rows[v.of].kind == TYPES && 1 <= v.number <= s.rows[v.of].content.number
    {
      VersionsOfAType(s, v);
    }
    forall i | i in s.rows && s.rows[i].kind == TYPES
      ensures s.rows[i].content.number == s.rows[i].revision
      ensures Named(i, s.rows[i].revision) in s.kept && s.kept[Named(i, s.rows[i].revision)] == s.rows[i].content
    {
      TypeStandsAtItsLast(s, i);
    }
    WhatIsNamedIsKept(s);
  }

  /** One step of a run. */
  lemma AStepOfARun(worlds: seq<World>, steps: seq<Step>, k: nat)
    requires IsBorneRun(worlds, steps) && k < |steps|
    ensures |worlds| == |steps| + 1 && WellKept(worlds[k]) && RowsKept(worlds[k].store)
    ensures Next(worlds[k], steps[k], worlds[k + 1]) && Evolved(worlds[k].store, worlds[k + 1].store)
  {
    hide WellKept, Next, Evolved, RowsKept, Fresh, BorneIn;
    RunsKeep(worlds, steps, k);
    WellKeptIsKept(worlds[k]);
    StepsKeep(worlds[k], steps[k], worlds[k + 1]);
  }

  lemma BorneRunBegins(worlds: seq<World>, steps: seq<Step>)
    requires IsBorneRun(worlds, steps)
    ensures IsRun(worlds, steps) && Fresh(worlds[0]) && |worlds| == |steps| + 1
  {
    hide Next, Fresh, BorneIn;
  }

  lemma {:induction false} RunsEvolve(worlds: seq<World>, steps: seq<Step>, j: nat, k: nat)
    requires IsBorneRun(worlds, steps) && j <= k < |worlds|
    ensures Evolved(worlds[j].store, worlds[k].store)
    decreases k
  {
    hide *;
    BorneRunBegins(worlds, steps);
    if j == k {
      EvolvedAtOnce(worlds[j].store);
    } else {
      RunsEvolve(worlds, steps, j, k - 1);
      AStepOfARun(worlds, steps, j);
      AStepOfARun(worlds, steps, k - 1);
      EvolvedOnwards(worlds[j].store, worlds[k - 1].store, worlds[k].store);
    }
  }

  /** Over every run, a version kept of a type stays kept as it was made for as long as the type lives on; and an
      artifact of one life and one revision is one content. */
  lemma EveryRunKeepsWhatWasMade(worlds: seq<World>, steps: seq<Step>, j: nat, k: nat)
    requires IsBorneRun(worlds, steps) && j <= k < |worlds|
    ensures var (s, t) := (worlds[j].store, worlds[k].store);
      && (forall v :: v in s.kept && OneLife(s, t, v.of) ==> v in t.kept && t.kept[v] == s.kept[v])
      && (forall i :: OneLife(s, t, i) ==>
           s.rows[i].kind == t.rows[i].kind && s.rows[i].revision <= t.rows[i].revision
           && (s.rows[i].revision == t.rows[i].revision ==> s.rows[i] == t.rows[i]))
  {
    RunsEvolve(worlds, steps, j, k);
    var s, t := worlds[j].store, worlds[k].store;
    forall i | OneLife(s, t, i)
      ensures s.rows[i].kind == t.rows[i].kind && s.rows[i].revision <= t.rows[i].revision
      ensures s.rows[i].revision == t.rows[i].revision ==> s.rows[i] == t.rows[i]
    {
      assert LivesOn(s, t, i);
    }
  }

  // ---- one after another

  /** A set as it lands on its own: drafted where it lands, or one recording what was read. */
  datatype Alone = Lands(ops: seq<Operation>, entries: seq<Entry>) | Recording(entries: seq<Entry>)

  ghost function LandAlone(s: Store, a: Alone): Outcome
  {
    match a
    case Lands(ops, entries) =>
      if Planned(s, ops).Drafted? then Land(s, Planned(s, ops).handed, entries) else Conflict
    case Recording(entries) => Land(s, [], entries)
  }

  /** The store sets leave, landed one after another, each drafted only once the one before it has landed. */
  ghost function OneByOne(s: Store, sets: seq<Alone>): Outcome
  {
    if sets == [] then Landed(s)
    else
      match OneByOne(s, sets[..|sets| - 1])
      case Landed(before) => LandAlone(before, sets[|sets| - 1])
      case refused => refused
  }

  lemma OneMoreByOne(s: Store, sets: seq<Alone>, last: Alone)
    requires OneByOne(s, sets).Landed?
    ensures OneByOne(s, sets + [last]) == LandAlone(OneByOne(s, sets).store, last)
  {
    assert (sets + [last])[..|sets|] == sets;
  }

  /** The set a step lands, if it lands one, as a set of its own. */
  ghost function AloneIn(w: World, step: Step): (sets: seq<Alone>)
  {
    match SetOf(w, step)
    case Some((ops, entries)) => [Lands(ops, entries)]
    case None => if step.Records? then [Recording(step.entries)] else []
  }

  /** The sets the first steps of a run land, in the order they landed. */
  ghost function SetsIn(worlds: seq<World>, steps: seq<Step>, k: nat): (sets: seq<Alone>)
    requires k <= |steps| <= |worlds|
  {
    if k == 0 then [] else SetsIn(worlds, steps, k - 1) + AloneIn(worlds[k - 1], steps[k - 1])
  }

  lemma NoneByOne(s: Store, worlds: seq<World>, steps: seq<Step>)
    requires |steps| <= |worlds|
    ensures SetsIn(worlds, steps, 0) == [] && OneByOne(s, []) == Landed(s)
  {
  }

  lemma OneMoreSetIn(worlds: seq<World>, steps: seq<Step>, k: nat)
    requires 0 < k <= |steps| <= |worlds|
    ensures SetsIn(worlds, steps, k) == SetsIn(worlds, steps, k - 1) + AloneIn(worlds[k - 1], steps[k - 1])
  {
  }

  lemma AStepAlone(w: World, step: Step, x: World)
    requires WellKept(w) && Next(w, step, x) && NoneRebornIn(w, step)
    ensures var sets := AloneIn(w, step);
      |sets| <= 1 && if sets == [] then x.store == w.store else LandAlone(w.store, sets[0]) == Landed(x.store)
  {
    if SetOf(w, step).Some? {
      StepsAreSerial(w, step, x);
    }
  }

  lemma AnUnbrokenStep(worlds: seq<World>, steps: seq<Step>, k: nat)
    requires IsUnbrokenRun(worlds, steps) && k < |steps|
    ensures |worlds| == |steps| + 1 && NoneRebornIn(worlds[k], steps[k])
  {
    hide Next, Fresh, NoneRebornIn;
  }

  /** Every run in which nothing a set read is held again before it lands leaves the store that its sets leave landed one
      after another, in the order they landed. */
  lemma {:induction false} EveryRunIsSerial(worlds: seq<World>, steps: seq<Step>, k: nat)
    requires IsUnbrokenRun(worlds, steps) && k < |worlds|
    ensures k <= |steps| <= |worlds|
    ensures OneByOne(worlds[0].store, SetsIn(worlds, steps, k)) == Landed(worlds[k].store)
  {
    hide *;
    var start := worlds[0].store;
    UnbrokenRunsAreBorne(worlds, steps);
    BorneRunBegins(worlds, steps);
    NoneByOne(start, worlds, steps);
    if k > 0 {
      OneMoreSetIn(worlds, steps, k);
      var before, last := SetsIn(worlds, steps, k - 1), AloneIn(worlds[k - 1], steps[k - 1]);
      AStepOfARun(worlds, steps, k - 1);
      AnUnbrokenStep(worlds, steps, k - 1);
      EveryRunIsSerial(worlds, steps, k - 1);
      AStepAlone(worlds[k - 1], steps[k - 1], worlds[k]);
      if last == [] {
        assert before + last == before;
      } else {
        assert last == [last[0]];
        OneMoreByOne(start, before, last[0]);
      }
    }
  }
}
