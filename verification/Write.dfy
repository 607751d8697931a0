/** The write path: a set drafted and landed as drafted when nothing it was read at has moved, and else drafted, stamped
    and landed again while the write lock is held; and a set checked only, answered as it would land. */
module Write {
  import opened Iris
  import opened PortValues
  import opened Landing
  import opened Composition
  import opened Draft
  import opened Drafting
  import opened Invariants
  import opened Applying
  import opened Agreement
  import opened Serial
  import opened LateLanding
  import opened Runs
  import opened Carrying
  import opened Journal

  /** `Journal.Stamp` of each moment against one store's history. */
  function Mint(s: Store, moments: seq<string>): (entries: seq<Entry>)
  {
    seq(|moments|, k requires 0 <= k < |moments| => Stamp(s.entries, moments, k))
  }

  /** An IRI and a revision per act. */
  function Did(acts: seq<Act>): (did: seq<(Iri, nat)>)
  {
    seq(|acts|, k requires 0 <= k < |acts| => (acts[k].id, acts[k].revision))
  }

  /** What landing a set answers: its faults; or the name of the set, what it did to each artifact and the store it
      left; or what the port raised. */
  datatype Answer = Faulty | Wrote(batch: string, did: seq<(Iri, nat)>, store: Store) | Raised(outcome: Outcome)

  ghost function Answered(s: Store, r: Drafted, entries: seq<Entry>): (a: Answer)
    requires r.Drafted? && entries != []
  {
    match Land(s, r.handed, entries)
    case Landed(store) => Wrote(entries[0].id, Did(r.acts), store)
    case refused => Raised(refused)
  }

  /** The stores a landing meets while others land: as it is drafted, as its ids are minted, as it is tried, and as it
      stands once the write lock is held, where nothing else lands before it does. */
  datatype Met = Met(drafted: Store, minted: Store, tried: Store, locked: Store)

  ghost predicate TriedConflicts(met: Met, r: Drafted, moments: seq<string>)
    requires r.Drafted?
  {
    r.locked || Land(met.tried, r.handed, Mint(met.minted, moments)) == Conflict
  }

  /** A set landed: tried as first drafted, unless its draft says it lands only under the lock; after a conflict drafted,
      stamped and landed again under it, whatever that raises. */
  ghost function LandSet(met: Met, ops: seq<Operation>, first: seq<string>, again: seq<string>): (a: Answer)
    requires first != [] && again != []
  {
    var r := DraftSet(met.drafted, ops);
    if r.Refused? then Faulty
    else if !TriedConflicts(met, r, first) then Answered(met.tried, r, Mint(met.minted, first))
    else
      var redrafted := DraftSet(met.locked, ops);
      if redrafted.Refused? then Faulty else Answered(met.locked, redrafted, Mint(met.locked, again))
  }

  /** A set checked only: drafted at one moment and answered with no name, nothing landed. */
  ghost function Checked(s: Store, ops: seq<Operation>): (a: Answer)
  {
    var r := DraftSet(s, ops);
    if r.Refused? then Faulty else Wrote("", Did(r.acts), s)
  }

  ghost predicate Moments(moments: seq<string>, ops: seq<Operation>)
  {
    |moments| == |ops| > 0 && forall k :: 0 <= k < |moments| ==> Moment(moments[k])
  }

  lemma MintIsFree(s: Store, moments: seq<string>, ops: seq<Operation>)
    requires StampedAll(s.entries) && Moments(moments, ops)
    ensures !IdsTaken(s, Mint(s, moments)) && StampedAll(Mint(s, moments))
  {
    hide Stamp, IdsTaken, StampedAll;
    MintedIdsAreFree(s, moments, Mint(s, moments));
  }

  // ---- no version of one number twice

  /** Whether what is kept of a type in one store is kept, by its numbers, in another. */
  ghost predicate KeptWithin(t: Store, s: Store, i: Iri)
  {
    forall v: Named :: v.of == i && v in t.kept ==> v in s.kept
  }

  /** Changes of which only those to types, or where nothing is held, make versions, and of one artifact all or none. */
  ghost predicate NumbersTypes(s: Store, changes: seq<Change>)
  {
    && (forall k :: 0 <= k < |changes| && changes[k].number.Some? ==>
         changes[k].artifact !in s.rows || TypedAt(StoreView(s), changes[k].artifact))
    && (forall j, k :: 0 <= j < |changes| && 0 <= k < |changes| && changes[j].artifact == changes[k].artifact ==>
         changes[j].number.Some? == changes[k].number.Some?)
  }

  /** An IRI at one revision in two stores, a type in the first or not held there, keeps no more versions in the second. */
  lemma WithinAtOneRevision(s: Store, t: Store, i: Iri)
    requires Inv(s) && Inv(t) && Rev(s, i) == Rev(t, i) && (i !in s.rows || TypedAt(StoreView(s), i))
    ensures KeptWithin(t, s, i)
  {
    assert RowsKept(s) && RowsKept(t);
    HeldIsRevised(s, i);
    HeldIsRevised(t, i);
    hide Inv, RowsKept;
    forall v: Named | v.of == i && v in t.kept
      ensures v in s.kept
    {
      OnlyTypesAreKept(t, v);
      KeptByRevision(s, t, v);
    }
  }

  /** Changes that were written on one store, written on another, make no version twice there: whatever was removed and
      held again in between, what stands at the revision it was read at keeps no version of a later number. */
  lemma {:induction false} LateMakesNoVersionTwice(s: Store, t: Store, changes: seq<Change>)
    requires Inv(s) && Inv(t) && WriteAll(s, changes).Landed? && NumbersTypes(s, changes)
    ensures WriteAll(t, changes).Landed? || WriteAll(t, changes).Conflict?
    ensures WriteAll(t, changes).Landed? ==> forall k :: 0 <= k < |changes| && changes[k].number.Some? ==>
      KeptWithin(WriteAll(t, changes).store, WriteAll(s, changes).store, changes[k].artifact)
  {
    hide Inv, KeptWithin, TypedAt, StoreView;
    if changes != [] {
      var n := |changes| - 1;
      var rest, c := changes[..n], changes[n];
      assert forall k :: 0 <= k < n ==> rest[k] == changes[k];
      LateMakesNoVersionTwice(s, t, rest);
      if WriteAll(t, rest).Landed? && Rev(WriteAll(t, rest).store, c.artifact) == c.read {
        var u, v := WriteAll(s, rest).store, WriteAll(t, rest).store;
        if c.number.Some? {
          WithinBefore(s, t, changes);
          NoClashWithin(u, v, c);
        }
        forall k | 0 <= k < |changes| && changes[k].number.Some?
          ensures KeptWithin(Write(v, c), Write(u, c), changes[k].artifact)
        {
          WrittenWithin(u, v, c, changes[k].artifact);
        }
      }
    }
  }

  /** An IRI no change was to, at one revision once they are written on each of two stores, was at one before. */
  lemma UnchangedWithin(s: Store, t: Store, rest: seq<Change>, i: Iri)
    requires Inv(s) && Inv(t) && WriteAll(s, rest).Landed? && WriteAll(t, rest).Landed? && i !in Changed(rest)
    requires Rev(WriteAll(s, rest).store, i) == Rev(WriteAll(t, rest).store, i)
    requires i !in s.rows || TypedAt(StoreView(s), i)
    ensures KeptWithin(WriteAll(t, rest).store, WriteAll(s, rest).store, i)
  {
    hide Inv, TypedAt, StoreView;
    WritingLeaves(s, rest);
    WritingLeaves(t, rest);
    hide WriteAll, Changed;
    assert Rev(s, i) == Rev(t, i);
    WithinAtOneRevision(s, t, i);
  }

  /** Before a change that makes a version is written, no more is kept of it on the one store than on the other. */
  lemma WithinBefore(s: Store, t: Store, changes: seq<Change>)
    requires Inv(s) && Inv(t) && changes != [] && WriteAll(s, changes).Landed? && NumbersTypes(s, changes)
    requires var (rest, c) := (changes[..|changes| - 1], changes[|changes| - 1]);
      && c.number.Some? && WriteAll(t, rest).Landed? && Rev(WriteAll(t, rest).store, c.artifact) == c.read
      && forall k :: 0 <= k < |rest| && rest[k].number.Some? ==>
           KeptWithin(WriteAll(t, rest).store, WriteAll(s, rest).store, rest[k].artifact)
    ensures var (rest, c) := (changes[..|changes| - 1], changes[|changes| - 1]);
      KeptWithin(WriteAll(t, rest).store, WriteAll(s, rest).store, c.artifact)
  {
    var n := |changes| - 1;
    var rest, c := changes[..n], changes[n];
    hide Inv, TypedAt, StoreView, KeptWithin;
    if c.artifact in Changed(rest) {
      var k :| 0 <= k < n && rest[k].artifact == c.artifact;
      assert changes[k] == rest[k] && changes[k].number.Some?;
    } else {
      UnchangedWithin(s, t, rest, c.artifact);
    }
  }

  lemma NoClashWithin(u: Store, v: Store, c: Change)
    requires KeptWithin(v, u, c.artifact) && !Clashes(u, c)
    ensures !Clashes(v, c)
  {
  }

  lemma WrittenWithin(u: Store, v: Store, c: Change, i: Iri)
    requires KeptWithin(v, u, i)
    ensures KeptWithin(Write(v, c), Write(u, c), i)
  {
  }

  // ---- at most two drafts

  /** What the stores a landing meets are: each as a run reaches it. */
  ghost predicate MeetsARun(met: Met, ops: seq<Operation>)
  {
    && Inv(met.drafted) && Inv(met.tried) && Inv(met.locked) && StampedAll(met.locked.entries)
    && OfOneSort(ops)
  }

  lemma DraftIsWritten(s: Store, ops: seq<Operation>)
    requires Inv(s) && OfOneSort(ops) && Planned(s, ops).Drafted?
    ensures WriteAll(s, Planned(s, ops).handed).Landed?
  {
    if AllRemovals(ops) {
      DraftedRemovals(s, ops);
    } else {
      AcceptedLinksLand(s, ops);
    }
  }

  lemma RemovalsMakeNone(s: Store, ops: seq<Operation>)
    requires AllRemovals(ops) && Planned(s, ops).Drafted?
    ensures NumbersTypes(s, Planned(s, ops).handed)
  {
    var r := Planned(s, ops);
    RemovalsClear(s, ops);
    forall k | 0 <= k < |r.handed|
      ensures r.handed[k].number.None?
    {
      HandedAs(s, ops, k);
      assert Bare(r.acts[k], r.handed[k]);
    }
  }

  /** Whether a change makes a version exactly when what it changes is a type, where anything stands. */
  ghost predicate NumbersAType(s: Store, d: Overlay, c: Change)
  {
    && c.artifact in d.pending && (c.number.Some? <==> Typed(d.pending[c.artifact]))
    && (c.number.Some? && c.artifact in s.rows ==> TypedAt(StoreView(s), c.artifact))
  }

  lemma HandedNumbersAType(s: Store, r: Drafted, k: nat)
    requires DraftIsSound(s, r) && OfTheirKinds(r) && RowsKept(s) && k < |r.handed|
    requires r.handed[k].artifact in s.rows ==>
      r.draft.pending[r.handed[k].artifact].kind == s.rows[r.handed[k].artifact].kind
    ensures NumbersAType(s, r.draft, r.handed[k])
  {
    var i := r.handed[k].artifact;
    assert Bare(r.acts[k], r.handed[k]);
    assert i in s.rows ==> RowKept(i, s.rows[i], s.landings);
    hide View, Versioned, Placed, Paced, RowsKept;
  }

  lemma DraftedNumbersAType(s: Store, ops: seq<Operation>, k: nat)
    requires Inv(s) && AllPut(ops) && Planned(s, ops).Drafted? && k < |Planned(s, ops).handed|
    ensures NumbersAType(s, Planned(s, ops).draft, Planned(s, ops).handed[k])
  {
    var r := Planned(s, ops);
    assert RowsKept(s);
    hide Planned, AllPut, Inv, RowsKept, NumbersAType;
    LateDraftIsSound(s, ops);
    HandedOfTheirKinds(s, ops);
    if r.handed[k].artifact in s.rows {
      DraftedKeepsKinds(s, ops, r.handed[k].artifact);
    }
    hide DraftIsSound;
    HandedNumbersAType(s, r, k);
  }

  lemma AllNumberTypes(s: Store, d: Overlay, changes: seq<Change>)
    requires forall k :: 0 <= k < |changes| ==> NumbersAType(s, d, changes[k])
    ensures NumbersTypes(s, changes)
  {
    hide TypedAt, StoreView;
  }

  lemma DraftedNumbersTypes(s: Store, ops: seq<Operation>)
    requires Inv(s) && OfOneSort(ops) && Planned(s, ops).Drafted?
    ensures NumbersTypes(s, Planned(s, ops).handed)
  {
    if AllRemovals(ops) {
      RemovalsMakeNone(s, ops);
    } else {
      var r := Planned(s, ops);
      hide Inv, Planned, NumbersAType, NumbersTypes;
      forall k | 0 <= k < |r.handed|
        ensures NumbersAType(s, r.draft, r.handed[k])
      {
        DraftedNumbersAType(s, ops, k);
      }
      AllNumberTypes(s, r.draft, r.handed);
    }
  }

  lemma ReadLivesOn(s: Store, t: Store, r: Drafted, i: Iri)
    requires r.Drafted? && NoneReborn(s, t, r) && Evolved(s, t) && ReadBy(r, i)
    ensures LivesOn(s, t, i)
  {
    if i in s.rows && i in t.rows {
      assert OneLife(s, t, i);
    }
  }

  /** Tried as first drafted, a set is refused for a conflict, or for what the port finds of its links; never by the
      database. */
  lemma FirstTryMakesNoVersionTwice(met: Met, ops: seq<Operation>, entries: seq<Entry>)
    requires MeetsARun(met, ops) && DraftSet(met.drafted, ops).Drafted?
    ensures !Land(met.tried, DraftSet(met.drafted, ops).handed, entries).Clash?
  {
    DraftedIsPlanned(met.drafted, ops);
    DraftIsWritten(met.drafted, ops);
    DraftedNumbersTypes(met.drafted, ops);
    hide DraftSet, Planned, Inv, NumbersTypes;
    LateMakesNoVersionTwice(met.drafted, met.tried, Planned(met.drafted, ops).handed);
  }

  /** A set never answers with a conflict, nor with a version made twice, whatever lands meanwhile: it is drafted at most
      twice, and what the port may still raise is a link it finds landing on nothing or landing in what the set takes
      out; from the second draft, only the last, and only of a set of removals. */
  lemma LandingNeverConflicts(met: Met, ops: seq<Operation>, first: seq<string>, again: seq<string>)
    requires MeetsARun(met, ops) && Moments(first, ops) && Moments(again, ops)
    ensures var a := LandSet(met, ops, first, again);
      && (a.Raised? ==> a.outcome.Unlanded? || a.outcome.Linked?)
      && (a.Raised? && TriedConflicts(met, DraftSet(met.drafted, ops), first) ==>
           a.outcome.Linked? && AllRemovals(ops))
  {
    var r := DraftSet(met.drafted, ops);
    if r.Drafted? {
      if !TriedConflicts(met, r, first) {
        FirstTryMakesNoVersionTwice(met, ops, Mint(met.minted, first));
      } else if DraftSet(met.locked, ops).Drafted? {
        DraftedIsPlanned(met.locked, ops);
        MintIsFree(met.locked, again, ops);
        DraftedUnderTheLockNeverConflicts(met.locked, ops, Mint(met.locked, again));
      }
    }
  }

  /** A set that lands answers what drafting it where it lands says of each artifact, and leaves what landing it there
      as drafted there leaves, whether it landed as first drafted or as drafted again. */
  lemma LandingIsAsDraftedThere(met: Met, ops: seq<Operation>, first: seq<string>, again: seq<string>)
    returns (at: Store, entries: seq<Entry>)
    requires MeetsARun(met, ops) && Moments(first, ops) && Moments(again, ops)
    requires LandSet(met, ops, first, again).Wrote?
    requires Evolved(met.drafted, met.tried)
    requires DraftSet(met.drafted, ops).Drafted? ==> NoneReborn(met.drafted, met.tried, DraftSet(met.drafted, ops))
    ensures at == met.tried || at == met.locked
    ensures Planned(at, ops).Drafted? && |entries| == |ops|
    ensures var a := LandSet(met, ops, first, again);
      && Land(at, Planned(at, ops).handed, entries) == Landed(a.store)
      && a.did == Did(Planned(at, ops).acts) && a.batch == entries[0].id
  {
    var r := DraftSet(met.drafted, ops);
    if TriedConflicts(met, r, first) {
      DraftedIsPlanned(met.locked, ops);
      return met.locked, Mint(met.locked, again);
    }
    DraftedIsPlanned(met.drafted, ops);
    entries := Mint(met.minted, first);
    hide DraftSet, Inv, Evolved, Land, ReadBy;
    assert LandsLate(met.drafted, met.tried, ops, entries) by {
      forall i | ReadBy(r, i)
        ensures LivesOn(met.drafted, met.tried, i)
      {
        ReadLivesOn(met.drafted, met.tried, r, i);
      }
    }
    LatePlans(met.drafted, met.tried, ops, entries);
    LateIsAfresh(met.drafted, met.tried, ops, entries);
    return met.tried, entries;
  }

  // ---- checked only

  /** With nothing landing in between, a set of creates, of replacements or of items added is refused when checked
      exactly when it is refused landing, and is else answered as it lands, its name aside. */
  lemma CheckedAnswersAsLanding(s: Store, ops: seq<Operation>, first: seq<string>, again: seq<string>)
    requires Inv(s) && StampedAll(s.entries) && AllPut(ops) && Moments(first, ops) && Moments(again, ops)
    ensures var (asked, landed) := (Checked(s, ops), LandSet(Met(s, s, s, s), ops, first, again));
      if asked.Faulty? then landed.Faulty? else landed.Wrote? && landed.did == asked.did
  {
    if DraftSet(s, ops).Drafted? {
      DraftedIsPlanned(s, ops);
      MintIsFree(s, first, ops);
      MintIsFree(s, again, ops);
      AcceptedSetsLand(s, ops, Mint(s, first));
      AcceptedSetsLand(s, ops, Mint(s, again));
    }
  }

  /** A set of removals is answered so exactly when it leaves no artifact of a type it takes out: those alone the port
      finds where the draft does not. */
  lemma CheckedRemovalsAnswerAsLanding(s: Store, ops: seq<Operation>, first: seq<string>, again: seq<string>)
    requires Inv(s) && AllCarry(s) && StampedAll(s.entries) && AllRemovals(ops)
    requires Moments(first, ops) && Moments(again, ops) && DraftSet(s, ops).Drafted?
    ensures var (asked, landed) := (Checked(s, ops), LandSet(Met(s, s, s, s), ops, first, again));
      if LeavesItsKind(s, Changed(DraftSet(s, ops).handed)) then landed == Raised(Linked)
      else landed.Wrote? && landed.did == asked.did
  {
    DraftedIsPlanned(s, ops);
    MintIsFree(s, first, ops);
    MintIsFree(s, again, ops);
    RemovalsLandWhenNoneIsLeftOfTheirKind(s, ops, Mint(s, first));
    RemovalsLandWhenNoneIsLeftOfTheirKind(s, ops, Mint(s, again));
  }

  // ---- over every run

  /** The entries a step adds to the history. */
  function EntriesOf(step: Step): (entries: seq<Entry>)
  {
    match step
    case Drafts(_, _) => []
    case LandsFirst(_, entries) => entries
    case LandsLocked(_, entries) => entries
    case Records(entries) => entries
  }

  lemma LandedEntries(s: Store, changes: seq<Change>, entries: seq<Entry>)
    requires Land(s, changes, entries).Landed?
    ensures var t := Land(s, changes, entries).store;
      t.entries == s.entries + entries && (IdsDistinct(s.entries) ==> IdsDistinct(t.entries))
  {
    WritingLeaves(s, changes);
    if IdsDistinct(s.entries) {
      LandingKeepsIdsDistinct(s, changes, entries);
    }
  }

  lemma StepAddsItsEntries(w: World, step: Step, x: World)
    requires Next(w, step, x)
    ensures x.store.entries == w.store.entries + EntriesOf(step)
    ensures IdsDistinct(w.store.entries) ==> IdsDistinct(x.store.entries)
  {
    match step
    case Drafts(_, _) =>
    case LandsFirst(client, entries) =>
      LandedEntries(w.store, DraftSet(w.attempts[client].base, w.attempts[client].ops).handed, entries);
    case LandsLocked(ops, entries) =>
      LandedEntries(w.store, DraftSet(w.store, ops).handed, entries);
    case Records(entries) =>
      LandedEntries(w.store, [], entries);
  }

  lemma FreshIdsDistinct(w: World)
    requires Runs.Fresh(w)
    ensures IdsDistinct(w.store.entries)
  {
    var meta, entry :| Metaschema(meta) && Started(meta, entry) == Landed(w.store);
    StartedKeeps(meta, entry);
  }

  /** In every store of every run, whatever ids the entries of its sets were given, no two entries share one. */
  lemma {:induction false} EveryRunKeepsIdsDistinct(worlds: seq<World>, steps: seq<Step>, k: nat)
    requires IsRun(worlds, steps) && k < |worlds|
    ensures IdsDistinct(worlds[k].store.entries)
  {
    hide *;
    RunBegins(worlds, steps);
    if k == 0 {
      FreshIdsDistinct(worlds[0]);
    } else {
      EveryRunKeepsIdsDistinct(worlds, steps, k - 1);
      StepOfARun(worlds, steps, k - 1);
      StepAddsItsEntries(worlds[k - 1], steps[k - 1], worlds[k]);
    }
  }

  ghost predicate MintedBefore(worlds: seq<World>, k: nat, entries: seq<Entry>)
    requires k < |worlds|
  {
    exists j: nat, moments :: j <= k && MintedFrom(worlds[j].store.entries, moments, entries)
  }

  /** A run whose every entry was stamped as entries are: at moments, of the history as some store before it held it. */
  ghost predicate IsStampedRun(worlds: seq<World>, steps: seq<Step>)
  {
    && IsRun(worlds, steps) && |worlds| == |steps| + 1 && StampedAll(worlds[0].store.entries)
    && forall k :: 0 <= k < |steps| ==> MintedBefore(worlds, k, EntriesOf(steps[k]))
  }

  lemma BothStamped(some: seq<Entry>, more: seq<Entry>)
    requires StampedAll(some) && StampedAll(more)
    ensures StampedAll(some + more)
  {
    hide Stamped;
  }

  lemma StampedRunBegins(worlds: seq<World>, steps: seq<Step>)
    requires IsStampedRun(worlds, steps)
    ensures IsRun(worlds, steps) && |worlds| == |steps| + 1 && StampedAll(worlds[0].store.entries)
  {
    hide IsRun, StampedAll, MintedBefore;
  }

  lemma AStampedStep(worlds: seq<World>, steps: seq<Step>, k: nat) returns (j: nat, moments: seq<string>)
    requires IsStampedRun(worlds, steps) && k < |steps|
    ensures |worlds| == |steps| + 1 && IsRun(worlds, steps)
    ensures j <= k && MintedFrom(worlds[j].store.entries, moments, EntriesOf(steps[k]))
  {
    hide IsRun, MintedFrom;
    assert MintedBefore(worlds, k, EntriesOf(steps[k]));
    j, moments :| j <= k && MintedFrom(worlds[j].store.entries, moments, EntriesOf(steps[k]));
  }

  lemma {:induction false} StampedRunsStayStamped(worlds: seq<World>, steps: seq<Step>, k: nat)
    requires IsStampedRun(worlds, steps) && k < |worlds|
    ensures StampedAll(worlds[k].store.entries)
  {
    hide *;
    StampedRunBegins(worlds, steps);
    if k > 0 {
      var j, moments := AStampedStep(worlds, steps, k - 1);
      StampedRunsStayStamped(worlds, steps, k - 1);
      StampedRunsStayStamped(worlds, steps, j);
      MintedIdsAreFree(worlds[j].store, moments, EntriesOf(steps[k - 1]));
      StepOfARun(worlds, steps, k - 1);
      StepAddsItsEntries(worlds[k - 1], steps[k - 1], worlds[k]);
      BothStamped(worlds[k - 1].store.entries, EntriesOf(steps[k - 1]));
    }
  }

  /** In every store of every run, a set of creates, of replacements or of items added that is drafted without a fault
      while the write lock is held lands there, stamped there: whatever landed before it, a client that takes the lock
      is not sent round again. */
  lemma UnderTheLockASetLands(
    worlds: seq<World>, steps: seq<Step>, k: nat, ops: seq<Operation>, moments: seq<string>)
    requires IsStampedRun(worlds, steps) && IsBorneRun(worlds, steps) && k < |worlds|
    requires AllPut(ops) && Moments(moments, ops) && DraftSet(worlds[k].store, ops).Drafted?
    ensures var s := worlds[k].store;
      Land(s, DraftSet(s, ops).handed, Mint(s, moments)).Landed?
  {
    var s := worlds[k].store;
    StampedRunsStayStamped(worlds, steps, k);
    RunsKeep(worlds, steps, k);
    assert Inv(s);
    DraftedIsPlanned(s, ops);
    hide IsStampedRun, IsBorneRun, DraftSet, Planned, Land, Inv, StampedAll, WellKept;
    MintIsFree(s, moments, ops);
    AcceptedSetsLand(s, ops, Mint(s, moments));
  }
}
