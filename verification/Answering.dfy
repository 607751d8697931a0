/** What a set is answered with: of each operation, the artifact it names and the revision it left that at, counted up
    from where the artifact stood, and in the end where the store holds it. */
module Answering {
  import opened Iris
  import opened PortValues
  import opened Landing
  import opened Composition
  import opened Draft
  import opened Drafting
  import opened Invariants
  import opened Applying
  import opened Agreement
  import opened Serial
  import opened LateLanding
  import opened Runs
  import opened Carrying
  import opened Journal
  import opened Write

  type Answers = seq<(Iri, nat)>

  /** Whether an answer is about the artifact the one before it in the set was last about. */
  predicate NextOf(did: Answers, j: int, k: int)
  {
    0 <= j < k < |did| && did[j].0 == did[k].0 && forall m :: j < m < k ==> did[m].0 != did[k].0
  }

  predicate FirstOf(did: Answers, k: int)
  {
    0 <= k < |did| && forall j :: 0 <= j < k ==> did[j].0 != did[k].0
  }

  predicate LastOf(did: Answers, k: int)
  {
    0 <= k < |did| && forall j :: k < j < |did| ==> did[j].0 != did[k].0
  }

  /** Whether an answer is of the artifact its operation names, at one more than that stood at: in the store, for the
      first of them, or where the one before left it, a removal leaving it at none. */
  ghost predicate Rises(at: Store, ops: seq<Operation>, did: Answers, k: nat)
    requires |did| == |ops| && k < |did|
  {
    && ActsOn(ops[k]) == Some(did[k].0)
    && (FirstOf(did, k) ==> did[k].1 == (if did[k].0 in at.rows then at.rows[did[k].0].revision else 0) + 1)
    && forall j: nat :: NextOf(did, j, k) ==> did[k].1 == (if ops[j].Remove? then 0 else did[j].1) + 1
  }

  /** Whether the last answer about an artifact is where a store holds it, or its removal when it does not. */
  ghost predicate Ends(after: Store, ops: seq<Operation>, did: Answers, k: nat)
    requires |did| == |ops| && k < |did|
  {
    LastOf(did, k) ==>
      && (did[k].0 in after.rows <==> !ops[k].Remove?)
      && (did[k].0 in after.rows ==> after.rows[did[k].0].revision == did[k].1)
  }

  ghost predicate RiseFrom(at: Store, ops: seq<Operation>, did: Answers)
  {
    |did| == |ops| && forall k :: 0 <= k < |did| ==> Rises(at, ops, did, k)
  }

  ghost predicate EndIn(after: Store, ops: seq<Operation>, did: Answers)
  {
    |did| == |ops| && forall k :: 0 <= k < |did| ==> Ends(after, ops, did, k)
  }

  // ---- what is written, change by change

  lemma {:induction false} ReadWhereItStood(s: Store, changes: seq<Change>, k: nat)
    requires WriteAll(s, changes).Landed? && k < |changes|
    ensures WriteAll(s, changes[..k]).Landed?
    ensures changes[k].read == Rev(WriteAll(s, changes[..k]).store, changes[k].artifact)
    decreases |changes|
  {
    var n := |changes| - 1;
    if k < n {
      ReadWhereItStood(s, changes[..n], k);
      assert changes[..n][..k] == changes[..k];
    }
  }

  /** Where an artifact stands after some of a set's changes: where the last of them to it left it, or as it was. */
  lemma StandsAfter(s: Store, changes: seq<Change>, i: Iri)
    requires WriteAll(s, changes).Landed?
    ensures i !in Changed(changes) ==> Rev(WriteAll(s, changes).store, i) == Rev(s, i)
    ensures i in Changed(changes) ==>
      var c := changes[LastAt(changes, i)];
      && (i in WriteAll(s, changes).store.rows <==> c.content.Some?)
      && Rev(WriteAll(s, changes).store, i) == if c.content.None? then 0 else c.revision
  {
    WritingLeaves(s, changes);
    hide WriteAll, Changed;
  }

  // ---- what each operation says of what it did

  /** Whether an act is of the artifact its operation names, which a removal alone leaves nothing of. */
  ghost predicate ActNames(op: Operation, act: Act)
  {
    ActsOn(op) == Some(act.id) && (act.left.None? <==> op.Remove?)
  }

  ghost predicate AllName(ops: seq<Operation>, acts: seq<Act>)
  {
    |ops| == |acts| && forall k :: 0 <= k < |ops| ==> ActNames(ops[k], acts[k])
  }

  lemma ActingNames(d: Overlay, op: Operation)
    requires Acted(d, op).Some?
    ensures ActNames(op, Acted(d, op).value.1)
  {
  }

  lemma {:induction false} AppliedNames(s: Store, ops: seq<Operation>)
    requires Applied(s, ops).Some?
    ensures AllName(ops, Applied(s, ops).value.1)
  {
    if ops != [] {
      var n := |ops| - 1;
      var d, acts, e, act := LastOperation(s, ops);
      hide *;
      AppliedNames(s, ops[..n]);
      ActingNames(d, ops[n]);
      NamesOneMore(ops, acts, act);
    }
  }

  lemma NamesOneMore(ops: seq<Operation>, acts: seq<Act>, act: Act)
    requires ops != [] && AllName(ops[..|ops| - 1], acts) && ActNames(ops[|ops| - 1], act)
    ensures AllName(ops, acts + [act])
  {
    hide ActNames;
    var n := |ops| - 1;
    assert forall k :: 0 <= k < n ==> ActNames(ops[..n][k], acts[k]);
  }

  // ---- the answers

  /** Whether acts and the changes handed over of them are those of a set's operations. */
  ghost predicate HandedFor(ops: seq<Operation>, acts: seq<Act>, changes: seq<Change>)
  {
    AllName(ops, acts) && AllBare(acts, changes)
  }

  /** One answer beside the change it is of. */
  lemma AnswerOf(ops: seq<Operation>, acts: seq<Act>, changes: seq<Change>, k: nat)
    requires HandedFor(ops, acts, changes) && k < |acts|
    ensures |Did(acts)| == |ops| == |changes|
    ensures var (i, n) := Did(acts)[k];
      && ActsOn(ops[k]) == Some(i) && changes[k].artifact == i && changes[k].revision == n == changes[k].read + 1
      && (changes[k].content.None? <==> ops[k].Remove?)
  {
    assert ActNames(ops[k], acts[k]) && Bare(acts[k], changes[k]);
  }

  lemma AnswerRises(s: Store, ops: seq<Operation>, acts: seq<Act>, changes: seq<Change>, k: nat)
    requires HandedFor(ops, acts, changes) && WriteAll(s, changes).Landed? && k < |acts|
    ensures |Did(acts)| == |ops| && Rises(s, ops, Did(acts), k)
  {
    var did, before := Did(acts), changes[..k];
    AnswerOf(ops, acts, changes, k);
    var i := did[k].0;
    ReadWhereItStood(s, changes, k);
    StandsAfter(s, before, i);
    forall j | 0 <= j < k
      ensures before[j].artifact == did[j].0 && before[j].revision == did[j].1 && (before[j].content.None? <==> ops[j].Remove?)
    {
      AnswerOf(ops, acts, changes, j);
    }
    hide HandedFor, WriteAll, Did, ActsOn;
    if FirstOf(did, k) {
      assert i !in Changed(before);
    }
    forall j: nat | NextOf(did, j, k)
      ensures did[k].1 == (if ops[j].Remove? then 0 else did[j].1) + 1
    {
      assert before[j].artifact == i;
      assert i in Changed(before);
      assert LastAt(before, i) == j;
    }
  }

  lemma AnswerEnds(s: Store, ops: seq<Operation>, acts: seq<Act>, changes: seq<Change>, after: Store, k: nat)
    requires HandedFor(ops, acts, changes) && WriteAll(s, changes).Landed? && k < |acts|
    requires after.rows == WriteAll(s, changes).store.rows
    ensures |Did(acts)| == |ops| && Ends(after, ops, Did(acts), k)
  {
    var did := Did(acts);
    AnswerOf(ops, acts, changes, k);
    var i := did[k].0;
    StandsAfter(s, changes, i);
    forall j | 0 <= j < |changes|
      ensures changes[j].artifact == did[j].0
    {
      AnswerOf(ops, acts, changes, j);
    }
    hide HandedFor, WriteAll, Did, ActsOn;
    if LastOf(did, k) {
      assert i in Changed(changes);
      assert LastAt(changes, i) == k;
    }
  }

  lemma AnswersAreOf(s: Store, ops: seq<Operation>, acts: seq<Act>, changes: seq<Change>, after: Store)
    requires HandedFor(ops, acts, changes) && WriteAll(s, changes).Landed?
    requires after.rows == WriteAll(s, changes).store.rows
    ensures RiseFrom(s, ops, Did(acts)) && EndIn(after, ops, Did(acts))
  {
    assert |Did(acts)| == |ops|;
    hide HandedFor, WriteAll, Did, Rises, Ends;
    forall k | 0 <= k < |ops|
      ensures Rises(s, ops, Did(acts), k) && Ends(after, ops, Did(acts), k)
    {
      AnswerRises(s, ops, acts, changes, k);
      AnswerEnds(s, ops, acts, changes, after, k);
    }
  }

  lemma DraftedIsHandedFor(s: Store, ops: seq<Operation>)
    requires Inv(s) && OfOneSort(ops) && DraftSet(s, ops).Drafted?
    ensures var r := DraftSet(s, ops); HandedFor(ops, r.acts, r.handed) && WriteAll(s, r.handed).Landed?
  {
    DraftedIsPlanned(s, ops);
    DraftIsWritten(s, ops);
    hide Inv, Planned, DraftSet, WriteAll, HandsOver;
    if AllRemovals(ops) {
      RemovalsClear(s, ops);
    } else {
      DraftedPuts(s, ops);
    }
    AppliedNames(s, ops);
  }

  lemma LandedIsWritten(s: Store, changes: seq<Change>, entries: seq<Entry>)
    requires Land(s, changes, entries).Landed?
    ensures WriteAll(s, changes).Landed? && Land(s, changes, entries).store.rows == WriteAll(s, changes).store.rows
  {
  }

  /** A set that lands answers, for each operation in turn, the artifact it names and the revision it left it at: one more
      than the artifact stood at in the store the set landed on, and for a later operation on it one more again; the last
      such answer is the revision the store then holds it at, and there is none there exactly of what the last removed. */
  lemma LandedAnswers(met: Met, ops: seq<Operation>, first: seq<string>, again: seq<string>) returns (at: Store)
    requires MeetsARun(met, ops) && Moments(first, ops) && Moments(again, ops)
    requires LandSet(met, ops, first, again).Wrote?
    ensures at == met.tried || at == met.locked
    ensures var a := LandSet(met, ops, first, again); RiseFrom(at, ops, a.did) && EndIn(a.store, ops, a.did)
  {
    var r := DraftSet(met.drafted, ops);
    var entries;
    if TriedConflicts(met, r, first) {
      at, r, entries := met.locked, DraftSet(met.locked, ops), Mint(met.locked, again);
      DraftedIsHandedFor(met.locked, ops);
    } else {
      at, entries := met.tried, Mint(met.minted, first);
      DraftedIsHandedFor(met.drafted, ops);
    }
    LandedIsWritten(at, r.handed, entries);
    hide Land, DraftSet, WriteAll, HandedFor, RiseFrom, EndIn, Mint;
    AnswersAreOf(at, ops, r.acts, r.handed, Land(at, r.handed, entries).store);
  }

  /** A set checked only answers each artifact it would change at the revision it would leave it at, counted from the
      store it was checked against. */
  lemma CheckedRises(s: Store, ops: seq<Operation>)
    requires Inv(s) && OfOneSort(ops) && Checked(s, ops).Wrote?
    ensures RiseFrom(s, ops, Checked(s, ops).did)
  {
    var r := DraftSet(s, ops);
    DraftedIsHandedFor(s, ops);
    hide DraftSet, WriteAll, HandedFor, RiseFrom, EndIn;
    AnswersAreOf(s, ops, r.acts, r.handed, WriteAll(s, r.handed).store);
  }

  /** And where the set, landed with nothing landing in between, leaves it. */
  lemma CheckedEndsWhereLandingLeaves(s: Store, ops: seq<Operation>, first: seq<string>, again: seq<string>)
    requires MeetsARun(Met(s, s, s, s), ops) && Moments(first, ops) && Moments(again, ops)
    requires LandSet(Met(s, s, s, s), ops, first, again).Wrote?
    ensures Checked(s, ops).Wrote?
    ensures EndIn(LandSet(Met(s, s, s, s), ops, first, again).store, ops, Checked(s, ops).did)
  {
    var at := LandedAnswers(Met(s, s, s, s), ops, first, again);
    hide EndIn, RiseFrom;
  }

  // ---- whether it lands

  /** A set of creates, of replacements or of items added that is drafted without a fault both at first and under the lock
      is never answered with a fault; and where its first try conflicts, or may not be made, it lands under the lock. */
  lemma DraftedTwiceIsNeverFaulty(met: Met, ops: seq<Operation>, first: seq<string>, again: seq<string>)
    requires MeetsARun(met, ops) && Moments(first, ops) && Moments(again, ops) && AllPut(ops)
    requires DraftSet(met.drafted, ops).Drafted? && DraftSet(met.locked, ops).Drafted?
    ensures var (r, a) := (DraftSet(met.drafted, ops), LandSet(met, ops, first, again));
      && !a.Faulty?
      && (r.locked || Land(met.tried, r.handed, Mint(met.minted, first)).Conflict? ==> a.Wrote?)
  {
    DraftedIsPlanned(met.locked, ops);
    hide Planned, DraftSet, Inv, Land, Mint, StampedAll;
    MintIsFree(met.locked, again, ops);
    AcceptedSetsLand(met.locked, ops, Mint(met.locked, again));
  }
}
