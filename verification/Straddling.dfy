/** A draft whose reads another landing falls between: the revision an operation says it read is compared with one read
    of its artifact, and the operation then acts on another. What is compared may no longer stand. */
module Straddling {
  import opened Iris
  import opened PortValues
  import opened Landing
  import opened Composition
  import opened Draft
  import opened Drafting
  import opened Invariants
  import opened Applying
  import opened Runs
  import opened OneOperation
  import ActedOver

  /** Whether an operation says the revision it read its artifact at. */
  predicate SaysItRead(op: Operation)
  {
    (op.Revise? || op.Remove?) && op.expected.Some?
  }

  function Said(op: Operation): nat
    requires SaysItRead(op)
  {
    op.expected.value
  }

  /** The operation saying none. */
  function Unsaid(op: Operation): Operation
  {
    if op.Revise? || op.Remove? then op.(expected := None) else op
  }

  /** The draft as the first of an operation's two reads finds it: over the store as it stood then; but a type is kept as
      first read, so of one both reads are the same. */
  function AsAsked(d: Overlay, asked: Store, i: Iri): Overlay
  {
    if i in asked.rows && Typed(asked.rows[i].content) then d else d.(store := asked)
  }

  predicate Answered(d: Overlay, asked: Store, op: Operation)
  {
    op.Revise? || op.Remove? ==> ReadAs(AsAsked(d, asked, op.id), op.id, op.expected)
  }

  ghost function ActedAsking(d: Overlay, asked: Store, op: Operation): (done: Option<(Overlay, Act)>)
  {
    if Answered(d, asked, op) then Acted(d, Unsaid(op)) else None
  }

  /** A set's operations applied, what each says it read compared in a store of its own. */
  ghost function AppliedAsking(s: Store, asked: seq<Store>, ops: seq<Operation>): (done: Option<(Overlay, seq<Act>)>)
    requires |asked| == |ops|
    ensures done.Some? ==> |done.value.1| == |ops|
  {
    if ops == [] then Some((Draft.Fresh(s), []))
    else
      match AppliedAsking(s, asked[..|ops| - 1], ops[..|ops| - 1])
      case None => None
      case Some((d, acts)) =>
        match ActedAsking(d, asked[|ops| - 1], ops[|ops| - 1])
        case None => None
        case Some((e, act)) => Some((e, acts + [act]))
  }

  ghost function DraftAsking(s: Store, asked: seq<Store>, ops: seq<Operation>): (r: Drafted)
    requires |asked| == |ops|
  {
    match AppliedAsking(s, asked, ops)
    case None => Refused
    case Some((d, acts)) =>
      if (forall k :: 0 <= k < |acts| ==> Faultless(d, acts[k])) && KeptWhole(d, acts) then
        FaultlessStand(d, acts);
        StandingAreTyped(d, acts);
        HandedAll(d, acts)
      else Refused
  }

  /** Whether an artifact an operation acts on is one an earlier operation of the set acted on. */
  predicate ActedBefore(ops: seq<Operation>, k: nat)
    requires k < |ops|
  {
    exists j :: 0 <= j < k && ActsOn(ops[j]) == ActsOn(ops[k])
  }

  /** Whether one operation of a set acts on what its maker read, or on what the set itself left. */
  predicate StandsAt(s: Store, ops: seq<Operation>, k: nat)
    requires k < |ops|
  {
    SaysItRead(ops[k]) && !ActedBefore(ops, k) ==>
      ops[k].id in s.rows && s.rows[ops[k].id].content.revision == Said(ops[k])
  }

  /** Whether each artifact a set says it read stands in a store at the revision it says, but where the set itself has
      changed it by then. */
  predicate StandsAsSaid(s: Store, ops: seq<Operation>)
  {
    forall k :: 0 <= k < |ops| ==> StandsAt(s, ops, k)
  }

  /** What a draft has touched: what its operations acted on. */
  ghost predicate TouchedBy(d: Overlay, s: Store, ops: seq<Operation>)
  {
    d.store == s && forall i :: Touched(d, i) <==> exists j :: 0 <= j < |ops| && ActsOn(ops[j]) == Some(i)
  }

  lemma ActingTouches(d: Overlay, op: Operation)
    requires Acted(d, op).Some?
    ensures var e := Acted(d, op).value.0;
      e.store == d.store && ActsOn(op).Some? && forall i :: Touched(e, i) <==> Touched(d, i) || i == ActsOn(op).value
  {
  }

  lemma TouchedByOneMore(d: Overlay, e: Overlay, s: Store, ops: seq<Operation>)
    requires ops != [] && TouchedBy(d, s, ops[..|ops| - 1]) && e.store == s && ActsOn(ops[|ops| - 1]).Some?
    requires forall i :: Touched(e, i) <==> Touched(d, i) || i == ActsOn(ops[|ops| - 1]).value
    ensures TouchedBy(e, s, ops)
  {
    var n := |ops| - 1;
    forall i
      ensures Touched(e, i) <==> exists j :: 0 <= j < |ops| && ActsOn(ops[j]) == Some(i)
    {
      if Touched(d, i) {
        var j :| 0 <= j < n && ActsOn(ops[..n][j]) == Some(i);
        assert ActsOn(ops[j]) == Some(i);
      }
      if j :| 0 <= j < |ops| && ActsOn(ops[j]) == Some(i) {
        assert j < n ==> ActsOn(ops[..n][j]) == Some(i);
        assert j < n ==> Touched(d, i);
      }
    }
  }

  /** Saying a revision, an operation acts as it does saying none, where it stands so. */
  lemma SaidIsCompared(d: Overlay, op: Operation)
    ensures Acted(d, op) ==
      if SaysItRead(op) && Holds(d, op.id) && ArtifactAt(d, op.id).revision != Said(op) then None else Acted(d, Unsaid(op))
  {
  }

  /** An operation whose first read was answered acts as it would have, but where what it says no longer stands. */
  lemma AnsweredActs(d: Overlay, s: Store, asked: Store, ops: seq<Operation>)
    requires ops != [] && TouchedBy(d, s, ops[..|ops| - 1]) && ActedAsking(d, asked, ops[|ops| - 1]).Some?
    ensures var n, op := |ops| - 1, ops[|ops| - 1];
      Acted(d, op) == if StandsAt(s, ops, n) then ActedAsking(d, asked, op) else None
  {
    var n, op := |ops| - 1, ops[|ops| - 1];
    SaidIsCompared(d, op);
    ActingTouches(d, Unsaid(op));
    if SaysItRead(op) {
      assert Touched(d, op.id) <==> ActedBefore(ops, n) by {
        assert forall j :: 0 <= j < n ==> ops[..n][j] == ops[j];
      }
    }
  }

  lemma StandsAtSoFar(s: Store, ops: seq<Operation>, k: nat)
    requires k < |ops| - 1
    ensures StandsAt(s, ops[..|ops| - 1], k) == StandsAt(s, ops, k)
  {
    var rest := ops[..|ops| - 1];
    assert forall j :: 0 <= j <= k ==> rest[j] == ops[j];
    assert ActedBefore(rest, k) == ActedBefore(ops, k);
  }

  lemma SaidSoFar(s: Store, ops: seq<Operation>)
    requires ops != []
    ensures StandsAsSaid(s, ops) == (StandsAsSaid(s, ops[..|ops| - 1]) && StandsAt(s, ops, |ops| - 1))
  {
    hide StandsAt;
    var n := |ops| - 1;
    forall k: nat | k < n
      ensures StandsAt(s, ops[..n], k) == StandsAt(s, ops, k)
    {
      StandsAtSoFar(s, ops, k);
    }
    if StandsAsSaid(s, ops) {
      assert forall k: nat :: k < n ==> StandsAt(s, ops, k);
    }
    if StandsAsSaid(s, ops[..n]) && StandsAt(s, ops, n) {
      forall k | 0 <= k < |ops|
        ensures StandsAt(s, ops, k)
      {
        assert k < n ==> StandsAt(s, ops[..n], k);
      }
    }
  }

  /** Applied with its reads apart, a set comes to what it does with them at once, or, where something it says no longer
      stands, to what it would have been refused. */
  lemma {:induction false} AskingApplies(s: Store, asked: seq<Store>, ops: seq<Operation>)
    requires |asked| == |ops| && AppliedAsking(s, asked, ops).Some?
    ensures TouchedBy(AppliedAsking(s, asked, ops).value.0, s, ops)
    ensures Applied(s, ops) == if StandsAsSaid(s, ops) then AppliedAsking(s, asked, ops) else None
  {
    if ops != [] {
      var n, op := |ops| - 1, ops[|ops| - 1];
      AskingApplies(s, asked[..n], ops[..n]);
      var (d, acts) := AppliedAsking(s, asked[..n], ops[..n]).value;
      var (e, act) := ActedAsking(d, asked[n], op).value;
      hide Acted, Answered, Touched, StandsAt;
      AnsweredActs(d, s, asked[n], ops);
      SaidSoFar(s, ops);
      AskingTouches(d, s, asked[n], ops);
    }
  }

  lemma AskingTouches(d: Overlay, s: Store, asked: Store, ops: seq<Operation>)
    requires ops != [] && TouchedBy(d, s, ops[..|ops| - 1]) && ActedAsking(d, asked, ops[|ops| - 1]).Some?
    ensures TouchedBy(ActedAsking(d, asked, ops[|ops| - 1]).value.0, s, ops)
  {
    ActingTouches(d, Unsaid(ops[|ops| - 1]));
    assert ActsOn(Unsaid(ops[|ops| - 1])) == ActsOn(ops[|ops| - 1]);
    hide Touched, Acted;
    TouchedByOneMore(d, ActedAsking(d, asked, ops[|ops| - 1]).value.0, s, ops);
  }

  /** A set drafted with its reads apart is what it is drafted as at once exactly where everything it says it read still
      stands as it says when it acts; where something does not, at once it is refused. */
  lemma DraftedApartAsAtOnce(s: Store, asked: seq<Store>, ops: seq<Operation>)
    requires |asked| == |ops| && DraftAsking(s, asked, ops).Drafted?
    ensures DraftSet(s, ops) == if StandsAsSaid(s, ops) then DraftAsking(s, asked, ops) else Refused
  {
    AskingApplies(s, asked, ops);
    hide Faultless, KeptWhole, HandedAll, Applied, AppliedAsking, StandsAsSaid;
  }

  function AllUnsaid(ops: seq<Operation>): (unsaid: seq<Operation>)
  {
    seq(|ops|, k requires 0 <= k < |ops| => Unsaid(ops[k]))
  }

  lemma {:induction false} AskingAppliesUnsaid(s: Store, asked: seq<Store>, ops: seq<Operation>)
    requires |asked| == |ops| && AppliedAsking(s, asked, ops).Some?
    ensures Applied(s, AllUnsaid(ops)) == AppliedAsking(s, asked, ops)
  {
    if ops != [] {
      var n := |ops| - 1;
      AskingAppliesUnsaid(s, asked[..n], ops[..n]);
      assert AllUnsaid(ops)[..n] == AllUnsaid(ops[..n]) && AllUnsaid(ops)[n] == Unsaid(ops[n]);
      hide Acted, Answered;
    }
  }

  /** Whatever its reads were answered, it is drafted as the same set saying nothing of what it read: what every run of
      sets drafted at once keeps, it keeps. */
  lemma DraftedApartAsUnsaid(s: Store, asked: seq<Store>, ops: seq<Operation>)
    requires |asked| == |ops| && DraftAsking(s, asked, ops).Drafted?
    ensures DraftSet(s, AllUnsaid(ops)) == DraftAsking(s, asked, ops)
  {
    AskingAppliesUnsaid(s, asked, ops);
    hide Faultless, KeptWhole, HandedAll, Applied, AppliedAsking;
  }

  // ---- a change landed over one its maker had not read

  function Asking(name: Iri, n: nat, body: Body): Operation
  {
    Revise(name, Some(n), None, Rewriting(body))
  }

  lemma AskedOfTheFirst(s: Store, t: Store, name: Iri, n: nat, body: Body, d: Overlay, act: Act)
    requires name in s.rows && !Typed(s.rows[name].content) && s.rows[name].content.revision == n
    requires Acted(Draft.Fresh(t), Revising(name, body)) == Some((d, act))
    ensures AppliedAsking(t, [s], [Asking(name, n, body)]) == Some((d, [act]))
  {
    var op := Asking(name, n, body);
    assert Unsaid(op) == Revising(name, body) && Answered(Draft.Fresh(t), s, op);
    assert [op][..0] == [] && [s][..0] == [] && [] + [act] == [act];
    assert AppliedAsking(t, [], []) == Some((Draft.Fresh(t), []));
    hide Acted, Answered;
    assert ActedAsking(Draft.Fresh(t), s, op) == Some((d, act));
  }

  lemma DraftedAsUnsaid(s: Store, t: Store, name: Iri, n: nat, body: Body)
    requires name in s.rows && !Typed(s.rows[name].content) && s.rows[name].content.revision == n
    requires Acted(Draft.Fresh(t), Revising(name, body)).Some?
    ensures DraftAsking(t, [s], [Asking(name, n, body)]) == DraftSet(t, [Revising(name, body)])
  {
    var (d, act) := Acted(Draft.Fresh(t), Revising(name, body)).value;
    AskedOfTheFirst(s, t, name, n, body, d, act);
    OneActs(t, Revising(name, body), d, act);
    hide Faultless, KeptWhole, HandedAll, Applied, AppliedAsking, Acted, Asking;
  }

  lemma RefusedAtOnce(t: Store, name: Iri, n: nat, body: Body)
    requires name in t.rows && t.rows[name].content.revision != n
    ensures DraftSet(t, [Asking(name, n, body)]).Refused?
  {
    var op := Asking(name, n, body);
    assert [op][..0] == [] && Applied(t, []) == Some((Draft.Fresh(t), []));
    assert Acted(Draft.Fresh(t), op) == None;
    hide Acted;
  }

  lemma RevisedIsHeld(s: Store, name: Iri, kind: Iri, body: Body, n: nat, own: Schema)
    requires name in s.rows && HoldsType(s, kind, own) && kind != name && Unlinked(s)
    requires forall i, l :: i in s.rows && l in s.rows[i].links ==> l.target != name
    ensures var t := RevisedTo(s, name, kind, body, n);
      && HoldsAt(t, name, kind, body, n) && HoldsType(t, kind, own) && Unlinked(t)
      && forall i, l :: i in t.rows && l in t.rows[i].links ==> l.target != name
  {
  }

  /** A replacement says it read an artifact at revision 1; it is asked of the artifact so, another lands, and it then
      acts on what that left, and lands over it: its change was read at revision 2, which nothing has moved. Drafted at
      once it is refused. */
  lemma ARevisionNotReadIsLandedOver() returns (s: Store, t: Store, between: Operation, op: Operation)
    ensures SaysItRead(op) && Said(op) == 1 && op.id in s.rows && s.rows[op.id].revision == 1
    ensures forall attempts :: Next(World(s, attempts), LandsLocked([between], []), World(t, attempts))
    ensures var r := DraftAsking(t, [s], [op]);
      r.Drafted? && !r.locked && Land(t, r.handed, []).Landed? && r.handed[0].read == 2
    ensures DraftSet(t, [op]).Refused?
  {
    ActedOver.TheyAreMade();
    ActedOver.NothingLinksIntoIt();
    ActedOver.Apart();
    s := ActedOver.WithBoth();
    var name, kind, body := ActedOver.LINKED, ActedOver.THING, ActedOver.PARTED;
    t, between, op := RevisedTo(s, name, kind, BARE, 2), Revising(name, BARE), Asking(name, 1, body);
    assert s.rows[name].content == At(kind, body, 1) && op.id == name;
    hide HoldsType, Unlinked, DraftSet, DraftAsking, Land, Next, RevisedTo, ActedOver.WithBoth, Acted;
    forall attempts
      ensures Next(World(s, attempts), LandsLocked([between], []), World(t, attempts))
    {
      RevisingStep(s, name, kind, BARE, body, 2, ActedOver.DECLARING, attempts);
    }
    RevisedIsHeld(s, name, kind, BARE, 2, ActedOver.DECLARING);
    RevisingActs(t, name, kind, body, BARE, 3, ActedOver.DECLARING);
    DraftedAsUnsaid(s, t, name, 1, body);
    RevisingIsDrafted(t, name, kind, body, BARE, 3, ActedOver.DECLARING);
    RevisingLands(t, name, kind, body, BARE, 3, ActedOver.DECLARING);
    RefusedAtOnce(t, name, 1, body);
  }
}
