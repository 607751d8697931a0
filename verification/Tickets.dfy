/** A ticket lock as a state machine: tickets are numbered as drawn, and the one being served enters. */
module Tickets {

  /** Where one that came to the lock stands: waiting with its ticket, or inside. */
  datatype Where = Waiting(ticket: nat) | Inside(ticket: nat)

  /** The lock: the tickets drawn, the one being served, and those that came and have not left. */
  datatype Lock = Lock(drawn: nat, serving: nat, comers: map<nat, Where>)

  datatype Step = Draws(who: nat) | Enters(who: nat) | Leaves(who: nat)

  predicate Next(l: Lock, step: Step, m: Lock)
  {
    match step
    case Draws(who) =>
      who !in l.comers && m == Lock(l.drawn + 1, l.serving, l.comers[who := Waiting(l.drawn)])
    case Enters(who) =>
      who in l.comers && l.comers[who] == Waiting(l.serving)
      && m == l.(comers := l.comers[who := Inside(l.serving)])
    case Leaves(who) =>
      who in l.comers && l.comers[who].Inside? && m == Lock(l.drawn, l.serving + 1, l.comers - {who})
  }

  /** The lock as its object, each part of coming in and of leaving taken while the condition is held. */
  class InOrder {
    var drawn: nat
    var serving: nat
    ghost var comers: map<nat, Where>

    ghost function Value(): Lock
      reads this
    {
      Lock(drawn, serving, comers)
    }

    constructor ()
      ensures Value() == Lock(0, 0, map[])
    {
      drawn, serving, comers := 0, 0, map[];
    }

    /** The first part of coming in: a ticket drawn. */
    method Draw(ghost who: nat) returns (ticket: nat)
      requires who !in comers
      modifies this
      ensures Next(old(Value()), Draws(who), Value()) && comers[who] == Waiting(ticket)
    {
      ticket := drawn;
      drawn := drawn + 1;
      comers := comers[who := Waiting(ticket)];
    }

    /** What one that waits waits for. */
    predicate Served(ticket: nat)
      reads this
    {
      serving == ticket
    }

    /** The last part of coming in, once its ticket is served. */
    ghost method Enter(who: nat, ticket: nat)
      requires who in comers && comers[who] == Waiting(ticket) && Served(ticket)
      modifies this`comers
      ensures Next(old(Value()), Enters(who), Value())
    {
      comers := comers[who := Inside(ticket)];
    }

    method Leave(ghost who: nat)
      requires who in comers && comers[who].Inside?
      modifies this
      ensures Next(old(Value()), Leaves(who), Value())
    {
      serving := serving + 1;
      comers := comers - {who};
    }
  }

  // ---- every interleaving

  const NEW := Lock(0, 0, map[])

  ghost predicate IsRun(locks: seq<Lock>, steps: seq<Step>)
  {
    && |locks| == |steps| + 1 && locks[0] == NEW
    && forall k :: 0 <= k < |steps| ==> Next(locks[k], steps[k], locks[k + 1])
  }

  ghost predicate IsHeld(l: Lock, ticket: nat)
  {
    exists who :: who in l.comers && l.comers[who].ticket == ticket
  }

  /** Every ticket from the one being served to the last drawn is held by one that came and has not left, one by each;
      who is inside holds the one being served. */
  ghost predicate Kept(l: Lock)
  {
    && l.serving <= l.drawn
    && (forall who :: who in l.comers ==> l.serving <= l.comers[who].ticket < l.drawn)
    && (forall one, other :: one in l.comers && other in l.comers && l.comers[one].ticket == l.comers[other].ticket ==>
         one == other)
    && (forall ticket :: l.serving <= ticket < l.drawn ==> IsHeld(l, ticket))
    && (forall who :: who in l.comers && l.comers[who].Inside? ==> l.comers[who].ticket == l.serving)
  }

  lemma StepsKeep(l: Lock, step: Step, m: Lock)
    requires Kept(l) && Next(l, step, m)
    ensures Kept(m)
  {
    forall ticket | m.serving <= ticket < m.drawn
      ensures IsHeld(m, ticket)
    {
      if step.Draws? && ticket == l.drawn {
        assert m.comers[step.who].ticket == ticket;
      } else {
        assert IsHeld(l, ticket);
        var who :| who in l.comers && l.comers[who].ticket == ticket;
        assert who in m.comers && m.comers[who].ticket == ticket;
      }
    }
  }

  lemma {:induction false} RunsKeep(locks: seq<Lock>, steps: seq<Step>, k: nat)
    requires IsRun(locks, steps) && k < |locks|
    ensures Kept(locks[k])
  {
    if k > 0 {
      RunsKeep(locks, steps, k - 1);
      StepsKeep(locks[k - 1], steps[k - 1], locks[k]);
    }
  }

  /** The tickets of those that entered in the first steps of a run, in the order they entered. */
  ghost function Entered(locks: seq<Lock>, steps: seq<Step>, k: nat): (tickets: seq<nat>)
    requires IsRun(locks, steps) && k <= |steps|
  {
    if k == 0 then []
    else
      var before := Entered(locks, steps, k - 1);
      match steps[k - 1]
      case Enters(who) =>
        assert Next(locks[k - 1], steps[k - 1], locks[k]);
        before + [locks[k - 1].comers[who].ticket]
      case _ => before
  }

  ghost predicate SomeoneInside(l: Lock)
  {
    exists who :: who in l.comers && l.comers[who].Inside?
  }

  /** In every interleaving at most one is inside; those that entered entered in the order they drew their tickets, none
      skipped: the first to come, the second, and so on up to the one being served; and whenever nobody is inside and
      someone waits, the one whose ticket is served can enter. */
  lemma {:induction false} OneAtATimeInOrder(locks: seq<Lock>, steps: seq<Step>, k: nat)
    requires IsRun(locks, steps) && k < |locks|
    ensures var l := locks[k];
      && (forall one, other :: one in l.comers && other in l.comers && l.comers[one].Inside? && l.comers[other].Inside? ==>
           one == other)
      && (var entered := Entered(locks, steps, k);
          && |entered| == l.serving + (if SomeoneInside(l) then 1 else 0)
          && forall n :: 0 <= n < |entered| ==> entered[n] == n)
      && (!SomeoneInside(l) && l.comers != map[] ==> exists who, m :: Next(l, Enters(who), m))
  {
    RunsKeep(locks, steps, k);
    var l := locks[k];
    if k > 0 {
      OneAtATimeInOrder(locks, steps, k - 1);
      RunsKeep(locks, steps, k - 1);
      EntersNext(locks[k - 1], steps[k - 1], l);
      hide Kept, SomeoneInside;
    }
    SomeoneCanEnter(l);
  }

  lemma SomeoneCanEnter(l: Lock)
    requires Kept(l)
    ensures !SomeoneInside(l) && l.comers != map[] ==> exists who, m :: Next(l, Enters(who), m)
  {
    if !SomeoneInside(l) && l.comers != map[] {
      var some :| some in l.comers;
      assert IsHeld(l, l.serving);
      var who :| who in l.comers && l.comers[who].ticket == l.serving;
      assert Next(l, Enters(who), l.(comers := l.comers[who := Inside(l.serving)]));
    }
  }

  /** What a step does to who is inside. */
  lemma EntersNext(l: Lock, step: Step, m: Lock)
    requires Kept(l) && Kept(m) && Next(l, step, m)
    ensures step.Enters? ==> !SomeoneInside(l) && SomeoneInside(m)
    ensures step.Leaves? ==> SomeoneInside(l) && !SomeoneInside(m)
    ensures step.Draws? ==> SomeoneInside(l) == SomeoneInside(m)
  {
    match step
    case Enters(who) =>
      assert m.comers[who].Inside?;
    case Leaves(who) =>
      assert l.comers[who].Inside?;
      assert forall other :: other in m.comers ==> m.comers[other] == l.comers[other];
    case Draws(who) =>
      if SomeoneInside(l) {
        var other :| other in l.comers && l.comers[other].Inside?;
        assert m.comers[other].Inside?;
      }
      if SomeoneInside(m) {
        var other :| other in m.comers && m.comers[other].Inside?;
        assert l.comers[other].Inside?;
      }
  }
}
