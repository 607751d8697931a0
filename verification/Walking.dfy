/** What an artifact's links reach, a level at a time: each artifact once, by a shortest route of links, narrowed at every
    step. */
module Walking {
  import opened Iris
  import opened PortValues
  import opened Composition

  /** A step of a route: the field the link stands in, and what it reaches. */
  datatype Hop = Hop(field: string, id: Iri)

  /** What is reached, and the route to it. */
  datatype Reached = Reached(hop: Hop, route: seq<Hop>)

  /** What a walk is asked for, over a corpus: where from, how far, and what narrows each step; `first`, the links out of
      the place it starts at, or into the artifact, and `next`, those of an artifact held. */
  datatype Asked = Asked(
    start: Iri, depth: nat, via: Option<string>, kind: Option<Iri>, path: Option<seq<string>>,
    corpus: Corpus, first: seq<Hop>, next: Iri -> seq<Hop>)

  /** Whether a path below a type's IRI selects an IRI: its path below there is the one given, or begins with it. */
  predicate Selects(path: seq<string>, i: Iri, t: Iri)
  {
    t in Above(i) && |i.Segments()| >= |t.Segments()| && path <= i.Segments()[|t.Segments()|..]
  }

  /** Whether a walk may take a step: its narrowing lets the target's kind and the link's field through. */
  predicate NarrowedTo(asked: Asked, i: Iri)
  {
    var held := i in asked.corpus.held;
    && (asked.kind.Some? ==> held && asked.corpus.held[i].kind == asked.kind.value)
    && (asked.path.Some? ==>
         var t := if held then Some(asked.corpus.held[i].kind) else NearestType(asked.corpus, i);
         t.Some? && Selects(asked.path.value, i, t.value))
  }

  /** Whether a walk takes a step: never to where it started. */
  predicate Takes(asked: Asked, hop: Hop)
  {
    hop.id != asked.start && (asked.via.Some? ==> hop.field == asked.via.value) && NarrowedTo(asked, hop.id)
  }

  function End(route: seq<Hop>): Iri
    requires route != []
  {
    route[|route| - 1].id
  }

  /** The links a route may be walked on by: none from what is not held. */
  function Onward(asked: Asked, route: seq<Hop>): seq<Hop>
  {
    if route == [] then asked.first
    else if End(route) in asked.corpus.held then asked.next(End(route)) else []
  }

  /** Whether a route is one of links, each out of what the one before it reached, each a step the walk takes. */
  predicate IsRoute(asked: Asked, route: seq<Hop>)
  {
    route == [] ||
    (var n := |route| - 1; IsRoute(asked, route[..n]) && route[n] in Onward(asked, route[..n]) && Takes(asked, route[n]))
  }

  /** Whether some route of no more than so many steps reaches an IRI. */
  ghost predicate Within(asked: Asked, i: Iri, steps: nat)
  {
    exists route :: IsRoute(asked, route) && 0 < |route| <= steps && End(route) == i
  }

  function Ids(reached: seq<Reached>): (ids: set<Iri>)
  {
    set k | 0 <= k < |reached| :: reached[k].hop.id
  }

  /** What is not reached again: what has been, and where the walk started. */
  predicate Saw(asked: Asked, seen: set<Iri>, reached: seq<Reached>)
  {
    seen == {asked.start} + Ids(reached)
  }

  lemma IdsOneMore(reached: seq<Reached>, one: Reached)
    ensures Ids(reached + [one]) == Ids(reached) + {one.hop.id}
  {
    var more := reached + [one];
    assert forall k :: 0 <= k < |reached| ==> more[k] == reached[k];
    assert more[|reached|] == one;
  }

  /** Whether something is reached by a shortest route there is. */
  ghost predicate Shortest(asked: Asked, r: Reached)
  {
    && IsRoute(asked, r.route) && r.route != [] && r.route[|r.route| - 1] == r.hop
    && !Within(asked, r.hop.id, |r.route| - 1)
  }

  /** What a walk out to a depth reaches: everything within it, each once, each by a shortest route. */
  ghost predicate Walked(asked: Asked, depth: nat, reached: seq<Reached>)
  {
    && (forall i :: i in Ids(reached) <==> Within(asked, i, depth))
    && (forall j, k :: 0 <= j < k < |reached| ==> reached[j].hop.id != reached[k].hop.id)
    && (forall k :: 0 <= k < |reached| ==> Shortest(asked, reached[k]) && |reached[k].route| <= depth)
  }

  /** The routes walked on from at a depth: of everything held reached there; the empty one at the start. */
  ghost predicate Standing(asked: Asked, depth: nat, reached: seq<Reached>, frontier: seq<seq<Hop>>)
  {
    forall route :: route in frontier <==>
      if depth == 0 then route == []
      else exists k :: 0 <= k < |reached| && reached[k].route == route && |route| == depth
             && reached[k].hop.id in asked.corpus.held
  }

  /** What a level adds so far: routes one longer, each to something not reached before it. */
  ghost predicate Added(asked: Asked, depth: nat, before: seq<Reached>, reached: seq<Reached>, following: seq<seq<Hop>>)
  {
    && before <= reached
    && (forall j, k :: 0 <= j < k < |reached| ==> reached[j].hop.id != reached[k].hop.id)
    && (forall k :: |before| <= k < |reached| ==> LeadsTo(asked, depth, reached[k]))
    && (forall route :: route in following <==> FollowedFrom(asked, before, reached, route))
  }

  /** Whether a route of so many links and one more ends where it says it does. */
  ghost predicate LeadsTo(asked: Asked, depth: nat, each: Reached)
  {
    IsRoute(asked, each.route) && |each.route| == depth + 1 && each.route[depth] == each.hop
  }

  /** Whether a route is to something reached since that a walk may go on from. */
  ghost predicate FollowedFrom(asked: Asked, before: seq<Reached>, reached: seq<Reached>, route: seq<Hop>)
  {
    exists k :: |before| <= k < |reached| && reached[k].route == route && reached[k].hop.id in asked.corpus.held
  }

  /** Everything a walk takes from a route, seen. */
  predicate Spent(asked: Asked, links: seq<Hop>, seen: set<Iri>)
  {
    forall hop :: hop in links && Takes(asked, hop) ==> hop.id in seen
  }

  /** One place walked on from: each link out of it, or into it, taken once. */
  method Step(asked: Asked, depth: nat, route: seq<Hop>, links: seq<Hop>, ghost before: seq<Reached>,
              seen: set<Iri>, reached: seq<Reached>, following: seq<seq<Hop>>)
    returns (seen': set<Iri>, reached': seq<Reached>, following': seq<seq<Hop>>)
    requires IsRoute(asked, route) && |route| == depth && links == Onward(asked, route)
    requires Saw(asked, seen, reached) && Added(asked, depth, before, reached, following)
    ensures Saw(asked, seen', reached') && Added(asked, depth, before, reached', following')
    ensures seen <= seen' && Spent(asked, links, seen')
  {
    seen', reached', following' := seen, reached, following;
    for n := 0 to |links|
      invariant Saw(asked, seen', reached') && Added(asked, depth, before, reached', following')
      invariant seen <= seen' && Spent(asked, links[..n], seen')
    {
      var hop := links[n];
      assert links[..n + 1] == links[..n] + [hop];
      if hop.id in seen' || (asked.via.Some? && hop.field != asked.via.value) {
        continue;
      }
      var held := hop.id in asked.corpus.held;
      if !NarrowedTo(asked, hop.id) {
        continue;
      }
      var taken := route + [hop];
      var one := Reached(hop, taken);
      OneMoreAdded(asked, depth, before, reached', following', route, hop);
      IdsOneMore(reached', one);
      seen' := seen' + {hop.id};
      reached' := reached' + [one];
      if held {
        following' := following' + [taken];
      }
    }
    assert links[..|links|] == links;
  }

  /** What one place reached more adds to those walked on from. */
  lemma OneMoreFollows(asked: Asked, before: seq<Reached>, reached: seq<Reached>, one: Reached, route: seq<Hop>)
    requires before <= reached
    ensures FollowedFrom(asked, before, reached + [one], route) <==>
      FollowedFrom(asked, before, reached, route) || (one.hop.id in asked.corpus.held && route == one.route)
  {
    var more := reached + [one];
    if FollowedFrom(asked, before, more, route) {
      var k :| |before| <= k < |more| && more[k].route == route && more[k].hop.id in asked.corpus.held;
      assert k < |reached| ==> reached[k] == more[k];
    }
    if FollowedFrom(asked, before, reached, route) {
      var k :| |before| <= k < |reached| && reached[k].route == route && reached[k].hop.id in asked.corpus.held;
      assert more[k] == reached[k];
    }
    if one.hop.id in asked.corpus.held && route == one.route {
      assert more[|reached|] == one;
    }
  }

  lemma OneMoreAdded(asked: Asked, depth: nat, before: seq<Reached>, reached: seq<Reached>, following: seq<seq<Hop>>,
                     route: seq<Hop>, hop: Hop)
    requires Added(asked, depth, before, reached, following)
    requires IsRoute(asked, route) && |route| == depth && hop in Onward(asked, route) && Takes(asked, hop)
    requires hop.id !in Ids(reached)
    ensures var taken := route + [hop];
      Added(asked, depth, before, reached + [Reached(hop, taken)],
            if hop.id in asked.corpus.held then following + [taken] else following)
  {
    var taken := route + [hop];
    var more := reached + [Reached(hop, taken)];
    var on := if hop.id in asked.corpus.held then following + [taken] else following;
    assert taken[..|taken| - 1] == route;
    assert LeadsTo(asked, depth, Reached(hop, taken));
    hide LeadsTo, FollowedFrom, IsRoute, Onward, Takes;
    assert forall k :: 0 <= k < |reached| ==> more[k] == reached[k];
    forall j, k | 0 <= j < k < |more|
      ensures more[j].hop.id != more[k].hop.id
    {
      assert j < |reached| && more[j].hop.id in Ids(reached);
    }
    forall each
      ensures each in on <==> FollowedFrom(asked, before, more, each)
    {
      OneMoreFollows(asked, before, reached, Reached(hop, taken), each);
    }
  }

  /** A level: every place walked on from, in turn. */
  method Level(asked: Asked, depth: nat, frontier: seq<seq<Hop>>, seen: set<Iri>, reached: seq<Reached>)
    returns (seen': set<Iri>, reached': seq<Reached>, following: seq<seq<Hop>>)
    requires Saw(asked, seen, reached) && Walked(asked, depth, reached)
    requires Standing(asked, depth, reached, frontier)
    ensures Saw(asked, seen', reached') && Walked(asked, depth + 1, reached')
    ensures Standing(asked, depth + 1, reached', following)
  {
    seen', reached', following := seen, reached, [];
    hide *;
    NothingAdded(asked, depth, reached);
    for f := 0 to |frontier|
      invariant Saw(asked, seen', reached') && Added(asked, depth, reached, reached', following)
      invariant forall g :: 0 <= g < f ==> Spent(asked, Onward(asked, frontier[g]), seen')
    {
      StandingIsRoute(asked, depth, reached, frontier, frontier[f]);
      ghost var before := seen';
      seen', reached', following :=
        Step(asked, depth, frontier[f], Onward(asked, frontier[f]), reached, seen', reached', following);
      forall g | 0 <= g < f
        ensures Spent(asked, Onward(asked, frontier[g]), seen')
      {
        StaysSpent(asked, Onward(asked, frontier[g]), before, seen');
      }
    }
    LevelIsWalked(asked, depth, reached, frontier, seen', reached', following);
  }

  lemma NothingAdded(asked: Asked, depth: nat, reached: seq<Reached>)
    requires Walked(asked, depth, reached)
    ensures Added(asked, depth, reached, reached, [])
  {
    hide Within, Shortest, IsRoute;
  }

  lemma StaysSpent(asked: Asked, links: seq<Hop>, seen: set<Iri>, more: set<Iri>)
    requires Spent(asked, links, seen) && seen <= more
    ensures Spent(asked, links, more)
  {
    hide Takes;
  }

  lemma StandingIsRoute(asked: Asked, depth: nat, reached: seq<Reached>, frontier: seq<seq<Hop>>, route: seq<Hop>)
    requires Walked(asked, depth, reached) && Standing(asked, depth, reached, frontier) && route in frontier
    ensures IsRoute(asked, route) && |route| == depth
  {
    if depth > 0 {
      var k :| 0 <= k < |reached| && reached[k].route == route;
      assert Shortest(asked, reached[k]);
    }
  }

  lemma AnotherStep(asked: Asked, route: seq<Hop>, hop: Hop)
    requires IsRoute(asked, route) && hop in Onward(asked, route) && Takes(asked, hop)
    ensures IsRoute(asked, route + [hop]) && End(route + [hop]) == hop.id
  {
    var more := route + [hop];
    assert more[..|more| - 1] == route;
  }

  /** Whether a step from where the walk stands reaches an IRI. */
  ghost predicate StepsTo(asked: Asked, frontier: seq<seq<Hop>>, hop: Hop)
  {
    exists g :: 0 <= g < |frontier| && hop in Onward(asked, frontier[g])
  }

  lemma AStepFrom(asked: Asked, frontier: seq<seq<Hop>>, route: seq<Hop>, hop: Hop)
    requires route in frontier && hop in Onward(asked, route)
    ensures StepsTo(asked, frontier, hop)
  {
    hide Onward;
    var g :| 0 <= g < |frontier| && frontier[g] == route;
  }

  /** What a step from something reached nearer reaches is within the depth. */
  lemma ANearerStep(asked: Asked, depth: nat, r: Reached, hop: Hop)
    requires Shortest(asked, r) && |r.route| < depth && hop in Onward(asked, r.route) && Takes(asked, hop)
    ensures Within(asked, hop.id, depth)
  {
    AnotherStep(asked, r.route, hop);
    hide *;
    assert Within(asked, hop.id, depth) by { ReachesWithin(asked, r.route + [hop], depth); }
  }

  lemma ReachesWithin(asked: Asked, route: seq<Hop>, depth: nat)
    requires IsRoute(asked, route) && 0 < |route| <= depth
    ensures Within(asked, End(route), depth)
  {
  }

  lemma OnwardFromTheEnd(asked: Asked, one: seq<Hop>, other: seq<Hop>)
    requires one != [] && other != [] && End(one) == End(other)
    ensures Onward(asked, one) == Onward(asked, other)
  {
  }

  lemma LastStep(asked: Asked, route: seq<Hop>)
    requires IsRoute(asked, route) && route != []
    ensures var n := |route| - 1;
      IsRoute(asked, route[..n]) && route[n] in Onward(asked, route[..n]) && Takes(asked, route[n])
  {
    hide Onward, Takes;
  }

  /** Whatever is reached within a depth is among what a walk out to it reached. */
  lemma ReachedAt(asked: Asked, depth: nat, reached: seq<Reached>, i: Iri) returns (k: nat)
    requires Walked(asked, depth, reached) && Within(asked, i, depth)
    ensures k < |reached| && reached[k].hop.id == i && Shortest(asked, reached[k]) && |reached[k].route| <= depth
    ensures reached[k].route != [] && End(reached[k].route) == i
  {
    hide Within, Shortest;
    assert i in Ids(reached);
    k :| 0 <= k < |reached| && reached[k].hop.id == i;
    EndOf(asked, reached[k]);
  }

  lemma EndOf(asked: Asked, r: Reached)
    requires Shortest(asked, r)
    ensures r.route != [] && End(r.route) == r.hop.id
  {
    hide IsRoute, Within;
  }

  lemma HeldOnward(asked: Asked, route: seq<Hop>, hop: Hop)
    requires route != [] && hop in Onward(asked, route)
    ensures End(route) in asked.corpus.held
  {
  }

  lemma StandsAt(asked: Asked, depth: nat, reached: seq<Reached>, frontier: seq<seq<Hop>>, k: nat)
    requires Standing(asked, depth, reached, frontier) && depth > 0 && k < |reached|
    requires |reached[k].route| == depth && reached[k].hop.id in asked.corpus.held
    ensures reached[k].route in frontier
  {
  }

  /** Whatever a route one longer reaches is reached within the depth, or by a step from where the walk stands. */
  lemma ALevelMisses(asked: Asked, depth: nat, reached: seq<Reached>, frontier: seq<seq<Hop>>, route: seq<Hop>)
    requires Walked(asked, depth, reached) && Standing(asked, depth, reached, frontier)
    requires IsRoute(asked, route) && |route| == depth + 1
    ensures Within(asked, End(route), depth) || StepsTo(asked, frontier, route[depth])
  {
    var short, hop := route[..depth], route[depth];
    LastStep(asked, route);
    assert End(route) == hop.id;
    if depth == 0 {
      assert short == [] && [] in frontier;
      AStepFrom(asked, frontier, [], hop);
    } else {
      hide *;
      ReachesWithin(asked, short, depth);
      HeldOnward(asked, short, hop);
      var k := ReachedAt(asked, depth, reached, End(short));
      OnwardFromTheEnd(asked, short, reached[k].route);
      if |reached[k].route| == depth {
        StandsAt(asked, depth, reached, frontier, k);
        AStepFrom(asked, frontier, reached[k].route, hop);
      } else {
        ANearerStep(asked, depth, reached[k], hop);
      }
    }
  }

  lemma LevelIsWalked(asked: Asked, depth: nat, reached: seq<Reached>, frontier: seq<seq<Hop>>, seen: set<Iri>,
                      reached': seq<Reached>, following: seq<seq<Hop>>)
    requires Walked(asked, depth, reached) && Standing(asked, depth, reached, frontier)
    requires Added(asked, depth, reached, reached', following) && Saw(asked, seen, reached')
    requires forall g :: 0 <= g < |frontier| ==> Spent(asked, Onward(asked, frontier[g]), seen)
    ensures Walked(asked, depth + 1, reached') && Standing(asked, depth + 1, reached', following)
  {
    hide Within, Shortest, Spent, Onward, IsRoute, Saw;
    forall k | 0 <= k < |reached'|
      ensures Shortest(asked, reached'[k]) && |reached'[k].route| <= depth + 1
    {
      AddedIsShortest(asked, depth, reached, reached', following, k);
    }
    forall i
      ensures i in Ids(reached') <==> Within(asked, i, depth + 1)
    {
      if i in Ids(reached') {
        var k :| 0 <= k < |reached'| && reached'[k].hop.id == i;
        ShortestIsWithin(asked, reached'[k], depth + 1);
      }
      if Within(asked, i, depth + 1) {
        AddedIsAll(asked, depth, reached, frontier, seen, reached', following, i);
      }
    }
    LevelStands(asked, depth, reached, reached', following);
  }

  lemma ShortestIsWithin(asked: Asked, r: Reached, depth: nat)
    requires Shortest(asked, r) && |r.route| <= depth
    ensures Within(asked, r.hop.id, depth)
  {
    EndOf(asked, r);
    assert IsRoute(asked, r.route);
    hide *;
    ReachesWithin(asked, r.route, depth);
  }

  lemma LevelStands(asked: Asked, depth: nat, before: seq<Reached>, reached: seq<Reached>, following: seq<seq<Hop>>)
    requires Walked(asked, depth, before) && Added(asked, depth, before, reached, following)
    ensures Standing(asked, depth + 1, reached, following)
  {
    hide Within, Shortest, IsRoute;
    assert forall k :: 0 <= k < |before| ==> reached[k] == before[k] && |reached[k].route| <= depth;
  }

  lemma AddedIsShortest(asked: Asked, depth: nat, before: seq<Reached>, reached: seq<Reached>,
                        following: seq<seq<Hop>>, k: nat)
    requires Walked(asked, depth, before) && Added(asked, depth, before, reached, following) && k < |reached|
    ensures Shortest(asked, reached[k]) && |reached[k].route| <= depth + 1
  {
    if k < |before| {
      assert reached[k] == before[k];
    } else {
      assert forall j :: 0 <= j < |before| ==> before[j] == reached[j];
      assert reached[k].hop.id !in Ids(before);
    }
  }

  lemma AddedIsAll(asked: Asked, depth: nat, before: seq<Reached>, frontier: seq<seq<Hop>>, seen: set<Iri>,
                   reached: seq<Reached>, following: seq<seq<Hop>>, i: Iri)
    requires Walked(asked, depth, before) && Standing(asked, depth, before, frontier)
    requires Added(asked, depth, before, reached, following) && Saw(asked, seen, reached)
    requires Within(asked, i, depth + 1)
    requires forall g :: 0 <= g < |frontier| ==> Spent(asked, Onward(asked, frontier[g]), seen)
    ensures i in Ids(reached)
  {
    var route :| IsRoute(asked, route) && 0 < |route| <= depth + 1 && End(route) == i;
    hide *;
    LastStep(asked, route);
    var hop := route[|route| - 1];
    EndIs(route);
    if |route| <= depth {
      ReachesWithin(asked, route, depth);
    } else {
      ALevelMisses(asked, depth, before, frontier, route);
    }
    if Within(asked, i, depth) {
      StaysReached(asked, depth, before, reached, following, i);
    } else {
      SteppedTo(asked, frontier, seen, hop);
      SeenIsReached(asked, seen, reached, i);
    }
  }

  lemma EndIs(route: seq<Hop>)
    requires route != []
    ensures End(route) == route[|route| - 1].id
  {
  }

  lemma StaysReached(asked: Asked, depth: nat, before: seq<Reached>, reached: seq<Reached>, following: seq<seq<Hop>>,
                     i: Iri)
    requires Walked(asked, depth, before) && Added(asked, depth, before, reached, following) && Within(asked, i, depth)
    ensures i in Ids(reached)
  {
    hide Within, Shortest, IsRoute;
    var k :| 0 <= k < |before| && before[k].hop.id == i;
    assert reached[k] == before[k];
  }

  lemma SteppedTo(asked: Asked, frontier: seq<seq<Hop>>, seen: set<Iri>, hop: Hop)
    requires StepsTo(asked, frontier, hop) && Takes(asked, hop)
    requires forall g :: 0 <= g < |frontier| ==> Spent(asked, Onward(asked, frontier[g]), seen)
    ensures hop.id in seen && hop.id != asked.start
  {
    hide Spent, Onward, Takes;
    var g :| 0 <= g < |frontier| && hop in Onward(asked, frontier[g]);
    SpentOn(asked, Onward(asked, frontier[g]), seen, hop);
  }

  lemma SeenIsReached(asked: Asked, seen: set<Iri>, reached: seq<Reached>, i: Iri)
    requires Saw(asked, seen, reached) && i in seen && i != asked.start
    ensures i in Ids(reached)
  {
  }

  lemma SpentOn(asked: Asked, links: seq<Hop>, seen: set<Iri>, hop: Hop)
    requires Spent(asked, links, seen) && hop in links && Takes(asked, hop)
    ensures hop.id in seen && hop.id != asked.start
  {
  }

  // ---- read off the links themselves

  /** Whether an IRI sits below its kind, or for one not held below the nearest type it is under, with a path right after
      that: at one host, its segments opening with the type's and then the path's. */
  ghost predicate SitsBelow(c: Corpus, path: seq<string>, i: Iri)
  {
    exists t :: IsTypeOf(c, i, t) && t != i && t.host == i.host && t.Segments() + path <= i.Segments()
  }

  ghost predicate IsTypeOf(c: Corpus, i: Iri, t: Iri)
  {
    if i in c.held then t == c.held[i].kind else NearestType(c, i) == Some(t)
  }

  /** Whether a link is one the walk was asked to follow. */
  ghost predicate Wanted(asked: Asked, hop: Hop)
  {
    && hop.id != asked.start
    && (asked.via.Some? ==> hop.field == asked.via.value)
    && (asked.kind.Some? ==> hop.id in asked.corpus.held && asked.corpus.held[hop.id].kind == asked.kind.value)
    && (asked.path.Some? ==> SitsBelow(asked.corpus, asked.path.value, hop.id))
  }

  /** Whether a route is of links that are there and wanted, the first out of the start, each other out of what the one
      before it reached, which is held. */
  ghost predicate OfLinksThere(asked: Asked, route: seq<Hop>)
  {
    forall n :: 0 <= n < |route| ==> LinkThere(asked, route, n)
  }

  ghost predicate LinkThere(asked: Asked, route: seq<Hop>, n: nat)
    requires n < |route|
  {
    && Wanted(asked, route[n])
    && (n == 0 ==> route[n] in asked.first)
    && (n > 0 ==> route[n - 1].id in asked.corpus.held && route[n] in asked.next(route[n - 1].id))
  }

  /** Whether a link is followed: what it names is reached in so many steps or fewer. */
  ghost predicate Followed(reached: seq<Reached>, hop: Hop, steps: nat)
  {
    exists k :: 0 <= k < |reached| && reached[k].hop.id == hop.id && |reached[k].route| <= steps
  }

  /** Whether what is reached is what its own links say: each of it once, by a route of links that are there and wanted,
      and of these none left, out of the start or out of anything held reached short of the depth, whose target is not
      itself reached in one step more. */
  ghost predicate FollowsLinks(asked: Asked, depth: nat, reached: seq<Reached>)
  {
    && (forall j, k :: 0 <= j < k < |reached| ==> reached[j].hop.id != reached[k].hop.id)
    && (forall k :: 0 <= k < |reached| ==> RoutedThere(asked, depth, reached[k]))
    && (depth > 0 ==> forall hop :: hop in asked.first && Wanted(asked, hop) ==> Followed(reached, hop, 1))
    && (forall k, hop :: 0 <= k < |reached| && LeftBy(asked, depth, reached[k], hop) ==>
         Followed(reached, hop, |reached[k].route| + 1))
  }

  ghost predicate RoutedThere(asked: Asked, depth: nat, each: Reached)
  {
    0 < |each.route| <= depth && each.route[|each.route| - 1] == each.hop && OfLinksThere(asked, each.route)
  }

  /** Whether a wanted link leaves something held that was reached short of the depth. */
  ghost predicate LeftBy(asked: Asked, depth: nat, each: Reached, hop: Hop)
  {
    |each.route| < depth && each.hop.id in asked.corpus.held && hop in asked.next(each.hop.id) && Wanted(asked, hop)
  }

  /** What an IRI sits under is at its host, of segments its own open with. */
  lemma AboveBySegments(i: Iri, t: Iri)
    ensures t in Above(i) <==> t != i && t.host == i.host && t.Segments() <= i.Segments()
  {
    AboveAreTheProperPrefixes(i);
    AboveAreDistinct(i);
    if t != i && t.host == i.host && t.Segments() <= i.Segments() {
      SegmentsTellApart(i, t);
      var k := |i.within| - |t.Segments()|;
      assert Above(i)[k].Segments() == i.Segments()[..|t.Segments()|] == t.Segments();
      SegmentsTellApart(Above(i)[k], t);
    }
  }

  lemma SegmentsTellApart(i: Iri, t: Iri)
    requires t.host == i.host && t.Segments() <= i.Segments()
    ensures |t.Segments()| == |i.Segments()| ==> t == i
  {
    if |t.Segments()| == |i.Segments()| {
      assert t.Segments() == i.Segments();
      assert t.within == t.Segments()[..|t.within|] && i.within == i.Segments()[..|i.within|];
      assert t.last == t.Segments()[|t.within|] && i.last == i.Segments()[|i.within|];
    }
  }

  lemma SelectedBySegments(path: seq<string>, i: Iri, t: Iri)
    ensures Selects(path, i, t) <==> t != i && t.host == i.host && t.Segments() + path <= i.Segments()
  {
    AboveBySegments(i, t);
    var s, more := t.Segments(), i.Segments();
    if s + path <= more {
      assert s <= more by {
        assert more[..|s|] == more[..|s + path|][..|s|] == (s + path)[..|s|] == s;
      }
      assert more[|s|..][..|path|] == more[..|s + path|][|s|..] == (s + path)[|s|..] == path;
    }
    if s <= more && path <= more[|s|..] {
      assert more[..|s + path|] == more[..|s|] + more[|s|..][..|path|] == s + path;
    }
  }

  /** A walk takes the links it was asked to follow and no other. */
  lemma TakesWhatIsWanted(asked: Asked, hop: Hop)
    ensures Takes(asked, hop) <==> Wanted(asked, hop)
  {
    hide Selects, Above, NearestType;
    if asked.path.Some? {
      var i, path, c := hop.id, asked.path.value, asked.corpus;
      if i in c.held {
        SelectedBySegments(path, i, c.held[i].kind);
        assert IsTypeOf(c, i, c.held[i].kind);
      } else if NearestType(c, i).Some? {
        SelectedBySegments(path, i, NearestType(c, i).value);
        assert IsTypeOf(c, i, NearestType(c, i).value);
      }
    }
  }

  lemma {:induction false} RoutesAreOfLinksThere(asked: Asked, route: seq<Hop>)
    requires IsRoute(asked, route)
    ensures OfLinksThere(asked, route)
    decreases |route|
  {
    hide Takes, Wanted;
    if route != [] {
      var n := |route| - 1;
      RoutesAreOfLinksThere(asked, route[..n]);
      TakesWhatIsWanted(asked, route[n]);
      forall m | 0 <= m < |route|
        ensures LinkThere(asked, route, m)
      {
        if m < n {
          assert LinkThere(asked, route[..n], m);
        }
      }
    }
  }

  lemma FollowedWithin(asked: Asked, depth: nat, reached: seq<Reached>, hop: Hop, steps: nat)
    requires Walked(asked, depth, reached) && Within(asked, hop.id, steps) && steps <= depth
    ensures Followed(reached, hop, steps)
  {
    var route :| IsRoute(asked, route) && 0 < |route| <= steps && End(route) == hop.id;
    ReachesWithin(asked, route, depth);
    hide Walked, IsRoute;
    var k := ReachedAt(asked, depth, reached, hop.id);
  }

  /** What a walk reaches is what the links themselves say. */
  lemma WalkedFollowsLinks(asked: Asked, depth: nat, reached: seq<Reached>)
    requires Walked(asked, depth, reached)
    ensures FollowsLinks(asked, depth, reached)
  {
    hide OfLinksThere, Takes, Wanted, Within, IsRoute, Followed;
    forall k | 0 <= k < |reached|
      ensures RoutedThere(asked, depth, reached[k])
    {
      assert Shortest(asked, reached[k]);
      RoutesAreOfLinksThere(asked, reached[k].route);
    }
    if depth > 0 {
      forall hop | hop in asked.first && Wanted(asked, hop)
        ensures Followed(reached, hop, 1)
      {
        TakesWhatIsWanted(asked, hop);
        TakenFromTheStart(asked, hop);
        FollowedWithin(asked, depth, reached, hop, 1);
      }
    }
    forall k, hop | 0 <= k < |reached| && LeftBy(asked, depth, reached[k], hop)
      ensures Followed(reached, hop, |reached[k].route| + 1)
    {
      TakesWhatIsWanted(asked, hop);
      EndOf(asked, reached[k]);
      ANearerStep(asked, |reached[k].route| + 1, reached[k], hop);
      FollowedWithin(asked, depth, reached, hop, |reached[k].route| + 1);
    }
  }

  lemma TakenFromTheStart(asked: Asked, hop: Hop)
    requires hop in asked.first && Takes(asked, hop)
    ensures Within(asked, hop.id, 1)
  {
    hide Takes;
    assert IsRoute(asked, []);
    AnotherStep(asked, [], hop);
    ReachesWithin(asked, [] + [hop], 1);
  }

  /** A walk: exactly what links reach within the depth asked, the narrowing at every step, what it started at never
      and each of the rest once, by a shortest route of links that are there. */
  method Walk(asked: Asked) returns (reached: seq<Reached>)
    ensures Walked(asked, asked.depth, reached) && FollowsLinks(asked, asked.depth, reached)
    ensures asked.start !in Ids(reached)
  {
    reached := [];
    var seen := {asked.start};
    var frontier: seq<seq<Hop>> := [[]];
    for depth := 0 to asked.depth
      invariant Saw(asked, seen, reached) && Walked(asked, depth, reached)
      invariant Standing(asked, depth, reached, frontier)
    {
      seen, reached, frontier := Level(asked, depth, frontier, seen, reached);
    }
    assert forall k :: 0 <= k < |reached| ==> Shortest(asked, reached[k]) && Takes(asked, reached[k].hop);
    WalkedFollowsLinks(asked, asked.depth, reached);
  }
}
