/** Types as a corpus, the store or a draft over it, holds them: the nearest held type an IRI sits under, the versions
    kept of a type, what a version is read through, and the types that read another. */
module Composition {
  import opened Iris
  import opened PortValues

  /** What a corpus answers: the artifacts it holds, and the versions it keeps. */
  datatype Corpus = Corpus(held: map<Iri, Artifact>, kept: map<Named, Artifact>)

  predicate TypedAt(c: Corpus, i: Iri)
  {
    i in c.held && Typed(c.held[i])
  }

  /** The first of `Above` that is typed. */
  function NearestType(c: Corpus, i: Iri): (nearest: Option<Iri>)
    decreases |i.within|
  {
    match Parent(i)
    case None => None
    case Some(p) => if TypedAt(c, p) then Some(p) else NearestType(c, p)
  }

  /** Whether an IRI sits under another with nothing typed strictly between, whether or not that other is typed. */
  predicate NearestWas(c: Corpus, i: Iri, t: Iri)
    decreases |i.within|
  {
    match Parent(i)
    case None => false
    case Some(p) => p == t || (!TypedAt(c, p) && NearestWas(c, p, t))
  }

  /** Looks a version up; None too where its IRI holds no type. */
  function Kept(c: Corpus, v: Named): (found: Option<Artifact>)
  {
    if TypedAt(c, v.of) && v in c.kept then Some(c.kept[v]) else None
  }

  /** A revision may name a version of the artifact's kind that `Kept` finds and whose number is no lower. */
  predicate MovesTo(a: Artifact, v: Named, c: Corpus)
  {
    v.of == a.kind && v.number >= a.conforms && Kept(c, v).Some?
  }

  // ---- the types a version is read through

  /** What reading through references has found so far, and the versions it has followed. */
  datatype Visit = Visit(found: seq<Iri>, followed: set<Named>)

  /** The references of a version visited in order, each to a version not followed before followed in turn. */
  function Visited(refers: seq<Reading>, v: Visit, c: Corpus): (r: Visit)
    ensures v.followed <= r.followed && v.found <= r.found
    decreases c.kept.Keys - v.followed, |refers|
  {
    if refers == [] then v
    else
      var at := refers[0].to;
      var version := if at in v.followed then None else Kept(c, at);
      var marked := v.(followed := v.followed + {at});
      if version.None? then Visited(refers[1..], marked, c)
      else
        var added := marked.(found := if at.of in marked.found then marked.found else marked.found + [at.of]);
        var inner := Visited(version.value.schema.refers, added, c);
        Visited(refers[1..], inner, c)
  }

  /** The kind, then whatever `Visited` comes upon from a schema's references. */
  function ReadThrough(kind: Iri, refers: seq<Reading>, c: Corpus): (types: seq<Iri>)
    ensures |types| >= 1 && types[0] == kind
  {
    Visited(refers, Visit([kind], {}), c).found
  }

  /** Visiting loses no type found, and finds the type of every version followed that the corpus keeps. */
  lemma {:induction false} VisitingFinds(refers: seq<Reading>, v: Visit, c: Corpus)
    requires forall at :: at in v.followed && Kept(c, at).Some? ==> at.of in v.found
    ensures var r := Visited(refers, v, c);
      && (forall t :: t in v.found ==> t in r.found)
      && (forall at :: at in r.followed && Kept(c, at).Some? ==> at.of in r.found)
      && (forall n :: 0 <= n < |refers| ==> refers[n].to in r.followed)
    decreases c.kept.Keys - v.followed, |refers|
  {
    if refers != [] {
      var at := refers[0].to;
      var version := if at in v.followed then None else Kept(c, at);
      var marked := v.(followed := v.followed + {at});
      if version.None? {
        VisitingFinds(refers[1..], marked, c);
      } else {
        var added := marked.(found := if at.of in marked.found then marked.found else marked.found + [at.of]);
        VisitingFinds(version.value.schema.refers, added, c);
        var inner := Visited(version.value.schema.refers, added, c);
        VisitingFinds(refers[1..], inner, c);
        assert at in added.followed;
      }
      forall n | 0 <= n < |refers|
        ensures refers[n].to in Visited(refers, v, c).followed
      {
        if n > 0 {
          assert refers[n] == refers[1..][n - 1];
        }
      }
    }
  }

  /** Reading through names the kind's own type, and the type of every kept version a reference names. */
  lemma ReadThroughNames(kind: Iri, refers: seq<Reading>, c: Corpus)
    ensures kind in ReadThrough(kind, refers, c)
    ensures forall n :: 0 <= n < |refers| && Kept(c, refers[n].to).Some? ==>
      refers[n].to.of in ReadThrough(kind, refers, c)
  {
    VisitingFinds(refers, Visit([kind], {}), c);
  }

  // ---- what reading through reaches

  /** Whether a chain of references, each of the version before it, leads from a schema's references to a version. */
  ghost predicate Leads(refers: seq<Reading>, chain: seq<Named>, c: Corpus)
    decreases |chain|
  {
    && chain != []
    && (exists n :: 0 <= n < |refers| && refers[n].to == chain[0])
    && Kept(c, chain[0]).Some?
    && (|chain| > 1 ==> Leads(Kept(c, chain[0]).value.schema.refers, chain[1..], c))
  }

  ghost predicate Reached(t: Iri, kind: Iri, refers: seq<Reading>, c: Corpus)
  {
    t == kind || exists chain: seq<Named> :: Leads(refers, chain, c) && chain[|chain| - 1].of == t
  }

  /** Whether everything that some versions refer to, each as it is kept, is among others. */
  ghost predicate Closed(some: set<Named>, others: set<Named>, c: Corpus)
  {
    forall at, n ::
      at in some && Kept(c, at).Some? && 0 <= n < |Kept(c, at).value.schema.refers| ==>
        Kept(c, at).value.schema.refers[n].to in others
  }

  /** Everything a kept version followed on the way refers to was followed. */
  lemma {:induction false} VisitingCloses(refers: seq<Reading>, v: Visit, c: Corpus)
    ensures var r := Visited(refers, v, c);
      && Closed(r.followed - v.followed, r.followed, c)
      && (forall n :: 0 <= n < |refers| ==> refers[n].to in r.followed)
    decreases c.kept.Keys - v.followed, |refers|
  {
    if refers != [] {
      var at := refers[0].to;
      var version := if at in v.followed then None else Kept(c, at);
      var marked := v.(followed := v.followed + {at});
      if version.None? {
        VisitingCloses(refers[1..], marked, c);
      } else {
        var added := marked.(found := if at.of in marked.found then marked.found else marked.found + [at.of]);
        VisitingCloses(version.value.schema.refers, added, c);
        var inner := Visited(version.value.schema.refers, added, c);
        VisitingCloses(refers[1..], inner, c);
      }
      forall n | 0 <= n < |refers|
        ensures refers[n].to in Visited(refers, v, c).followed
      {
        if n > 0 {
          assert refers[n] == refers[1..][n - 1];
        }
      }
    }
  }

  /** What is found was found before, or is led to. */
  lemma {:induction false} VisitingIsLed(refers: seq<Reading>, v: Visit, c: Corpus, t: Iri)
    requires t in Visited(refers, v, c).found && t !in v.found
    ensures exists chain: seq<Named> :: Leads(refers, chain, c) && chain[|chain| - 1].of == t
    decreases c.kept.Keys - v.followed, |refers|
  {
    var at := refers[0].to;
    var version := if at in v.followed then None else Kept(c, at);
    var marked := v.(followed := v.followed + {at});
    var next := marked;
    if version.Some? {
      var added := marked.(found := if at.of in marked.found then marked.found else marked.found + [at.of]);
      next := Visited(version.value.schema.refers, added, c);
      if t in added.found {
        assert Leads(refers, [at], c);
        assert t == at.of;
        return;
      }
      if t in next.found {
        VisitingIsLed(version.value.schema.refers, added, c, t);
        hide Visited;
        var chain: seq<Named> :| Leads(version.value.schema.refers, chain, c) && chain[|chain| - 1].of == t;
        LedThroughTheFirst(refers, chain, c);
        return;
      }
    }
    VisitingIsLed(refers[1..], next, c, t);
    hide Visited;
    var chain: seq<Named> :| Leads(refers[1..], chain, c) && chain[|chain| - 1].of == t;
    LedThroughTheRest(refers, chain, c);
  }

  lemma LedThroughTheFirst(refers: seq<Reading>, chain: seq<Named>, c: Corpus)
    requires refers != [] && Kept(c, refers[0].to).Some?
    requires Leads(Kept(c, refers[0].to).value.schema.refers, chain, c)
    ensures Leads(refers, [refers[0].to] + chain, c)
  {
    assert ([refers[0].to] + chain)[1..] == chain;
  }

  lemma LedThroughTheRest(refers: seq<Reading>, chain: seq<Named>, c: Corpus)
    requires refers != [] && Leads(refers[1..], chain, c)
    ensures Leads(refers, chain, c)
  {
    var n :| 0 <= n < |refers[1..]| && refers[1..][n].to == chain[0];
    assert refers[n + 1].to == chain[0];
  }

  /** Closed under references, what was followed holds the end of every chain that starts in it. */
  lemma {:induction false} ChainsStayInside(refers: seq<Reading>, chain: seq<Named>, followed: set<Named>, c: Corpus)
    requires Leads(refers, chain, c)
    requires forall n :: 0 <= n < |refers| ==> refers[n].to in followed
    requires Closed(followed, followed, c)
    ensures chain[|chain| - 1] in followed && Kept(c, chain[|chain| - 1]).Some?
    decreases |chain|
  {
    if |chain| > 1 {
      ChainsStayInside(Kept(c, chain[0]).value.schema.refers, chain[1..], followed, c);
      assert chain[1..][|chain| - 2] == chain[|chain| - 1];
    }
  }

  /** The types a version is read through are exactly its kind's own and those a chain of references, each to a version
      the corpus keeps and each followed at the number it names, leads to. */
  lemma ReadThroughIsWhatReferencesReach(kind: Iri, refers: seq<Reading>, c: Corpus)
    ensures forall t :: t in ReadThrough(kind, refers, c) <==> Reached(t, kind, refers, c)
  {
    var start := Visit([kind], {});
    VisitingFinds(refers, start, c);
    VisitingCloses(refers, start, c);
    forall t
      ensures t in ReadThrough(kind, refers, c) <==> Reached(t, kind, refers, c)
    {
      if t in ReadThrough(kind, refers, c) && t != kind {
        VisitingIsLed(refers, start, c, t);
      }
      if Reached(t, kind, refers, c) && t != kind {
        var chain: seq<Named> :| Leads(refers, chain, c) && chain[|chain| - 1].of == t;
        ChainsStayInside(refers, chain, Visited(refers, start, c).followed, c);
      }
    }
  }

  // ---- the nearest held type

  /** The nearest type is a held type the IRI sits under, with no held type between. */
  lemma {:induction false} NearestTypeStands(c: Corpus, i: Iri, t: Iri)
    ensures NearestType(c, i) == Some(t) <==>
      t in Above(i) && TypedAt(c, t) && forall b :: b in Between(i, t) ==> !TypedAt(c, b)
    decreases |i.within|
  {
    match Parent(i)
    case None =>
    case Some(p) =>
      NearestTypeStands(c, p, t);
      AboveAreDistinct(p);
      AboveAreDistinct(i);
      assert Above(i)[0] == p;
      if t in Above(i) && p != t {
        assert Between(i, t) == [p] + Between(p, t);
        assert p in Between(i, t);
        assert forall b :: b in Between(i, t) <==> b == p || b in Between(p, t);
      }
  }

  lemma {:induction false} NearestWasStands(c: Corpus, i: Iri, t: Iri)
    ensures NearestWas(c, i, t) <==> t in Above(i) && forall b :: b in Between(i, t) ==> !TypedAt(c, b)
    decreases |i.within|
  {
    match Parent(i)
    case None =>
    case Some(p) =>
      NearestWasStands(c, p, t);
      AboveAreDistinct(i);
      assert Above(i)[0] == p;
      if t in Above(i) && p != t {
        assert p in Between(i, t);
        assert forall b :: b in Between(i, t) <==> b == p || b in Between(p, t);
      }
  }

  /** A type more, and nothing else typed or untyped, becomes the nearest of exactly the IRIs that sat under it with no
      nearer type. */
  lemma {:induction false} NearestWithOneMore(c: Corpus, d: Corpus, t: Iri, i: Iri)
    requires TypedAt(d, t) && forall j :: j != t ==> TypedAt(c, j) == TypedAt(d, j)
    ensures NearestType(d, i) == if NearestWas(c, i, t) then Some(t) else NearestType(c, i)
    decreases |i.within|
  {
    match Parent(i)
    case None =>
    case Some(p) => NearestWithOneMore(c, d, t, p);
  }

  /** Types fewer leave the nearest of every IRI that belonged to none of them. */
  lemma {:induction false} NearestWithFewer(c: Corpus, d: Corpus, i: Iri)
    requires forall j :: TypedAt(d, j) ==> TypedAt(c, j)
    requires NearestType(c, i).Some? ==> TypedAt(d, NearestType(c, i).value)
    ensures NearestType(d, i) == NearestType(c, i)
    decreases |i.within|
  {
    match Parent(i)
    case None =>
    case Some(p) => if !TypedAt(c, p) { NearestWithFewer(c, d, p); }
  }

  /** Corpora with types at the same IRIs agree on the nearest. */
  lemma {:induction false} NearestAlike(c: Corpus, d: Corpus, i: Iri)
    requires forall j :: TypedAt(c, j) == TypedAt(d, j)
    ensures NearestType(c, i) == NearestType(d, i)
    decreases |i.within|
  {
    match Parent(i)
    case None =>
    case Some(p) => NearestAlike(c, d, p);
  }
}
