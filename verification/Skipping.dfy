/** The files an import would skip: the shortest chain of files that leads from one to a broken one, found a file at a
    time; and whether a file is held back, asked along every path there is. */
module Skipping {
  import opened Iris

  // ---- the shortest chain

  ghost function Set(files: seq<string>): (all: set<string>)
  {
    set x | x in files
  }

  /** Whether a list of files goes from one to another, each leading to the next. */
  predicate IsPath(start: string, leads: map<string, seq<string>>, path: seq<string>)
  {
    && path != [] && path[0] == start
    && forall k :: 0 <= k < |path| - 1 ==> path[k] in leads && path[k + 1] in leads[path[k]]
  }

  function Last(path: seq<string>): string
    requires path != []
  {
    path[|path| - 1]
  }

  /** Whether a path leads to a broken file, other than the one it starts at. */
  predicate IsChain(start: string, leads: map<string, seq<string>>, broken: set<string>, path: seq<string>)
  {
    IsPath(start, leads, path) && Last(path) in broken && Last(path) != start
  }

  /** The files there are: the start and every file that is led to. */
  function Files(start: string, leads: map<string, seq<string>>): set<string>
  {
    {start} + set at, to | at in leads && to in leads[at] :: to
  }

  /** What a search has found: a path to each file met, none of those but the start broken; and the files met that wait
      to be searched from, nearest first, none further than one step past the first. */
  ghost predicate Found(start: string, leads: map<string, seq<string>>, broken: set<string>,
                        chains: map<string, seq<string>>)
  {
    && start in chains && chains[start] == [start] && chains.Keys <= Files(start, leads)
    && (forall x :: x in chains ==> IsPath(start, leads, chains[x]) && Last(chains[x]) == x)
    && (forall x :: x in chains && x != start ==> x !in broken)
  }

  ghost predicate Queued(chains: map<string, seq<string>>, waiting: seq<string>, near: nat)
  {
    && (forall x :: x in waiting ==> x in chains && near <= |chains[x]| <= near + 1)
    && (forall j, k :: 0 <= j < k < |waiting| ==> |chains[waiting[j]]| <= |chains[waiting[k]]|)
  }

  /** Whether everything a file leads to has been met, no further than a step past it. */
  ghost predicate Searched(leads: map<string, seq<string>>, chains: map<string, seq<string>>, x: string)
    requires x in chains
  {
    x in leads ==> forall to :: to in leads[x] ==> to in chains && |chains[to]| <= |chains[x]| + 1
  }

  /** Whether every file met nearer than some length, and every other not still to be searched, has been searched. */
  ghost predicate SearchedBut(leads: map<string, seq<string>>, chains: map<string, seq<string>>, waiting: set<string>)
  {
    forall x :: x in chains && x !in waiting ==> Searched(leads, chains, x)
  }

  /** Every path no longer than the nearest file still to be searched ends at a file met, no further than it. */
  lemma {:induction false} ShortPathsAreMet(
    start: string, leads: map<string, seq<string>>, broken: set<string>, chains: map<string, seq<string>>,
    waiting: set<string>, near: nat, path: seq<string>)
    requires Found(start, leads, broken, chains) && SearchedBut(leads, chains, waiting)
    requires forall x :: x in waiting && x in chains ==> near <= |chains[x]|
    requires IsPath(start, leads, path) && (|path| <= near || waiting == {})
    ensures Last(path) in chains && |chains[Last(path)]| <= |path|
    decreases |path|
  {
    if |path| > 1 {
      var short := path[..|path| - 1];
      assert IsPath(start, leads, short);
      ShortPathsAreMet(start, leads, broken, chains, waiting, near, short);
      var at := Last(short);
      assert at !in waiting;
      assert Searched(leads, chains, at);
    }
  }

  lemma NoShorterChain(
    start: string, leads: map<string, seq<string>>, broken: set<string>, chains: map<string, seq<string>>,
    waiting: set<string>, near: nat)
    requires Found(start, leads, broken, chains) && SearchedBut(leads, chains, waiting)
    requires forall x :: x in waiting && x in chains ==> near <= |chains[x]|
    ensures forall path :: IsChain(start, leads, broken, path) ==> |path| > near && waiting != {}
  {
    forall path | IsChain(start, leads, broken, path)
      ensures |path| > near && waiting != {}
    {
      if |path| <= near || waiting == {} {
        ShortPathsAreMet(start, leads, broken, chains, waiting, near, path);
        assert false;
      }
    }
  }

  lemma OneMoreFound(
    start: string, leads: map<string, seq<string>>, broken: set<string>, chains: map<string, seq<string>>,
    at: string, to: string)
    requires Found(start, leads, broken, chains) && at in chains && at in leads && to in leads[at]
    ensures IsPath(start, leads, chains[at] + [to])
    ensures to !in broken && to !in chains ==> Found(start, leads, broken, chains[to := chains[at] + [to]])
  {
    var path := chains[at] + [to];
    forall k | 0 <= k < |path| - 1
      ensures path[k] in leads && path[k + 1] in leads[path[k]]
    {
      if k == |path| - 2 {
        assert path[k] == Last(chains[at]) == at;
      }
    }
    assert to in Files(start, leads);
  }

  lemma OneMoreQueued(chains: map<string, seq<string>>, waiting: seq<string>, near: nat, to: string, path: seq<string>)
    requires Queued(chains, waiting, near) && to !in chains && |path| == near + 1
    ensures Queued(chains[to := path], waiting + [to], near)
  {
  }

  lemma OneMoreSearched(
    leads: map<string, seq<string>>, chains: map<string, seq<string>>, waiting: set<string>, to: string,
    path: seq<string>)
    requires SearchedBut(leads, chains, waiting) && to !in chains
    ensures SearchedBut(leads, chains[to := path], waiting + {to})
  {
    var more := chains[to := path];
    forall x | x in more && x !in waiting + {to}
      ensures Searched(leads, more, x)
    {
      assert Searched(leads, chains, x);
    }
  }

  lemma SearchedFrom(leads: map<string, seq<string>>, chains: map<string, seq<string>>, waiting: set<string>, at: string)
    requires at in chains && SearchedBut(leads, chains, {at} + waiting) && Searched(leads, chains, at)
    ensures SearchedBut(leads, chains, waiting)
  {
    hide Searched;
  }

  lemma NextQueued(chains: map<string, seq<string>>, waiting: seq<string>, near: nat)
    requires Queued(chains, waiting, near) && waiting != []
    ensures waiting[0] in chains && near <= |chains[waiting[0]]| && Queued(chains, waiting, |chains[waiting[0]]|)
  {
  }

  /** No chain of files met goes further than a step past the nearest to be searched. */
  predicate Bounded(chains: map<string, seq<string>>, near: nat)
  {
    forall x :: x in chains ==> |chains[x]| <= near + 1
  }

  /** Whether every file of a list has been met, within a step of the file it is led to by. */
  predicate Met(chains: map<string, seq<string>>, files: seq<string>, near: nat)
  {
    forall to :: to in files ==> to in chains && |chains[to]| <= near + 1
  }

  lemma OneMoreMet(chains: map<string, seq<string>>, files: seq<string>, near: nat, to: string)
    requires Met(chains, files, near) && Bounded(chains, near) && to in chains
    ensures Met(chains, files + [to], near)
  {
  }

  lemma OneMoreBounded(chains: map<string, seq<string>>, files: seq<string>, near: nat, to: string, path: seq<string>)
    requires Met(chains, files, near) && Bounded(chains, near) && |path| == near + 1
    ensures Met(chains[to := path], files, near) && Bounded(chains[to := path], near)
  {
  }

  lemma OneMoreWaiting(at: string, waiting: seq<string>, to: string)
    ensures {at} + Set(waiting) + {to} == {at} + Set(waiting + [to])
  {
  }

  lemma MetIsSearched(leads: map<string, seq<string>>, chains: map<string, seq<string>>, at: string, near: nat)
    requires at in chains && |chains[at]| == near && Met(chains, if at in leads then leads[at] else [], near)
    ensures Searched(leads, chains, at)
  {
  }

  /** One file searched: everything it leads to met, a step past it; or the chain to a broken one it leads to. */
  method Search(
    start: string, leads: map<string, seq<string>>, broken: set<string>, chains: map<string, seq<string>>,
    waiting: seq<string>, ghost near: nat, at: string)
    returns (r: Option<seq<string>>, chains': map<string, seq<string>>, waiting': seq<string>)
    requires Found(start, leads, broken, chains) && at in chains && |chains[at]| == near
    requires Queued(chains, waiting, near) && Bounded(chains, near)
    requires SearchedBut(leads, chains, {at} + Set(waiting))
    ensures r.Some? ==>
      && IsChain(start, leads, broken, r.value)
      && forall path :: IsChain(start, leads, broken, path) ==> |r.value| <= |path|
    ensures r.None? ==>
      && Found(start, leads, broken, chains') && Queued(chains', waiting', near) && Bounded(chains', near)
      && SearchedBut(leads, chains', Set(waiting'))
      && chains.Keys <= chains'.Keys && (chains.Keys == chains'.Keys ==> waiting' == waiting)
  {
    chains', waiting' := chains, waiting;
    var tos := if at in leads then leads[at] else [];
    hide *;
    for n := 0 to |tos|
      invariant Found(start, leads, broken, chains') && at in chains' && chains'[at] == chains[at]
      invariant Queued(chains', waiting', near) && Bounded(chains', near)
      invariant SearchedBut(leads, chains', {at} + Set(waiting'))
      invariant Met(chains', tos[..n], near)
      invariant chains.Keys <= chains'.Keys && (chains.Keys == chains'.Keys ==> waiting' == waiting)
    {
      var to := tos[n];
      assert tos[..n + 1] == tos[..n] + [to];
      if to in chains' {
        OneMoreMet(chains', tos[..n], near, to);
        continue;
      }
      var path := chains'[at] + [to];
      OneMoreFound(start, leads, broken, chains', at, to);
      if to in broken {
        StillNear(chains', waiting', near, at);
        NoShorterChain(start, leads, broken, chains', {at} + Set(waiting'), near);
        IsAChain(start, leads, broken, chains', path, to);
        return Some(path), chains', waiting';
      }
      OneMoreQueued(chains', waiting', near, to, path);
      OneMoreSearched(leads, chains', {at} + Set(waiting'), to, path);
      OneMoreWaiting(at, waiting', to);
      OneMoreBounded(chains', tos[..n], near, to, path);
      OneMoreMet(chains'[to := path], tos[..n], near, to);
      chains' := chains'[to := path];
      waiting' := waiting' + [to];
    }
    assert tos[..|tos|] == tos;
    MetIsSearched(leads, chains', at, near);
    SearchedFrom(leads, chains', Set(waiting'), at);
    return None, chains', waiting';
  }

  lemma StillNear(chains: map<string, seq<string>>, waiting: seq<string>, near: nat, at: string)
    requires Queued(chains, waiting, near) && at in chains && |chains[at]| == near
    ensures forall x :: x in {at} + Set(waiting) && x in chains ==> near <= |chains[x]|
  {
  }

  lemma IsAChain(start: string, leads: map<string, seq<string>>, broken: set<string>, chains: map<string, seq<string>>,
                 path: seq<string>, to: string)
    requires Found(start, leads, broken, chains) && IsPath(start, leads, path) && path[|path| - 1] == to
    requires to in broken && to !in chains
    ensures IsChain(start, leads, broken, path)
  {
  }

  /** Breadth first: the path it gives is no longer than any other from the file to a broken one, and it gives None
      only where there is none. */
  method Chain(start: string, leads: map<string, seq<string>>, broken: set<string>) returns (r: Option<seq<string>>)
    ensures r.Some? ==>
      && IsChain(start, leads, broken, r.value)
      && forall path :: IsChain(start, leads, broken, path) ==> |r.value| <= |path|
    ensures r.None? ==> forall path :: !IsChain(start, leads, broken, path)
  {
    var chains := map[start := [start]];
    var waiting := [start];
    ghost var near: nat := 1;
    hide *;
    AtFirst(start, leads, broken);
    while waiting != []
      invariant Found(start, leads, broken, chains) && Queued(chains, waiting, near) && Bounded(chains, near)
      invariant waiting != [] ==> waiting[0] in chains && near == |chains[waiting[0]]|
      invariant SearchedBut(leads, chains, Set(waiting))
      decreases Files(start, leads) - chains.Keys, |waiting|
    {
      var at := waiting[0];
      ghost var before := chains;
      FirstWaits(waiting);
      r, chains, waiting := Search(start, leads, broken, chains, waiting[1..], near, at);
      if r.Some? {
        return;
      }
      if waiting != [] {
        NextQueued(chains, waiting, near);
        BoundedFurther(chains, near, |chains[waiting[0]]|);
        near := |chains[waiting[0]]|;
      }
      FoundAreFiles(start, leads, broken, before, chains);
    }
    NoneWaits();
    NoShorterChain(start, leads, broken, chains, {}, near);
    return None;
  }

  lemma AtFirst(start: string, leads: map<string, seq<string>>, broken: set<string>)
    ensures Found(start, leads, broken, map[start := [start]]) && Queued(map[start := [start]], [start], 1)
    ensures Bounded(map[start := [start]], 1) && SearchedBut(leads, map[start := [start]], Set([start]))
  {
  }

  lemma NoneWaits()
    ensures Set([]) == {}
  {
  }

  lemma FirstWaits(waiting: seq<string>)
    requires waiting != []
    ensures Set(waiting) == {waiting[0]} + Set(waiting[1..])
  {
  }

  lemma BoundedFurther(chains: map<string, seq<string>>, near: nat, far: nat)
    requires Bounded(chains, near) && near <= far
    ensures Bounded(chains, far)
  {
  }

  lemma FoundAreFiles(start: string, leads: map<string, seq<string>>, broken: set<string>,
                      before: map<string, seq<string>>, chains: map<string, seq<string>>)
    requires Found(start, leads, broken, chains) && before.Keys <= chains.Keys
    ensures before.Keys != chains.Keys ==> Files(start, leads) - chains.Keys < Files(start, leads) - before.Keys
  {
    hide IsPath;
    if before.Keys != chains.Keys {
      var x :| x in chains && x !in before;
      assert x in Files(start, leads) - before.Keys;
    }
  }

  // ---- held back

  /** A file offered under a name: whether it has an error, and the names of the type version files it is read through. */
  datatype Offered = Offered(file: string, errors: bool, beneath: seq<Iri>)

  /** The files offered, by name: each name's file its own, and what a file is read through among those offered. */
  predicate Directory(offered: map<Iri, Offered>)
  {
    && (forall m, n :: m in offered && n in offered && offered[m].file == offered[n].file ==> m == n)
    && (forall n, under :: n in offered && under in offered[n].beneath ==> under in offered)
  }

  /** Depth first with the path so far left out of what is tried next, so cycles end. */
  predicate HeldBack(offered: map<Iri, Offered>, name: Iri, seen: set<Iri>)
    requires Directory(offered) && name in offered && name !in seen
    decreases offered.Keys - seen
  {
    exists under :: under in offered[name].beneath && under !in seen + {name}
      && (offered[under].errors || HeldBack(offered, under, seen + {name}))
  }

  /** The files with an error. */
  function Broken(offered: map<Iri, Offered>): set<string>
  {
    set n | n in offered && offered[n].errors :: offered[n].file
  }

  function FilesOf(offered: map<Iri, Offered>, names: seq<Iri>): (files: seq<string>)
    requires forall n :: n in names ==> n in offered
  {
    seq(|names|, k requires 0 <= k < |names| => offered[names[k]].file)
  }

  /** Each file without an error, with the files it is read through. */
  function ReadThrough(offered: map<Iri, Offered>): (through: map<string, seq<string>>)
    requires Directory(offered)
    ensures forall file :: file in through <==> exists n :: n in offered && !offered[n].errors && offered[n].file == file
    ensures forall n :: n in offered && !offered[n].errors ==>
      through[offered[n].file] == FilesOf(offered, offered[n].beneath)
  {
    map n | n in offered && !offered[n].errors :: offered[n].file := FilesOf(offered, offered[n].beneath)
  }

  /** A path of names, each but the last without an error and read through the next; the last with one. */
  predicate Leads(offered: map<Iri, Offered>, path: seq<Iri>)
  {
    && |path| > 1 && (forall n :: n in path ==> n in offered)
    && offered[path[|path| - 1]].errors
    && forall k :: 0 <= k < |path| - 1 ==> !offered[path[k]].errors && path[k + 1] in offered[path[k]].beneath
  }

  lemma {:induction false} HeldBackLeads(offered: map<Iri, Offered>, name: Iri, seen: set<Iri>) returns (path: seq<Iri>)
    requires Directory(offered) && name in offered && name !in seen
    requires !offered[name].errors && HeldBack(offered, name, seen)
    ensures Leads(offered, path) && path[0] == name
    decreases offered.Keys - seen
  {
    var under :| under in offered[name].beneath && under !in seen + {name}
      && (offered[under].errors || HeldBack(offered, under, seen + {name}));
    hide HeldBack;
    if offered[under].errors {
      path := [name, under];
    } else {
      var rest := HeldBackLeads(offered, under, seen + {name});
      path := [name] + rest;
      LedFromBefore(offered, name, rest);
    }
  }

  lemma LedFromBefore(offered: map<Iri, Offered>, name: Iri, rest: seq<Iri>)
    requires Leads(offered, rest) && name in offered && !offered[name].errors && rest[0] in offered[name].beneath
    ensures Leads(offered, [name] + rest)
  {
    var path := [name] + rest;
    forall k | 0 <= k < |path| - 1
      ensures !offered[path[k]].errors && path[k + 1] in offered[path[k]].beneath
    {
      if k > 0 {
        assert path[k] == rest[k - 1] && path[k + 1] == rest[k];
      }
    }
  }

  /** A path that leads to an error and touches nothing seen holds back the file it starts at: where it comes back to
      that file, it is cut short. */
  lemma {:induction false} LeadingHoldsBack(offered: map<Iri, Offered>, path: seq<Iri>, seen: set<Iri>)
    requires Directory(offered) && Leads(offered, path) && forall n :: n in path ==> n !in seen
    ensures HeldBack(offered, path[0], seen)
    decreases |path|
  {
    var name := path[0];
    if k :| 0 < k < |path| && path[k] == name {
      LeadingHoldsBack(offered, path[k..], seen);
    } else {
      var under := path[1];
      if !offered[under].errors {
        assert forall k :: 0 < k < |path| ==> path[k] == path[1..][k - 1];
        LeadingHoldsBack(offered, path[1..], seen + {name});
      }
      assert under in offered[name].beneath && under !in seen + {name};
    }
  }

  lemma NamesOfFiles(offered: map<Iri, Offered>, name: Iri, path: seq<string>) returns (names: seq<Iri>)
    requires Directory(offered) && name in offered && !offered[name].errors
    requires IsChain(offered[name].file, ReadThrough(offered), Broken(offered), path)
    ensures Leads(offered, names) && names[0] == name
  {
    var through := ReadThrough(offered);
    forall k | 0 <= k < |path|
      ensures exists n :: n in offered && offered[n].file == path[k]
    {
      if k > 0 {
        assert path[k - 1] in through && path[k] in through[path[k - 1]];
        var m :| m in offered && !offered[m].errors && offered[m].file == path[k - 1];
        var j :| 0 <= j < |through[path[k - 1]]| && through[path[k - 1]][j] == path[k];
        assert offered[m].beneath[j] in offered;
      }
    }
    names := seq(|path|, k requires 0 <= k < |path| => var n :| n in offered && offered[n].file == path[k]; n);
    NamedLeads(offered, name, path, names);
  }

  lemma NamedLeads(offered: map<Iri, Offered>, name: Iri, path: seq<string>, names: seq<Iri>)
    requires Directory(offered) && name in offered && !offered[name].errors
    requires IsChain(offered[name].file, ReadThrough(offered), Broken(offered), path)
    requires |names| == |path| && forall k :: 0 <= k < |path| ==> names[k] in offered && offered[names[k]].file == path[k]
    ensures Leads(offered, names) && names[0] == name
  {
    var through := ReadThrough(offered);
    forall k | 0 <= k < |path| - 1
      ensures !offered[names[k]].errors && names[k + 1] in offered[names[k]].beneath
    {
      assert path[k] in through && path[k + 1] in through[path[k]];
      var m :| m in offered && !offered[m].errors && offered[m].file == path[k];
      assert m == names[k];
      var j :| 0 <= j < |through[path[k]]| && through[path[k]][j] == path[k + 1];
      assert offered[m].beneath[j] in offered[m].beneath && offered[m].beneath[j] in offered;
      assert offered[m].beneath[j] == names[k + 1];
    }
    var last := names[|names| - 1];
    assert Last(path) == offered[last].file;
    var m :| m in offered && offered[m].errors && offered[m].file == Last(path);
    assert m == last;
  }

  /** A file without an error is held back exactly when a chain of the files read through leads from it to a broken one:
      asked along every path, cycles cut short, it answers as the search does. */
  lemma HeldBackWhenChained(offered: map<Iri, Offered>, name: Iri)
    requires Directory(offered) && name in offered && !offered[name].errors
    ensures HeldBack(offered, name, {})
      <==> exists path :: IsChain(offered[name].file, ReadThrough(offered), Broken(offered), path)
  {
    if HeldBack(offered, name, {}) {
      var names := HeldBackLeads(offered, name, {});
      LeadsChains(offered, names);
    }
    if path :| IsChain(offered[name].file, ReadThrough(offered), Broken(offered), path) {
      var names := NamesOfFiles(offered, name, path);
      LeadingHoldsBack(offered, names, {});
    }
  }

  lemma LeadsChains(offered: map<Iri, Offered>, names: seq<Iri>)
    requires Directory(offered) && Leads(offered, names)
    ensures IsChain(offered[names[0]].file, ReadThrough(offered), Broken(offered), FilesOf(offered, names))
  {
    var path, through := FilesOf(offered, names), ReadThrough(offered);
    forall k | 0 <= k < |path| - 1
      ensures path[k] in through && path[k + 1] in through[path[k]]
    {
      var j :| 0 <= j < |offered[names[k]].beneath| && offered[names[k]].beneath[j] == names[k + 1];
      assert FilesOf(offered, offered[names[k]].beneath)[j] == path[k + 1];
    }
    assert names[|names| - 1] in offered && offered[names[|names| - 1]].errors;
  }
}
