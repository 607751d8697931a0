/** The names items of an artifact's collections are given, kept for life once given; and the names an artifact made, or
    one handed back, may not carry. */
module ItemNames {
  import opened Iris
  import opened Text
  import opened Content
  import Names

  const ID := Str("id")
  const TITLE := Str("title")

  /** The collections a type declares, each with what declares its items. */
  type Declares = map<Scalar, nat>

  // ---- one name

  /** What a title contributes to a name: its text, a number's or a truth value's as JSON writes it; None for the
      rest. */
  function Title(value: Option<Tree>): (text: Option<string>)
  {
    match value
    case Some(Leaf(Truth(told))) => Some(if told then "true" else "false")
    case Some(Leaf(Str(text))) => Some(text)
    case Some(Leaf(Whole(n))) => Some(if n < 0 then "-" + Digits(-n) else Digits(n))
    case Some(Leaf(Fraction(written))) => Some(written)
    case _ => None
  }

  function Lower(c: char): char
  {
    if 'A' <= c <= 'Z' then c - 'A' + 'a' else c
  }

  /** Letters made small, and a hyphen put for each stretch of characters that are neither letter nor digit. */
  function Hyphened(title: string): (s: string)
  {
    if title == "" then ""
    else
      var before, c := Hyphened(title[..|title| - 1]), Lower(title[|title| - 1]);
      if Names.Alnum(c) then before + [c]
      else if before != "" && before[|before| - 1] == '-' then before else before + "-"
  }

  /** The name a title gives: hyphened, with no hyphen at either end. */
  function Slug(title: string): (s: string)
  {
    var s := Hyphened(title);
    var from := if s != "" && s[0] == '-' then s[1..] else s;
    if from != "" && from[|from| - 1] == '-' then from[..|from| - 1] else from
  }

  /** Letters, digits and hyphens, no two hyphens together. */
  predicate Spelled(s: string)
  {
    && (forall k :: 0 <= k < |s| ==> Names.Alnum(s[k]) || s[k] == '-')
    && (forall k :: 0 <= k < |s| - 1 ==> s[k] != '-' || s[k + 1] != '-')
  }

  /** Whether text has a letter or a digit a name may be made of. */
  predicate Spells(title: string)
  {
    exists k :: 0 <= k < |title| && Names.Alnum(Lower(title[k]))
  }

  lemma {:induction false} HyphenedIsSpelled(title: string)
    ensures Spelled(Hyphened(title)) && (Spells(Hyphened(title)) <==> Spells(title))
    ensures !Spells(title) ==> |Hyphened(title)| <= 1
  {
    if title != "" {
      var n := |title| - 1;
      var before, c := Hyphened(title[..n]), Lower(title[n]);
      HyphenedIsSpelled(title[..n]);
      assert Spells(title) <==> Spells(title[..n]) || Names.Alnum(c) by {
        if k :| 0 <= k < |title| && Names.Alnum(Lower(title[k])) {
          assert k < n ==> title[..n][k] == title[k];
        }
        if k :| 0 <= k < n && Names.Alnum(Lower(title[..n][k])) {
          assert title[k] == title[..n][k];
        }
        assert Names.Alnum(c) ==> Names.Alnum(Lower(title[n]));
      }
      OneMoreSpells(before, c);
      OneMoreSpells(before, '-');
    }
  }

  lemma OneMoreSpells(s: string, c: char)
    requires c == Lower(c)
    ensures Spells(s + [c]) <==> Spells(s) || Names.Alnum(c)
  {
    var more := s + [c];
    if k :| 0 <= k < |more| && Names.Alnum(Lower(more[k])) {
      assert k < |s| ==> more[k] == s[k];
    }
    if k :| 0 <= k < |s| && Names.Alnum(Lower(s[k])) {
      assert more[k] == s[k];
    }
    assert more[|s|] == c;
  }

  /** Spelled text that ends in no hyphen is split into parts of letters and digits, none empty but a first one. */
  lemma {:induction false} SpelledIsSplit(s: string)
    requires Spelled(s) && (s != "" ==> s[|s| - 1] != '-')
    ensures forall k :: 0 < k < |Split(s, '-')| ==> Names.Run(Split(s, '-')[k])
    ensures s != "" && s[0] != '-' ==> Names.Run(Split(s, '-')[0])
    decreases |s|
  {
    if s != "" {
      var rest := s[1..];
      assert forall k :: 0 <= k < |rest| ==> rest[k] == s[k + 1];
      SpelledIsSplit(rest);
      var parts := Split(rest, '-');
      if s[0] == '-' {
        assert Split(s, '-') == [""] + parts;
      } else {
        var more := Split(s, '-');
        assert more == [[s[0]] + parts[0]] + parts[1..];
        assert |more| == |parts|;
        forall k | 0 < k < |more|
          ensures Names.Run(more[k])
        {
          assert more[k] == parts[1..][k - 1] == parts[k];
        }
        assert rest == "" ==> parts == [""];
        assert rest != "" && rest[0] == '-' ==> parts[0] == "";
      }
    }
  }

  /** The name a title gives is a plain one, or empty: empty exactly when the title has no letter and no digit. */
  lemma SlugIsPlain(title: string)
    ensures Slug(title) != "" ==> Names.Plain(Slug(title))
    ensures Slug(title) != "" <==> Spells(title)
  {
    var s := Hyphened(title);
    HyphenedIsSpelled(title);
    var slug := Slug(title);
    var from := if s != "" && s[0] == '-' then s[1..] else s;
    assert Spelled(from) && Spelled(slug);
    if slug != "" {
      SpelledIsSplit(slug);
      assert slug[0] != '-';
      assert slug[0] == Lower(slug[0]);
      assert s[0] == slug[0] || s[1] == slug[0];
      assert Spells(s);
    }
  }

  /** Candidate `n` for a name: itself for 1, else followed by a hyphen and `n`. */
  function Candidate(name: string, number: nat): string
  {
    if number <= 1 then name else name + "-" + Digits(number)
  }

  /** The first of a name's candidates that is free. */
  ghost predicate FirstFree(name: string, taken: set<string>, found: string)
  {
    exists number: nat :: number >= 1 && found == Candidate(name, number) && found !in taken
      && forall m: nat :: 1 <= m < number ==> Candidate(name, m) in taken
  }

  lemma CandidatesDiffer(name: string, m: nat, n: nat)
    requires 1 <= m < n
    ensures Candidate(name, m) != Candidate(name, n)
  {
    NumberUndoesDigits(n);
    assert Candidate(name, n)[|name| + 1..] == Digits(n);
    if m > 1 {
      NumberUndoesDigits(m);
      assert Candidate(name, m)[|name| + 1..] == Digits(m);
    } else {
      assert |Candidate(name, n)| > |name|;
    }
  }

  lemma FirstFreeIsOne(name: string, taken: set<string>, one: string, other: string)
    requires FirstFree(name, taken, one) && FirstFree(name, taken, other)
    ensures one == other
  {
    var m: nat :| m >= 1 && one == Candidate(name, m) && one !in taken && forall k: nat :: 1 <= k < m ==> Candidate(name, k) in taken;
    var n: nat :| n >= 1 && other == Candidate(name, n) && other !in taken && forall k: nat :: 1 <= k < n ==> Candidate(name, k) in taken;
    assert m < n ==> Candidate(name, m) in taken;
    assert n < m ==> Candidate(name, n) in taken;
  }

  /** The numbers tried so far, each one taken, no two the same. */
  ghost predicate Tried(name: string, taken: set<string>, number: nat, tried: set<string>)
  {
    && number >= 1 && tried <= taken && |tried| == number - 1
    && forall x :: x in tried <==> exists m: nat :: 1 <= m < number && x == Candidate(name, m)
  }

  lemma OneMoreTried(name: string, taken: set<string>, number: nat, tried: set<string>)
    requires Tried(name, taken, number, tried) && Candidate(name, number) in taken
    ensures Tried(name, taken, number + 1, tried + {Candidate(name, number)})
    ensures |tried| < |taken|
  {
    var candidate := Candidate(name, number);
    hide Candidate;
    forall m: nat | 1 <= m < number
      ensures Candidate(name, m) != candidate
    {
      CandidatesDiffer(name, m, number);
    }
    assert candidate !in tried;
    Subset(tried + {candidate}, taken);
  }

  lemma {:induction false} Subset(a: set<string>, b: set<string>)
    requires a <= b
    ensures |a| <= |b|
  {
    if a != {} {
      var x :| x in a;
      Subset(a - {x}, b - {x});
    }
  }

  /** A name, or the first of its numbers not taken: found whatever is taken. */
  method Numbered(name: string, taken: set<string>) returns (candidate: string)
    ensures FirstFree(name, taken, candidate)
  {
    var number := 1;
    candidate := name;
    ghost var tried: set<string> := {};
    while candidate in taken
      invariant candidate == Candidate(name, number) && Tried(name, taken, number, tried)
      decreases |taken| - |tried|
    {
      OneMoreTried(name, taken, number, tried);
      tried := tried + {candidate};
      number := number + 1;
      candidate := name + "-" + Digits(number);
    }
    assert forall m: nat :: 1 <= m < number ==> Candidate(name, m) in tried;
  }

  lemma AFreeName(name: string, taken: set<string>) returns (found: string)
    ensures FirstFree(name, taken, found)
  {
    var number: nat := 1;
    var tried: set<string> := {};
    while Candidate(name, number) in taken
      invariant Tried(name, taken, number, tried)
      decreases |taken| - |tried|
    {
      OneMoreTried(name, taken, number, tried);
      tried := tried + {Candidate(name, number)};
      number := number + 1;
    }
    assert forall m: nat :: 1 <= m < number ==> Candidate(name, m) in tried;
    found := Candidate(name, number);
  }

  ghost function FreeName(name: string, taken: set<string>): (found: string)
    ensures FirstFree(name, taken, found)
  {
    assert exists found :: FirstFree(name, taken, found) by {
      var found := AFreeName(name, taken);
    }
    var found :| FirstFree(name, taken, found);
    found
  }

  // ---- the names of a list

  /** What an item carries as its name; none for an item that carries none. */
  function Carries(item: Tree): (name: Option<Tree>)
  {
    if item.Mapping? then Get(item.entries, ID) else None
  }

  /** Whether an item is one to be named. */
  predicate Unnamed(item: Tree)
  {
    item.Mapping? && Carries(item).None?
  }

  /** The names the items of a list carry that are text. */
  function Carried(items: seq<Tree>): (names: set<string>)
  {
    set k | 0 <= k < |items| && Carries(items[k]).Some? && Carries(items[k]).value.Leaf?
            && Carries(items[k]).value.scalar.Str? :: Carries(items[k]).value.scalar.text
  }

  /** What an item's name is made from: its title, or its place in the list, counted from 1. */
  function Base(item: Tree, place: nat): string
    requires item.Mapping?
  {
    match Title(Get(item.entries, TITLE))
    case Some(text) => Slug(text)
    case None => Digits(place)
  }

  /** The names given to the unnamed among the first items of a list. */
  ghost function GivenTo(items: seq<Tree>, n: nat): (names: set<string>)
    requires n <= |items|
    decreases n, 0
  {
    if n == 0 then {} else GivenTo(items, n - 1) + if Unnamed(items[n - 1]) then {NameOf(items, n - 1)} else {}
  }

  /** The name an unnamed item is given: free of every name carried in the list, wherever its item stands, and of every
      one given before it. */
  ghost function NameOf(items: seq<Tree>, k: nat): (name: string)
    requires k < |items| && Unnamed(items[k])
    decreases k, 1
  {
    FreeName(Base(items[k], k + 1), Carried(items) + GivenTo(items, k))
  }

  // ---- an artifact's items named

  /** Declarations, and what each declares inside an item. */
  type Inside = nat -> Declares

  /** A node with every item of every collection it declares named, and the items inside each, at every depth. */
  ghost function Named(declares: Declares, inside: Inside, node: Tree): (r: Tree)
    decreases node
  {
    if node.Mapping? then Mapping(NamedEntries(declares, inside, node.entries)) else node
  }

  ghost function NamedEntries(declares: Declares, inside: Inside, entries: seq<Entry>): (r: seq<Entry>)
    ensures |r| == |entries| && Keys(r) == Keys(entries)
    decreases entries
  {
    seq(|entries|, k requires 0 <= k < |entries| => NamedEntry(declares, inside, entries[k]))
  }

  ghost function NamedEntry(declares: Declares, inside: Inside, e: Entry): (r: Entry)
    ensures r.key == e.key && (!e.value.List? ==> r == e)
    decreases e
  {
    if e.key in declares && e.value.List? then
      Entry(e.key, List(NamedItems(inside(declares[e.key]), inside, e.value.items)))
    else e
  }

  ghost function NamedItems(declares: Declares, inside: Inside, items: seq<Tree>): (r: seq<Tree>)
    ensures |r| == |items|
    decreases items
  {
    seq(|items|, k requires 0 <= k < |items| =>
      var under := Named(declares, inside, items[k]);
      if Unnamed(items[k]) then WithId(under, NameOf(items, k)) else under)
  }

  function WithId(item: Tree, name: string): (r: Tree)
    requires item.Mapping?
  {
    Mapping(Set(item.entries, ID, Leaf(Str(name))))
  }

  // ---- named apart

  /** Whether the names items carry are text, and no two of one list the same, in every collection at every depth. */
  predicate CarriedApart(declares: Declares, inside: Inside, node: Tree)
    decreases node
  {
    node.Mapping? ==> forall k :: 0 <= k < |node.entries| ==> EntryCarriedApart(declares, inside, node.entries[k])
  }

  predicate EntryCarriedApart(declares: Declares, inside: Inside, e: Entry)
    decreases e
  {
    e.key in declares && e.value.List? ==>
      && ListCarriedApart(e.value.items)
      && forall k :: 0 <= k < |e.value.items| ==> CarriedApart(inside(declares[e.key]), inside, e.value.items[k])
  }

  predicate IsText(t: Tree)
  {
    t.Leaf? && t.scalar.Str?
  }

  predicate ListCarriedApart(items: seq<Tree>)
  {
    && (forall k :: 0 <= k < |items| && Carries(items[k]).Some? ==> IsText(Carries(items[k]).value))
    && (forall j, k :: 0 <= j < k < |items| && Carries(items[j]).Some? ==> Carries(items[j]) != Carries(items[k]))
  }

  /** Whether every item of a list that is a mapping carries a name, as text, no two the same. */
  predicate ListApart(items: seq<Tree>)
  {
    ListCarriedApart(items) && forall k :: 0 <= k < |items| ==> !Unnamed(items[k])
  }

  /** Whether names are distinct, and every item has one, in every collection at every depth. */
  predicate NamedApart(declares: Declares, inside: Inside, node: Tree)
    decreases node
  {
    node.Mapping? ==> forall k :: 0 <= k < |node.entries| ==> EntryNamedApart(declares, inside, node.entries[k])
  }

  predicate EntryNamedApart(declares: Declares, inside: Inside, e: Entry)
    decreases e
  {
    e.key in declares && e.value.List? ==>
      && ListApart(e.value.items)
      && forall k :: 0 <= k < |e.value.items| ==> NamedApart(inside(declares[e.key]), inside, e.value.items[k])
  }

  lemma {:induction false} GetNamed(declares: Declares, inside: Inside, entries: seq<Entry>, key: Scalar)
    ensures Get(NamedEntries(declares, inside, entries), key) ==
      match Get(entries, key)
      case Some(value) => Some(NamedEntry(declares, inside, Entry(key, value)).value)
      case None => None
    decreases |entries|
  {
    if entries != [] {
      GetNamed(declares, inside, entries[1..], key);
      assert NamedEntries(declares, inside, entries)[1..] == NamedEntries(declares, inside, entries[1..]);
    }
  }

  /** The name an item carries once its list is named. */
  lemma NameOnceNamed(declares: Declares, inside: Inside, items: seq<Tree>, k: nat)
    requires k < |items| && ListCarriedApart(items)
    ensures Carries(NamedItems(declares, inside, items)[k]) ==
      if Unnamed(items[k]) then Some(Leaf(Str(NameOf(items, k)))) else Carries(items[k])
    ensures NamedItems(declares, inside, items)[k].Mapping? <==> items[k].Mapping?
  {
    if items[k].Mapping? {
      GetNamed(declares, inside, items[k].entries, ID);
      if Unnamed(items[k]) {
        var under := Named(declares, inside, items[k]);
        SetGot(under.entries, ID, Leaf(Str(NameOf(items, k))));
      }
    }
  }

  lemma {:induction false} SetGot(entries: seq<Entry>, key: Scalar, value: Tree)
    ensures Get(Set(entries, key, value), key) == Some(value)
    decreases |entries|
  {
    if entries != [] && entries[0].key != key {
      SetGot(entries[1..], key, value);
      var more := Set(entries, key, value);
      assert more[0] == entries[0] && more[1..] == Set(entries[1..], key, value);
    }
  }

  lemma {:induction false} GivenIsIn(items: seq<Tree>, j: nat, n: nat)
    requires j < n <= |items| && Unnamed(items[j])
    ensures NameOf(items, j) in GivenTo(items, n)
    decreases n
  {
    hide NameOf;
    if j < n - 1 {
      GivenIsIn(items, j, n - 1);
    }
  }

  lemma NameIsFree(items: seq<Tree>, k: nat)
    requires k < |items| && Unnamed(items[k])
    ensures NameOf(items, k) !in Carried(items) && NameOf(items, k) !in GivenTo(items, k)
  {
  }

  lemma NamedListIsApart(declares: Declares, inside: Inside, items: seq<Tree>)
    requires ListCarriedApart(items)
    ensures ListApart(NamedItems(declares, inside, items))
  {
    var r := NamedItems(declares, inside, items);
    hide NamedItems, NameOf;
    forall k | 0 <= k < |r|
      ensures !Unnamed(r[k]) && (Carries(r[k]).Some? ==> IsText(Carries(r[k]).value))
    {
      NameOnceNamed(declares, inside, items, k);
    }
    forall j, k | 0 <= j < k < |r| && Carries(r[j]).Some?
      ensures Carries(r[j]) != Carries(r[k])
    {
      NameOnceNamed(declares, inside, items, j);
      NameOnceNamed(declares, inside, items, k);
      TwoNamesDiffer(items, j, k);
    }
  }

  lemma TwoNamesDiffer(items: seq<Tree>, j: nat, k: nat)
    requires ListCarriedApart(items) && j < k < |items|
    ensures Unnamed(items[j]) && Unnamed(items[k]) ==> NameOf(items, j) != NameOf(items, k)
    ensures Unnamed(items[j]) && Carries(items[k]).Some? ==> Carries(items[k]) != Some(Leaf(Str(NameOf(items, j))))
    ensures Unnamed(items[k]) && Carries(items[j]).Some? ==> Carries(items[j]) != Some(Leaf(Str(NameOf(items, k))))
  {
    hide NameOf;
    if Unnamed(items[j]) {
      NameIsFree(items, j);
    }
    if Unnamed(items[k]) {
      NameIsFree(items, k);
      if Unnamed(items[j]) {
        GivenIsIn(items, j, k);
      }
    }
  }

  /** With the names carried text and apart, every item of every collection ends with a name, no two of a list the same,
      at every depth. */
  lemma {:induction false} NamingTellsApart(declares: Declares, inside: Inside, node: Tree)
    requires CarriedApart(declares, inside, node)
    ensures NamedApart(declares, inside, Named(declares, inside, node))
    decreases node
  {
    if node.Mapping? {
      forall k | 0 <= k < |node.entries|
        ensures EntryNamedApart(declares, inside, NamedEntry(declares, inside, node.entries[k]))
      {
        NamingAnEntry(declares, inside, node.entries[k]);
      }
    }
  }

  lemma {:induction false} NamingAnEntry(declares: Declares, inside: Inside, e: Entry)
    requires EntryCarriedApart(declares, inside, e)
    ensures EntryNamedApart(declares, inside, NamedEntry(declares, inside, e))
    decreases e
  {
    if e.key in declares && e.value.List? {
      var items, under := e.value.items, inside(declares[e.key]);
      NamedListIsApart(under, inside, items);
      forall k | 0 <= k < |items|
        ensures NamedApart(under, inside, NamedItems(under, inside, items)[k])
      {
        NamingTellsApart(under, inside, items[k]);
        if Unnamed(items[k]) {
          ANameMoreIsApart(under, inside, Named(under, inside, items[k]), NameOf(items, k));
        }
      }
    }
  }

  lemma ANameMoreIsApart(declares: Declares, inside: Inside, item: Tree, name: string)
    requires item.Mapping? && NamedApart(declares, inside, item)
    ensures NamedApart(declares, inside, WithId(item, name))
  {
    SetHolds(item.entries, ID, Leaf(Str(name)));
    var entries := WithId(item, name).entries;
    forall k | 0 <= k < |entries|
      ensures EntryNamedApart(declares, inside, entries[k])
    {
      assert entries[k] in entries;
      if entries[k] in item.entries {
        var j :| 0 <= j < |item.entries| && item.entries[j] == entries[k];
      }
    }
  }

  lemma {:induction false} SetHolds(entries: seq<Entry>, key: Scalar, value: Tree)
    ensures forall e :: e in Set(entries, key, value) ==> e in entries || e == Entry(key, value)
    decreases |entries|
  {
    if entries != [] && entries[0].key != key {
      SetHolds(entries[1..], key, value);
    }
  }

  // ---- every name kept

  /** Whether a node, named, is the node but for the names given: every item that carried a name carries it still, and
      nothing else of it is changed. */
  ghost predicate OnlyNamed(declares: Declares, inside: Inside, node: Tree, r: Tree)
    decreases node, 0
  {
    if !node.Mapping? then r == node
    else
      && r.Mapping? && |r.entries| == |node.entries|
      && forall k :: 0 <= k < |node.entries| ==> OnlyNamedEntry(declares, inside, node.entries[k], r.entries[k])
  }

  ghost predicate OnlyNamedEntry(declares: Declares, inside: Inside, e: Entry, r: Entry)
    decreases e, 0
  {
    if e.key !in declares || !e.value.List? then r == e
    else
      && r.key == e.key && r.value.List? && |r.value.items| == |e.value.items|
      && forall k :: 0 <= k < |e.value.items| ==>
        OnlyNamedItem(inside(declares[e.key]), inside, e.value.items[k], r.value.items[k])
  }

  ghost predicate OnlyNamedItem(declares: Declares, inside: Inside, item: Tree, r: Tree)
    decreases item, 1
  {
    if Unnamed(item) then
      r.Mapping? && r.entries != []
      && (exists name :: r.entries[|r.entries| - 1] == Entry(ID, Leaf(Str(name))))
      && OnlyNamed(declares, inside, item, Mapping(r.entries[..|r.entries| - 1]))
    else OnlyNamed(declares, inside, item, r)
  }

  /** Naming changes nothing but the items it names, each by its name alone. */
  lemma {:induction false} NamingOnlyNames(declares: Declares, inside: Inside, node: Tree)
    ensures OnlyNamed(declares, inside, node, Named(declares, inside, node))
    decreases node
  {
    if node.Mapping? {
      forall k | 0 <= k < |node.entries|
        ensures OnlyNamedEntry(declares, inside, node.entries[k], NamedEntry(declares, inside, node.entries[k]))
      {
        NamingOnlyAnEntry(declares, inside, node.entries[k]);
      }
    }
  }

  lemma {:induction false} NamingOnlyAnEntry(declares: Declares, inside: Inside, e: Entry)
    ensures OnlyNamedEntry(declares, inside, e, NamedEntry(declares, inside, e))
    decreases e
  {
    if e.key in declares && e.value.List? {
      var items, under := e.value.items, inside(declares[e.key]);
      forall k | 0 <= k < |items|
        ensures OnlyNamedItem(under, inside, items[k], NamedItems(under, inside, items)[k])
      {
        NamingOnlyNames(under, inside, items[k]);
        if Unnamed(items[k]) {
          var named := Named(under, inside, items[k]);
          SetAtTheEnd(named.entries, ID, Leaf(Str(NameOf(items, k))));
          var r := WithId(named, NameOf(items, k));
          assert r.entries[..|r.entries| - 1] == named.entries;
        }
      }
    }
  }

  // ---- the names an artifact may not be made with, or handed back with

  datatype Why = NotPlain | Repeated | Unknown

  /** A fault of `Given` or `HandedBack`: in which collection, at which index, and of what sort. */
  datatype Misnamed = Misnamed(collection: Scalar, index: nat, name: Tree, why: Why)

  predicate PlainName(t: Tree)
  {
    IsText(t) && Names.Plain(t.scalar.text)
  }

  /** Whether the names the items of a list carry may be given them: plain names, each once. */
  predicate ListGiven(items: seq<Tree>)
  {
    && (forall k :: 0 <= k < |items| && Carries(items[k]).Some? ==> PlainName(Carries(items[k]).value))
    && (forall j, k :: 0 <= j < k < |items| && Carries(items[j]).Some? ==> Carries(items[j]) != Carries(items[k]))
  }

  /** Whether, at every depth, the ids present in a collection are plain text and pairwise different. */
  predicate MayBeGiven(declares: Declares, inside: Inside, node: Tree)
    decreases node
  {
    node.Mapping? ==> forall k :: 0 <= k < |node.entries| ==> EntryMayBeGiven(declares, inside, node.entries[k])
  }

  predicate EntryMayBeGiven(declares: Declares, inside: Inside, e: Entry)
    decreases e
  {
    e.key in declares && e.value.List? ==>
      && ListGiven(e.value.items)
      && forall k :: 0 <= k < |e.value.items| ==> MayBeGiven(inside(declares[e.key]), inside, e.value.items[k])
  }

  /** Why a name cannot be an item's, if it cannot, and the names seen from here on. */
  method Unfit(collection: Scalar, index: nat, name: Tree, seen: set<string>)
    returns (found: seq<Misnamed>, seen': set<string>)
    ensures found == [] <==> PlainName(name) && name.scalar.text !in seen
    ensures seen' == if found == [] then seen + {name.scalar.text} else seen
  {
    if !PlainName(name) {
      return [Misnamed(collection, index, name, NotPlain)], seen;
    }
    if name.scalar.text in seen {
      return [Misnamed(collection, index, name, Repeated)], seen;
    }
    return [], seen + {name.scalar.text};
  }

  /** The names carried by the first items of a list, all plain and apart, seen. */
  ghost predicate Seen(items: seq<Tree>, n: nat, seen: set<string>)
    requires n <= |items|
  {
    && ListGiven(items[..n])
    && forall text :: text in seen <==> exists k :: 0 <= k < n && Carries(items[k]) == Some(Leaf(Str(text)))
  }

  lemma SeenOneMore(items: seq<Tree>, n: nat, seen: set<string>)
    requires n < |items| && Seen(items, n, seen)
    ensures Carries(items[n]).None? ==> Seen(items, n + 1, seen)
    ensures Carries(items[n]).Some? && PlainName(Carries(items[n]).value) ==>
      var text := Carries(items[n]).value.scalar.text;
      if text in seen then !ListGiven(items[..n + 1]) else Seen(items, n + 1, seen + {text})
    ensures Carries(items[n]).Some? && !PlainName(Carries(items[n]).value) ==> !ListGiven(items[..n + 1])
  {
    hide Carries, Names.Plain;
    var more := items[..n + 1];
    assert forall k :: 0 <= k < n ==> more[k] == items[..n][k] == items[k];
    assert more[n] == items[n];
    if Carries(items[n]).Some? && PlainName(Carries(items[n]).value) {
      var text := Carries(items[n]).value.scalar.text;
      assert Carries(items[n]) == Some(Leaf(Str(text)));
    }
  }

  lemma NotGivenSoFar(items: seq<Tree>, n: nat)
    requires n <= |items| && !ListGiven(items[..n])
    ensures !ListGiven(items)
  {
    hide Carries, PlainName;
    assert forall k :: 0 <= k < n ==> items[..n][k] == items[k];
  }

  /** Collects faults collection by collection; the list is empty iff `MayBeGiven`. */
  method Given(declares: Declares, inside: Inside, node: Tree) returns (found: seq<Misnamed>)
    ensures found == [] <==> MayBeGiven(declares, inside, node)
    decreases node, 0
  {
    found := [];
    if !node.Mapping? {
      return;
    }
    for k := 0 to |node.entries|
      invariant found == [] <==> forall j :: 0 <= j < k ==> EntryMayBeGiven(declares, inside, node.entries[j])
    {
      var more := GivenIn(declares, inside, node.entries[k]);
      found := found + more;
    }
  }

  /** Whether an item carries no name, or one fit for it beside those seen. */
  predicate Fits(item: Tree, seen: set<string>)
  {
    Carries(item).Some? ==> PlainName(Carries(item).value) && Carries(item).value.scalar.text !in seen
  }

  function SeenAfter(item: Tree, seen: set<string>): (more: set<string>)
  {
    if Carries(item).Some? && PlainName(Carries(item).value) then seen + {Carries(item).value.scalar.text} else seen
  }

  lemma SeenNext(items: seq<Tree>, n: nat, seen: set<string>)
    requires n < |items| && Seen(items, n, seen)
    ensures ListGiven(items[..n + 1]) <==> Fits(items[n], seen)
    ensures Fits(items[n], seen) ==> Seen(items, n + 1, SeenAfter(items[n], seen))
  {
    SeenOneMore(items, n, seen);
    hide ListGiven, PlainName, Carries;
  }

  lemma NotGivenBefore(items: seq<Tree>, n: nat)
    requires n < |items| && ListGiven(items[..n + 1])
    ensures ListGiven(items[..n])
  {
    if !ListGiven(items[..n]) {
      assert items[..n + 1][..n] == items[..n];
      NotGivenSoFar(items[..n + 1], n);
    }
  }

  /** Whether no fault has been found among the first items of a list. */
  ghost predicate GivenSoFar(declares: Declares, inside: Inside, items: seq<Tree>, n: nat)
    requires n <= |items|
  {
    ListGiven(items[..n]) && forall k :: 0 <= k < n ==> MayBeGiven(declares, inside, items[k])
  }

  lemma NextGiven(declares: Declares, inside: Inside, items: seq<Tree>, n: nat, seen: set<string>)
    requires n < |items| && (GivenSoFar(declares, inside, items, n) ==> Seen(items, n, seen))
    ensures GivenSoFar(declares, inside, items, n + 1) <==>
      GivenSoFar(declares, inside, items, n) && Fits(items[n], seen) && MayBeGiven(declares, inside, items[n])
    ensures GivenSoFar(declares, inside, items, n + 1) ==> Seen(items, n + 1, SeenAfter(items[n], seen))
  {
    hide ListGiven, Fits, SeenAfter, Seen, MayBeGiven;
    if GivenSoFar(declares, inside, items, n) {
      SeenNext(items, n, seen);
    }
    if GivenSoFar(declares, inside, items, n + 1) {
      NotGivenBefore(items, n);
    }
  }

  method GivenIn(declares: Declares, inside: Inside, e: Entry) returns (found: seq<Misnamed>)
    ensures found == [] <==> EntryMayBeGiven(declares, inside, e)
    decreases e, 0
  {
    found := [];
    if e.key !in declares || !e.value.List? {
      return;
    }
    var items, under := e.value.items, inside(declares[e.key]);
    var seen := {};
    hide *;
    NoneGiven(declares, inside, items, e);
    for n := 0 to |items|
      invariant found == [] <==> GivenSoFar(under, inside, items, n)
      invariant found == [] ==> Seen(items, n, seen)
    {
      NextGiven(under, inside, items, n, seen);
      var more, after := ItemGivenIn(under, inside, e.key, n, items[n], seen);
      found, seen := found + more, after;
    }
  }

  lemma NoneGiven(declares: Declares, inside: Inside, items: seq<Tree>, e: Entry)
    requires e.key in declares && e.value == List(items)
    ensures Seen(items, 0, {}) && GivenSoFar(inside(declares[e.key]), inside, items, 0)
    ensures GivenSoFar(inside(declares[e.key]), inside, items, |items|) <==> EntryMayBeGiven(declares, inside, e)
  {
    hide Carries, PlainName;
    assert items[..|items|] == items;
  }

  /** The faults of one item, its own and those inside it, and the names seen from here on. */
  method ItemGivenIn(
    declares: Declares, inside: Inside, collection: Scalar, index: nat, item: Tree, seen: set<string>)
    returns (found: seq<Misnamed>, seen': set<string>)
    ensures found == [] <==> Fits(item, seen) && MayBeGiven(declares, inside, item)
    ensures found == [] ==> seen' == SeenAfter(item, seen)
    decreases item, 1
  {
    found, seen' := [], seen;
    hide Names.Plain;
    if Carries(item).Some? {
      found, seen' := Unfit(collection, index, Carries(item).value, seen);
    }
    var more := Given(declares, inside, item);
    found := found + more;
  }

  // ---- names given, handed back

  lemma PlainNumbered(name: string, number: nat)
    requires number >= 1
    ensures Names.Plain(Candidate(name, number)) <==> Names.Plain(name)
  {
    if number > 1 {
      var digits := Digits(number);
      assert Candidate(name, number) == name + ['-'] + digits;
      assert '-' !in digits;
      SplitOfLast(name, digits, '-');
      var before, parts := Split(name, '-'), Split(Candidate(name, number), '-');
      assert parts == before + [digits] && forall k :: 0 <= k < |before| ==> parts[k] == before[k];
      assert Names.Run(digits);
    }
  }

  lemma DigitsArePlain(number: nat)
    ensures Digits(number) != "" && Names.Plain(Digits(number))
  {
    SplitUndoesJoin([Digits(number)], '-');
  }

  lemma BaseIsPlain(item: Tree, place: nat)
    requires item.Mapping?
    ensures Names.Plain(Base(item, place)) <==> Base(item, place) != ""
  {
    assert Split("", '-') == [""];
    hide Names.Plain, Slug;
    match Title(Get(item.entries, TITLE))
    case Some(text) =>
      SlugIsPlain(text);
      EmptyIsNotPlain();
    case None => DigitsArePlain(place);
  }

  lemma EmptyIsNotPlain()
    ensures !Names.Plain("")
  {
    assert Split("", '-')[0] == "";
  }

  /** The name an item is given is plain exactly when what it is made from is not empty: when it has no title, or one with
      a letter or a digit. */
  lemma GivenNameIsPlain(items: seq<Tree>, k: nat)
    requires k < |items| && Unnamed(items[k])
    ensures Names.Plain(NameOf(items, k)) <==> Base(items[k], k + 1) != ""
  {
    var name := Base(items[k], k + 1);
    NameIsFirstFree(items, k);
    hide Base, Names.Plain, Candidate;
    var number: nat :| number >= 1 && NameOf(items, k) == Candidate(name, number);
    PlainNumbered(name, number);
    BaseIsPlain(items[k], k + 1);
  }

  /** Whether every item to be named has something to make a name from, in every collection at every depth. */
  predicate Titled(declares: Declares, inside: Inside, node: Tree)
    decreases node
  {
    node.Mapping? ==> forall k :: 0 <= k < |node.entries| ==> EntryTitled(declares, inside, node.entries[k])
  }

  predicate EntryTitled(declares: Declares, inside: Inside, e: Entry)
    decreases e
  {
    e.key in declares && e.value.List? ==>
      && ListTitled(e.value.items)
      && forall k :: 0 <= k < |e.value.items| ==> Titled(inside(declares[e.key]), inside, e.value.items[k])
  }

  predicate ListTitled(items: seq<Tree>)
  {
    forall k :: 0 <= k < |items| && Unnamed(items[k]) ==> Base(items[k], k + 1) != ""
  }

  lemma GivenListOnceNamed(declares: Declares, inside: Inside, items: seq<Tree>)
    requires ListGiven(items)
    ensures ListGiven(NamedItems(declares, inside, items)) <==> ListTitled(items)
  {
    var r := NamedItems(declares, inside, items);
    NamedListIsApart(declares, inside, items);
    hide NamedItems, NameOf, Base, Names.Plain, Carries;
    forall k | 0 <= k < |r| && Unnamed(items[k])
      ensures Carries(r[k]).Some? && (PlainName(Carries(r[k]).value) <==> Base(items[k], k + 1) != "")
    {
      NameOnceNamed(declares, inside, items, k);
      GivenNameIsPlain(items, k);
    }
    forall k | 0 <= k < |r| && !Unnamed(items[k])
      ensures Carries(r[k]) == Carries(items[k])
    {
      NameOnceNamed(declares, inside, items, k);
    }
  }

  /** What was made without a fault may, once named, be handed back as it stands exactly when every item that was named by
      a title had a letter or a digit in it: the name given for any other is empty, or a number after a hyphen, which no
      revision may carry. */
  lemma {:induction false} NamedMayBeGivenAgain(declares: Declares, inside: Inside, node: Tree)
    requires MayBeGiven(declares, inside, node)
    ensures MayBeGiven(declares, inside, Named(declares, inside, node)) <==> Titled(declares, inside, node)
    decreases node
  {
    if node.Mapping? {
      var r := NamedEntries(declares, inside, node.entries);
      forall k | 0 <= k < |node.entries|
        ensures EntryMayBeGiven(declares, inside, r[k]) <==> EntryTitled(declares, inside, node.entries[k])
      {
        EntryMayBeGivenAgain(declares, inside, node.entries[k]);
      }
      EachMayBeGiven(declares, inside, node.entries, r);
    }
  }

  lemma EachMayBeGiven(declares: Declares, inside: Inside, entries: seq<Entry>, r: seq<Entry>)
    requires |r| == |entries|
    requires forall k :: 0 <= k < |entries| ==>
      (EntryMayBeGiven(declares, inside, r[k]) <==> EntryTitled(declares, inside, entries[k]))
    ensures MayBeGiven(declares, inside, Mapping(r)) <==> Titled(declares, inside, Mapping(entries))
  {
    hide EntryMayBeGiven, EntryTitled;
    if !Titled(declares, inside, Mapping(entries)) {
      var k :| 0 <= k < |entries| && !EntryTitled(declares, inside, entries[k]);
      assert !EntryMayBeGiven(declares, inside, r[k]);
    }
    if !MayBeGiven(declares, inside, Mapping(r)) {
      var k :| 0 <= k < |r| && !EntryMayBeGiven(declares, inside, r[k]);
      assert !EntryTitled(declares, inside, entries[k]);
    }
  }

  lemma {:induction false} EntryMayBeGivenAgain(declares: Declares, inside: Inside, e: Entry)
    requires EntryMayBeGiven(declares, inside, e)
    ensures EntryMayBeGiven(declares, inside, NamedEntry(declares, inside, e)) <==> EntryTitled(declares, inside, e)
    decreases e
  {
    if e.key in declares && e.value.List? {
      var items, under := e.value.items, inside(declares[e.key]);
      var r := NamedItems(under, inside, items);
      GivenListOnceNamed(under, inside, items);
      forall k | 0 <= k < |items|
        ensures MayBeGiven(under, inside, r[k]) <==> Titled(under, inside, items[k])
      {
        NamedMayBeGivenAgain(under, inside, items[k]);
        if Unnamed(items[k]) {
          ANameMoreMayBeGiven(under, inside, Named(under, inside, items[k]), NameOf(items, k));
        }
      }
      hide NamedItems, ListGiven, ListTitled, MayBeGiven, Titled;
      assert NamedEntry(declares, inside, e) == Entry(e.key, List(r)) by { NamedIs(declares, inside, e); }
      if forall k :: 0 <= k < |items| ==> Titled(under, inside, items[k]) {
        assert forall k :: 0 <= k < |items| ==> MayBeGiven(under, inside, r[k]);
      } else {
        var k :| 0 <= k < |items| && !Titled(under, inside, items[k]);
        assert !MayBeGiven(under, inside, r[k]);
      }
    }
  }

  lemma ANameMoreMayBeGiven(declares: Declares, inside: Inside, item: Tree, name: string)
    requires item.Mapping? && ID !in Content.Keys(item.entries)
    ensures MayBeGiven(declares, inside, WithId(item, name)) <==> MayBeGiven(declares, inside, item)
  {
    SetAtTheEnd(item.entries, ID, Leaf(Str(name)));
    var more := WithId(item, name).entries;
    assert forall k :: 0 <= k < |item.entries| ==> more[k] == item.entries[k];
    hide EntryMayBeGiven;
    var last := Entry(ID, Leaf(Str(name)));
    assert more[|item.entries|] == last;
    assert EntryMayBeGiven(declares, inside, last) by { LeafMayBeGiven(declares, inside, last); }
    if MayBeGiven(declares, inside, WithId(item, name)) {
      forall k | 0 <= k < |item.entries|
        ensures EntryMayBeGiven(declares, inside, item.entries[k])
      {
        assert EntryMayBeGiven(declares, inside, more[k]);
      }
    }
  }

  lemma LeafMayBeGiven(declares: Declares, inside: Inside, e: Entry)
    requires !e.value.List?
    ensures EntryMayBeGiven(declares, inside, e)
  {
  }

  // ---- items named as they are walked

  lemma NameIsFirstFree(items: seq<Tree>, k: nat)
    requires k < |items| && Unnamed(items[k])
    ensures FirstFree(Base(items[k], k + 1), Carried(items) + GivenTo(items, k), NameOf(items, k))
  {
    hide FirstFree, Base, Carried, GivenTo;
  }

  /** Refines `Named` with the source's loops. */
  method NameItems(declares: Declares, inside: Inside, node: Tree) returns (r: Tree)
    ensures r == Named(declares, inside, node)
    decreases node
  {
    if !node.Mapping? {
      return node;
    }
    var entries := [];
    for k := 0 to |node.entries|
      invariant entries == NamedEntries(declares, inside, node.entries)[..k]
    {
      var e := NameEntry(declares, inside, node.entries[k]);
      entries := entries + [e];
    }
    return Mapping(entries);
  }

  /** The items of a collection named in turn, the names carried taken first, wherever their items stand. */
  method NameEntry(declares: Declares, inside: Inside, e: Entry) returns (r: Entry)
    ensures r == NamedEntry(declares, inside, e)
    decreases e
  {
    hide *;
    NamedIs(declares, inside, e);
    if e.key !in declares || !e.value.List? {
      return e;
    }
    var items, under := e.value.items, inside(declares[e.key]);
    var taken, named := Carried(items), [];
    NoneGivenYet(items);
    for n := 0 to |items|
      invariant taken == Carried(items) + GivenTo(items, n)
      invariant named == NamedItems(under, inside, items)[..n]
    {
      var item := NameItems(under, inside, items[n]);
      item, taken := NameOne(under, inside, items, n, item, taken);
      named := named + [item];
    }
    assert named == NamedItems(under, inside, items);
    return Entry(e.key, List(named));
  }

  /** One item named, unless it carries a name or can carry none, by the first candidate free of those taken. */
  method NameOne(declares: Declares, inside: Inside, items: seq<Tree>, n: nat, under: Tree, taken: set<string>)
    returns (item: Tree, taken': set<string>)
    requires n < |items| && under == Named(declares, inside, items[n])
    requires taken == Carried(items) + GivenTo(items, n)
    ensures item == NamedItems(declares, inside, items)[n]
    ensures taken' == Carried(items) + GivenTo(items, n + 1)
  {
    hide FirstFree, Base, Carried, NameOf, Slug;
    item, taken' := under, taken;
    if Unnamed(items[n]) {
      var name := Numbered(Base(items[n], n + 1), taken);
      NameIsFirstFree(items, n);
      FirstFreeIsOne(Base(items[n], n + 1), taken, name, NameOf(items, n));
      taken' := taken + {name};
      item := WithId(under, name);
    }
  }

  lemma NoneGivenYet(items: seq<Tree>)
    ensures GivenTo(items, 0) == {}
  {
  }

  lemma NamedIs(declares: Declares, inside: Inside, e: Entry)
    ensures if e.key !in declares || !e.value.List? then NamedEntry(declares, inside, e) == e
      else
        && |NamedItems(inside(declares[e.key]), inside, e.value.items)| == |e.value.items|
        && NamedEntry(declares, inside, e)
          == Entry(e.key, List(NamedItems(inside(declares[e.key]), inside, e.value.items)))
  {
  }

  // ---- handed back

  /** The item that had a name in a list held; the last, were there more. */
  function Was(held: seq<Tree>, name: string): (was: Option<Tree>)
  {
    if held == [] then None
    else if Carries(held[|held| - 1]) == Some(Leaf(Str(name))) then Some(held[|held| - 1])
    else Was(held[..|held| - 1], name)
  }

  /** A field's value when that is a list; [] when it is anything else or missing. */
  function Held(node: Tree, collection: Scalar): (items: seq<Tree>)
  {
    if !node.Mapping? then []
    else
      match Get(node.entries, collection)
      case Some(List(items)) => items
      case _ => []
  }

  /** The item an item handed back was held as; an empty one for one that had no name there. */
  function HeldAs(held: seq<Tree>, item: Tree): (was: Tree)
  {
    var name := Carries(item);
    if name.Some? && IsText(name.value) && Was(held, name.value.scalar.text).Some? then
      Was(held, name.value.scalar.text).value
    else Mapping([])
  }

  predicate Known(held: seq<Tree>, item: Tree)
  {
    var name := Carries(item);
    name.Some? ==> IsText(name.value) && Was(held, name.value.scalar.text).Some?
  }

  /** Whether every name a revision's items carry is one the store could have given: plain, once in its list, and the
      name of an item of that collection as it was held; inside an item, as inside the item that had its name. */
  predicate MayBeHandedBack(declares: Declares, inside: Inside, before: Tree, node: Tree)
    decreases node
  {
    node.Mapping? ==> forall k :: 0 <= k < |node.entries| ==>
      EntryMayBeHandedBack(declares, inside, Held(before, node.entries[k].key), node.entries[k])
  }

  predicate EntryMayBeHandedBack(declares: Declares, inside: Inside, held: seq<Tree>, e: Entry)
    decreases e
  {
    e.key in declares && e.value.List? ==>
      && ListGiven(e.value.items)
      && (forall k :: 0 <= k < |e.value.items| ==> Known(held, e.value.items[k]))
      && forall k :: 0 <= k < |e.value.items| ==>
        MayBeHandedBack(inside(declares[e.key]), inside, HeldAs(held, e.value.items[k]), e.value.items[k])
  }

  /** Whether a node is what was held with its items dropped, put in another order and rewritten, each held one used once
      at most, beside new ones that carry no name, nor anything in them; in every collection at every depth. */
  predicate Rearranged(declares: Declares, inside: Inside, before: Tree, node: Tree)
    decreases node, 0
  {
    node.Mapping? ==> forall k :: 0 <= k < |node.entries| ==>
      EntryRearranged(declares, inside, Held(before, node.entries[k].key), node.entries[k])
  }

  predicate EntryRearranged(declares: Declares, inside: Inside, held: seq<Tree>, e: Entry)
    decreases e, 0
  {
    e.key in declares && e.value.List? ==>
      && (forall j, k :: 0 <= j < k < |e.value.items| && Carries(e.value.items[j]).Some? ==>
           Carries(e.value.items[j]) != Carries(e.value.items[k]))
      && forall k :: 0 <= k < |e.value.items| ==> FromHeld(inside(declares[e.key]), inside, held, e.value.items[k])
  }

  /** Whether an item is a held one, rewritten, or a new one. */
  predicate FromHeld(declares: Declares, inside: Inside, held: seq<Tree>, item: Tree)
    decreases item, 1
  {
    if Carries(item).None? then Rearranged(declares, inside, Mapping([]), item)
    else exists m :: 0 <= m < |held| && Carries(held[m]) == Carries(item) && Rearranged(declares, inside, held[m], item)
  }

  /** In a list whose names are apart, the item that had a name is the one that has it. */
  lemma {:induction false} WasIsTheOne(held: seq<Tree>, m: nat, name: string)
    requires ListGiven(held) && m < |held| && Carries(held[m]) == Some(Leaf(Str(name)))
    ensures Was(held, name) == Some(held[m])
    decreases |held|
  {
    var n := |held| - 1;
    if m < n {
      assert Carries(held[m]) != Carries(held[n]);
      assert forall k :: 0 <= k < n ==> held[..n][k] == held[k];
      WasIsTheOne(held[..n], m, name);
    }
  }

  lemma {:induction false} WasIsHeld(held: seq<Tree>, name: string) returns (m: nat)
    requires Was(held, name).Some?
    ensures m < |held| && held[m] == Was(held, name).value && Carries(held[m]) == Some(Leaf(Str(name)))
  {
    var n := |held| - 1;
    if Carries(held[n]) == Some(Leaf(Str(name))) {
      m := n;
    } else {
      m := WasIsHeld(held[..n], name);
    }
  }

  lemma HeldMayBeGiven(declares: Declares, inside: Inside, before: Tree, collection: Scalar)
    requires MayBeGiven(declares, inside, before) && collection in declares
    ensures var held := Held(before, collection);
      ListGiven(held) && forall m :: 0 <= m < |held| ==> MayBeGiven(inside(declares[collection]), inside, held[m])
  {
    if Held(before, collection) != [] {
      var k :| 0 <= k < |before.entries| && before.entries[k] == Entry(collection, Get(before.entries, collection).value);
      assert EntryMayBeGiven(declares, inside, before.entries[k]);
    }
  }

  /** When the names held are plain and apart, a revision hands its items back without a fault exactly when it rearranges
      what was held: any dropping, reordering or rewriting of held items, beside new ones with no names. */
  lemma {:induction false} HandedBackWhenRearranged(declares: Declares, inside: Inside, before: Tree, node: Tree)
    requires MayBeGiven(declares, inside, before)
    ensures MayBeHandedBack(declares, inside, before, node) <==> Rearranged(declares, inside, before, node)
    decreases node, 0
  {
    if node.Mapping? {
      forall k | 0 <= k < |node.entries|
        ensures var e := node.entries[k];
          EntryMayBeHandedBack(declares, inside, Held(before, e.key), e)
          <==> EntryRearranged(declares, inside, Held(before, e.key), e)
      {
        var e := node.entries[k];
        if e.key in declares {
          HeldMayBeGiven(declares, inside, before, e.key);
          EntryHandedBack(declares, inside, Held(before, e.key), e);
        }
      }
    }
  }

  lemma {:induction false} EntryHandedBack(declares: Declares, inside: Inside, held: seq<Tree>, e: Entry)
    requires e.key in declares && ListGiven(held)
    requires forall m :: 0 <= m < |held| ==> MayBeGiven(inside(declares[e.key]), inside, held[m])
    ensures EntryMayBeHandedBack(declares, inside, held, e) <==> EntryRearranged(declares, inside, held, e)
    decreases e, 0
  {
    if e.value.List? {
      var items, under := e.value.items, inside(declares[e.key]);
      forall k | 0 <= k < |items|
        ensures FromHeld(under, inside, held, items[k])
          <==> Known(held, items[k]) && MayBeHandedBack(under, inside, HeldAs(held, items[k]), items[k])
        ensures Known(held, items[k]) && Carries(items[k]).Some? ==> PlainName(Carries(items[k]).value)
      {
        ItemHandedBack(under, inside, held, items[k]);
      }
    }
  }

  lemma {:induction false} ItemHandedBack(declares: Declares, inside: Inside, held: seq<Tree>, item: Tree)
    requires ListGiven(held) && forall m :: 0 <= m < |held| ==> MayBeGiven(declares, inside, held[m])
    ensures FromHeld(declares, inside, held, item)
      <==> Known(held, item) && MayBeHandedBack(declares, inside, HeldAs(held, item), item)
    ensures Known(held, item) && Carries(item).Some? ==> PlainName(Carries(item).value)
    decreases item, 1
  {
    if Carries(item).None? {
      HandedBackWhenRearranged(declares, inside, Mapping([]), item);
    } else {
      if Known(held, item) {
        var m := WasIsHeld(held, Carries(item).value.scalar.text);
        HandedBackWhenRearranged(declares, inside, held[m], item);
      }
      if FromHeld(declares, inside, held, item) {
        var m :| 0 <= m < |held| && Carries(held[m]) == Carries(item) && Rearranged(declares, inside, held[m], item);
        var text := Carries(item).value.scalar.text;
        assert PlainName(Carries(held[m]).value) && Carries(item) == Some(Leaf(Str(text)));
        WasIsTheOne(held, m, text);
        HandedBackWhenRearranged(declares, inside, held[m], item);
      }
    }
  }

  // ---- what naming leaves, once no fault is found

  lemma {:induction false} GivenAreApart(declares: Declares, inside: Inside, node: Tree)
    requires MayBeGiven(declares, inside, node)
    ensures CarriedApart(declares, inside, node)
    decreases node
  {
    if node.Mapping? {
      forall k | 0 <= k < |node.entries|
        ensures EntryCarriedApart(declares, inside, node.entries[k])
      {
        EntryGivenIsApart(declares, inside, node.entries[k]);
      }
    }
  }

  lemma {:induction false} EntryGivenIsApart(declares: Declares, inside: Inside, e: Entry)
    requires EntryMayBeGiven(declares, inside, e)
    ensures EntryCarriedApart(declares, inside, e)
    decreases e
  {
    if e.key in declares && e.value.List? {
      forall k | 0 <= k < |e.value.items|
        ensures CarriedApart(inside(declares[e.key]), inside, e.value.items[k])
      {
        GivenAreApart(inside(declares[e.key]), inside, e.value.items[k]);
      }
    }
  }

  lemma {:induction false} HandedBackAreApart(declares: Declares, inside: Inside, before: Tree, node: Tree)
    requires MayBeHandedBack(declares, inside, before, node)
    ensures CarriedApart(declares, inside, node)
    decreases node
  {
    if node.Mapping? {
      forall k | 0 <= k < |node.entries|
        ensures EntryCarriedApart(declares, inside, node.entries[k])
      {
        EntryHandedBackIsApart(declares, inside, Held(before, node.entries[k].key), node.entries[k]);
      }
    }
  }

  lemma {:induction false} EntryHandedBackIsApart(declares: Declares, inside: Inside, held: seq<Tree>, e: Entry)
    requires EntryMayBeHandedBack(declares, inside, held, e)
    ensures EntryCarriedApart(declares, inside, e)
    decreases e
  {
    if e.key in declares && e.value.List? {
      var items, under := e.value.items, inside(declares[e.key]);
      forall k | 0 <= k < |items|
        ensures CarriedApart(under, inside, items[k])
      {
        HandedBackAreApart(under, inside, HeldAs(held, items[k]), items[k]);
      }
    }
  }

  /** Made or handed back without a fault, a node's items are named so that, in every collection at every depth, each has
      a name and no two of a list share one; every name carried is kept, and nothing but names is added. */
  lemma NamesAreApartAndKept(declares: Declares, inside: Inside, before: Tree, node: Tree)
    requires MayBeGiven(declares, inside, node) || MayBeHandedBack(declares, inside, before, node)
    ensures NamedApart(declares, inside, Named(declares, inside, node))
    ensures OnlyNamed(declares, inside, node, Named(declares, inside, node))
  {
    if MayBeGiven(declares, inside, node) {
      GivenAreApart(declares, inside, node);
    } else {
      HandedBackAreApart(declares, inside, before, node);
    }
    NamingTellsApart(declares, inside, node);
    NamingOnlyNames(declares, inside, node);
  }

  // ---- the faults of what is handed back

  /** The items of a list by the names they carry that are text, a later one over an earlier. */
  method ByName(held: seq<Tree>) returns (had: map<string, Tree>)
    ensures forall name :: name in had <==> Was(held, name).Some?
    ensures forall name :: name in had ==> Was(held, name) == Some(had[name])
  {
    had := map[];
    for n := 0 to |held|
      invariant forall name :: name in had <==> Was(held[..n], name).Some?
      invariant forall name :: name in had ==> Was(held[..n], name) == Some(had[name])
    {
      assert held[..n + 1][..n] == held[..n];
      var name := Carries(held[n]);
      if name.Some? && IsText(name.value) {
        had := had[name.value.scalar.text := held[n]];
      }
    }
    assert held[..|held|] == held;
  }

  /** Collects faults as `Given` does, and one more for each id the held content lacks; empty iff `MayBeHandedBack`. */
  method HandedBack(declares: Declares, inside: Inside, before: Tree, node: Tree) returns (found: seq<Misnamed>)
    ensures found == [] <==> MayBeHandedBack(declares, inside, before, node)
    decreases node, 0
  {
    found := [];
    if !node.Mapping? {
      return;
    }
    for k := 0 to |node.entries|
      invariant found == [] <==> forall j :: 0 <= j < k ==>
        EntryMayBeHandedBack(declares, inside, Held(before, node.entries[j].key), node.entries[j])
    {
      var more := HandedBackIn(declares, inside, Held(before, node.entries[k].key), node.entries[k]);
      found := found + more;
    }
  }

  method HandedBackIn(declares: Declares, inside: Inside, held: seq<Tree>, e: Entry) returns (found: seq<Misnamed>)
    ensures found == [] <==> EntryMayBeHandedBack(declares, inside, held, e)
    decreases e, 0
  {
    found := [];
    if e.key !in declares || !e.value.List? {
      return;
    }
    var items, under := e.value.items, inside(declares[e.key]);
    var had := ByName(held);
    var seen := {};
    hide *;
    NoneHandedBack(declares, inside, held, items, e);
    for n := 0 to |items|
      invariant found == [] <==> HandedBackSoFar(under, inside, held, items, n)
      invariant found == [] ==> Seen(items, n, seen)
    {
      NextHandedBack(under, inside, held, items, n, seen);
      var more, after := ItemHandedBackIn(under, inside, held, had, e.key, n, items[n], seen);
      found, seen := found + more, after;
    }
  }

  ghost predicate HandedBackSoFar(declares: Declares, inside: Inside, held: seq<Tree>, items: seq<Tree>, n: nat)
    requires n <= |items|
  {
    ListGiven(items[..n]) && forall k :: 0 <= k < n ==> ItemMayBeHandedBack(declares, inside, held, items[k])
  }

  lemma NextHandedBack(declares: Declares, inside: Inside, held: seq<Tree>, items: seq<Tree>, n: nat, seen: set<string>)
    requires n < |items| && (HandedBackSoFar(declares, inside, held, items, n) ==> Seen(items, n, seen))
    ensures HandedBackSoFar(declares, inside, held, items, n + 1) <==>
      && HandedBackSoFar(declares, inside, held, items, n) && Fits(items[n], seen)
      && ItemMayBeHandedBack(declares, inside, held, items[n])
    ensures HandedBackSoFar(declares, inside, held, items, n + 1) ==> Seen(items, n + 1, SeenAfter(items[n], seen))
  {
    hide ListGiven, Fits, SeenAfter, Seen, ItemMayBeHandedBack;
    if HandedBackSoFar(declares, inside, held, items, n) {
      SeenNext(items, n, seen);
    }
    if HandedBackSoFar(declares, inside, held, items, n + 1) {
      NotGivenBefore(items, n);
    }
  }

  lemma NoneHandedBack(declares: Declares, inside: Inside, held: seq<Tree>, items: seq<Tree>, e: Entry)
    requires e.key in declares && e.value == List(items)
    ensures Seen(items, 0, {}) && HandedBackSoFar(inside(declares[e.key]), inside, held, items, 0)
    ensures HandedBackSoFar(inside(declares[e.key]), inside, held, items, |items|)
      <==> EntryMayBeHandedBack(declares, inside, held, e)
  {
    hide Carries, PlainName, Known, HeldAs, MayBeHandedBack;
    assert items[..|items|] == items;
  }

  /** The faults of one item handed back, its own and those inside it, and the names seen from here on. */
  method ItemHandedBackIn(declares: Declares, inside: Inside, held: seq<Tree>, had: map<string, Tree>,
                          collection: Scalar, index: nat, item: Tree, seen: set<string>)
    returns (found: seq<Misnamed>, seen': set<string>)
    requires forall name :: name in had <==> Was(held, name).Some?
    requires forall name :: name in had ==> Was(held, name) == Some(had[name])
    ensures found == [] <==> Fits(item, seen) && ItemMayBeHandedBack(declares, inside, held, item)
    ensures found == [] ==> seen' == SeenAfter(item, seen)
    decreases item, 1
  {
    found, seen' := [], seen;
    hide Carries, Names.Plain, Was;
    var name := Carries(item);
    var was := Mapping([]);
    if name.Some? {
      found, seen' := Unfit(collection, index, name.value, seen);
      if found == [] && name.value.scalar.text !in had {
        found := [Misnamed(collection, index, name.value, Unknown)];
      }
      if IsText(name.value) && name.value.scalar.text in had {
        was := had[name.value.scalar.text];
      }
    }
    var more := HandedBack(declares, inside, was, item);
    found := found + more;
  }

  predicate ItemMayBeHandedBack(declares: Declares, inside: Inside, held: seq<Tree>, item: Tree)
  {
    Known(held, item) && MayBeHandedBack(declares, inside, HeldAs(held, item), item)
  }
}
