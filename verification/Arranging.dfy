/** The order an artifact's entries are written in: those its type declares where the type has them, every other as it was
    held, at the top, in each section at every depth and in each item. */
module Arranging {
  import opened Iris
  import opened Content

  const ID := Str("id")
  const IDENTITY := [ID, Str("type"), Str("revision"), Str("title")]
  const SECTIONS := Str("sections")
  const SECTION := [Str("title"), Str("body"), SECTIONS]

  /** What a type declares: its fields, and its collections each with the fields of its items, in the order it has them. */
  datatype Declared = Declared(fields: seq<Scalar>, parts: seq<Scalar>, items: map<Scalar, seq<Scalar>>)

  // ---- lists of names

  /** A list with each name kept where it first stands. */
  function Deduped(s: seq<Scalar>): (r: seq<Scalar>)
    ensures Unrepeated(r) && forall x :: x in r <==> x in s
  {
    if s == [] then []
    else
      var rest, last := s[..|s| - 1], s[|s| - 1];
      assert s == rest + [last];
      if last in rest then Deduped(rest) else Deduped(rest) + [last]
  }

  function Among(s: seq<Scalar>, keep: set<Scalar>): (r: seq<Scalar>)
    ensures forall x :: x in r <==> x in s && x in keep
  {
    if s == [] then []
    else
      assert s == s[..|s| - 1] + [s[|s| - 1]];
      Among(s[..|s| - 1], keep) + if s[|s| - 1] in keep then [s[|s| - 1]] else []
  }

  function Outside(s: seq<Scalar>, leave: set<Scalar>): (r: seq<Scalar>)
    ensures forall x :: x in r <==> x in s && x !in leave
  {
    if s == [] then []
    else
      assert s == s[..|s| - 1] + [s[|s| - 1]];
      Outside(s[..|s| - 1], leave) + if s[|s| - 1] in leave then [] else [s[|s| - 1]]
  }

  function Set(s: seq<Scalar>): (all: set<Scalar>)
  {
    set x | x in s
  }

  lemma {:induction false} AmongUnrepeated(s: seq<Scalar>, keep: set<Scalar>)
    requires Unrepeated(s)
    ensures Unrepeated(Among(s, keep))
  {
    if s != [] {
      AmongUnrepeated(s[..|s| - 1], keep);
    }
  }

  lemma {:induction false} DedupedAlready(s: seq<Scalar>)
    requires Unrepeated(s)
    ensures Deduped(s) == s
  {
    if s != [] {
      DedupedAlready(s[..|s| - 1]);
      assert s == s[..|s| - 1] + [s[|s| - 1]];
    }
  }

  lemma {:induction false} AmongAll(s: seq<Scalar>, keep: set<Scalar>)
    requires forall x :: x in s ==> x in keep
    ensures Among(s, keep) == s
  {
    if s != [] {
      AmongAll(s[..|s| - 1], keep);
      assert s == s[..|s| - 1] + [s[|s| - 1]];
    }
  }

  lemma {:induction false} OutsideNone(s: seq<Scalar>, leave: set<Scalar>)
    requires forall x :: x in s ==> x in leave
    ensures Outside(s, leave) == []
  {
    if s != [] {
      OutsideNone(s[..|s| - 1], leave);
    }
  }

  lemma OutsideOneMore(s: seq<Scalar>, last: Scalar, leave: set<Scalar>)
    ensures Outside(s + [last], leave) == if last in leave then Outside(s, leave) else Outside(s, leave) + [last]
  {
    assert (s + [last])[..|s|] == s;
  }

  lemma AmongOneMore(s: seq<Scalar>, last: Scalar, keep: set<Scalar>)
    ensures Among(s + [last], keep) == if last in keep then Among(s, keep) + [last] else Among(s, keep)
  {
    assert (s + [last])[..|s|] == s;
  }

  lemma DedupedOneMore(s: seq<Scalar>, last: Scalar)
    ensures Deduped(s + [last]) == if last in s then Deduped(s) else Deduped(s) + [last]
  {
    assert (s + [last])[..|s|] == s;
  }

  lemma {:induction false} OutsideTwice(s: seq<Scalar>, leave: set<Scalar>)
    ensures Outside(Outside(s, leave), leave) == Outside(s, leave)
  {
    if s != [] {
      var rest, last := s[..|s| - 1], s[|s| - 1];
      assert s == rest + [last];
      hide Outside;
      OutsideTwice(rest, leave);
      OutsideOneMore(rest, last, leave);
      OutsideOneMore(Outside(rest, leave), last, leave);
    }
  }

  lemma {:induction false} OutsideBoth(a: seq<Scalar>, b: seq<Scalar>, leave: set<Scalar>)
    ensures Outside(a + b, leave) == Outside(a, leave) + Outside(b, leave)
  {
    if b == [] {
      assert a + b == a;
    } else {
      assert (a + b)[..|a + b| - 1] == a + b[..|b| - 1];
      OutsideBoth(a, b[..|b| - 1], leave);
    }
  }

  lemma {:induction false} OutsideOfDeduped(s: seq<Scalar>, leave: set<Scalar>)
    ensures Outside(Deduped(s), leave) == Deduped(Outside(s, leave))
  {
    if s != [] {
      var rest, last := s[..|s| - 1], s[|s| - 1];
      assert s == rest + [last];
      hide Outside, Deduped;
      OutsideOfDeduped(rest, leave);
      OutsideOneMore(rest, last, leave);
      DedupedOneMore(rest, last);
      OutsideOneMore(Deduped(rest), last, leave);
      DedupedOneMore(Outside(rest, leave), last);
    }
  }

  lemma {:induction false} OutsideOfAmong(s: seq<Scalar>, keep: set<Scalar>, leave: set<Scalar>)
    ensures Outside(Among(s, keep), leave) == Among(Outside(s, leave), keep)
  {
    if s != [] {
      var rest, last := s[..|s| - 1], s[|s| - 1];
      assert s == rest + [last];
      hide Outside, Among;
      OutsideOfAmong(rest, keep, leave);
      OutsideOneMore(rest, last, leave);
      AmongOneMore(rest, last, keep);
      OutsideOneMore(Among(rest, keep), last, leave);
      AmongOneMore(Outside(rest, leave), last, keep);
    }
  }

  lemma {:induction false} DedupedBehind(leading: seq<Scalar>, held: seq<Scalar>)
    ensures Deduped(leading + held) == Deduped(leading + Outside(held, Set(leading)))
  {
    if held != [] {
      var rest, last := held[..|held| - 1], held[|held| - 1];
      assert leading + held == (leading + rest) + [last] && held == rest + [last];
      assert leading + (Outside(rest, Set(leading)) + [last]) == (leading + Outside(rest, Set(leading))) + [last];
      hide Outside, Deduped;
      DedupedBehind(leading, rest);
      OutsideOneMore(rest, last, Set(leading));
      DedupedOneMore(leading + rest, last);
      DedupedOneMore(leading + Outside(rest, Set(leading)), last);
    }
  }

  // ---- one level

  /** The names of one level in the order they are written, the declared ones first and last, what else is held between
      them as it is held. */
  function Sequence(before: seq<Scalar>, after: seq<Scalar>, held: seq<Scalar>): (names: seq<Scalar>)
  {
    Deduped(before + Outside(held, Set(before + after)) + after)
  }

  /** The names of the top: the identity, the fields, what else it holds, its sections, its collections. */
  function TopSequence(d: Declared, held: seq<Scalar>): (names: seq<Scalar>)
  {
    var fields := Outside(d.fields, Set(IDENTITY));
    var others := Outside(held, Set(IDENTITY + fields + [SECTIONS] + d.parts));
    Deduped(IDENTITY + fields + others + [SECTIONS] + d.parts)
  }

  /** The names of an item, or of a section: the leading ones, then what else it holds. */
  function LeadSequence(leading: seq<Scalar>, held: seq<Scalar>): (names: seq<Scalar>)
  {
    Deduped(leading + held)
  }

  lemma TopIsALevel(d: Declared, held: seq<Scalar>)
    ensures TopSequence(d, held) == Sequence(IDENTITY + Outside(d.fields, Set(IDENTITY)), [SECTIONS] + d.parts, held)
  {
    var fields := Outside(d.fields, Set(IDENTITY));
    assert IDENTITY + fields + [SECTIONS] + d.parts == IDENTITY + fields + ([SECTIONS] + d.parts);
    var others := Outside(held, Set(IDENTITY + fields + [SECTIONS] + d.parts));
    assert IDENTITY + fields + others + [SECTIONS] + d.parts == IDENTITY + fields + others + ([SECTIONS] + d.parts);
  }

  lemma LeadIsALevel(leading: seq<Scalar>, held: seq<Scalar>)
    ensures LeadSequence(leading, held) == Sequence(leading, [], held)
  {
    DedupedBehind(leading, held);
    assert leading + [] == leading;
    var others := Outside(held, Set(leading));
    assert leading + others + [] == leading + others;
  }

  /** A level's entries in an order of names, those held. */
  function Arranged(entries: seq<Entry>, order: seq<Scalar>): (r: seq<Entry>)
  {
    if order == [] then []
    else
      var last := order[|order| - 1];
      Arranged(entries, order[..|order| - 1]) +
      match Get(entries, last)
      case Some(value) => [Entry(last, value)]
      case None => []
  }

  lemma KeysOfOneMore(entries: seq<Entry>, e: Entry)
    ensures Keys(entries + [e]) == Keys(entries) + [e.key]
  {
  }

  lemma {:induction false} KeysArranged(entries: seq<Entry>, order: seq<Scalar>)
    ensures Keys(Arranged(entries, order)) == Among(order, Set(Keys(entries)))
    ensures forall e :: e in Arranged(entries, order) ==> Get(entries, e.key) == Some(e.value)
  {
    if order != [] {
      var rest, last := order[..|order| - 1], order[|order| - 1];
      KeysArranged(entries, rest);
      if Get(entries, last).Some? {
        KeysOfOneMore(Arranged(entries, rest), Entry(last, Get(entries, last).value));
      }
    }
  }

  /** What arranging a level does to the names it holds. */
  function ArrangedKeys(before: seq<Scalar>, after: seq<Scalar>, held: seq<Scalar>): (names: seq<Scalar>)
  {
    Among(Sequence(before, after, held), Set(held))
  }

  lemma ArrangingKeepsKeys(before: seq<Scalar>, after: seq<Scalar>, held: seq<Scalar>)
    ensures Unrepeated(ArrangedKeys(before, after, held)) && Set(ArrangedKeys(before, after, held)) == Set(held)
  {
    AmongUnrepeated(Sequence(before, after, held), Set(held));
    var others := Outside(held, Set(before + after));
    forall x | x in held
      ensures x in ArrangedKeys(before, after, held)
    {
      assert x in before + others + after;
    }
  }

  /** What is not declared keeps its order. */
  lemma ArrangingKeepsOthers(before: seq<Scalar>, after: seq<Scalar>, held: seq<Scalar>)
    requires Unrepeated(held)
    ensures Outside(ArrangedKeys(before, after, held), Set(before + after)) == Outside(held, Set(before + after))
  {
    var declared := Set(before + after);
    var others := Outside(held, declared);
    OutsideOfAmong(Sequence(before, after, held), Set(held), declared);
    OutsideOfDeduped(before + others + after, declared);
    OutsideBoth(before + others, after, declared);
    OutsideBoth(before, others, declared);
    OutsideNone(before, declared);
    OutsideNone(after, declared);
    OutsideTwice(held, declared);
    assert [] + others + [] == others;
    OutsideUnrepeated(held, declared);
    DedupedAlready(others);
    AmongAll(others, Set(held));
  }

  lemma {:induction false} OutsideUnrepeated(s: seq<Scalar>, leave: set<Scalar>)
    requires Unrepeated(s)
    ensures Unrepeated(Outside(s, leave))
  {
    if s != [] {
      OutsideUnrepeated(s[..|s| - 1], leave);
    }
  }

  /** Arranged again, names stand as they stood. */
  lemma ArrangedOnce(before: seq<Scalar>, after: seq<Scalar>, held: seq<Scalar>)
    requires Unrepeated(held)
    ensures ArrangedKeys(before, after, ArrangedKeys(before, after, held)) == ArrangedKeys(before, after, held)
  {
    ArrangingKeepsKeys(before, after, held);
    ArrangingKeepsOthers(before, after, held);
  }

  // ---- a whole artifact

  /** An item in order; one that is no mapping as it was. */
  function ItemOrdered(item: Tree, fields: seq<Scalar>): (r: Tree)
  {
    if item.Mapping? then Mapping(Arranged(item.entries, LeadSequence([ID] + fields, Keys(item.entries)))) else item
  }

  function ItemsOrdered(value: Tree, fields: seq<Scalar>): (r: Tree)
  {
    if value.List? then
      List(seq(|value.items|, k requires 0 <= k < |value.items| => ItemOrdered(value.items[k], fields)))
    else value
  }

  /** A section's entry, the sections inside it in order. */
  function SectionEntry(e: Entry): (r: Entry)
    ensures r.key == e.key
    decreases e
  {
    if e.key == SECTIONS then Entry(e.key, SectionsOrdered(e.value)) else e
  }

  function SectionEntries(entries: seq<Entry>): (r: seq<Entry>)
    ensures Keys(r) == Keys(entries)
    decreases entries
  {
    seq(|entries|, k requires 0 <= k < |entries| => SectionEntry(entries[k]))
  }

  /** A section in order, and each section inside it; one that is no mapping as it was. */
  function SectionOrdered(section: Tree): (r: Tree)
    decreases section
  {
    if section.Mapping? then
      Mapping(Arranged(SectionEntries(section.entries), LeadSequence(SECTION, Keys(section.entries))))
    else section
  }

  function SectionsOrdered(value: Tree): (r: Tree)
    decreases value
  {
    if value.List? then List(seq(|value.items|, k requires 0 <= k < |value.items| => SectionOrdered(value.items[k])))
    else value
  }

  function ItemFields(d: Declared, collection: Scalar): seq<Scalar>
  {
    if collection in d.items then d.items[collection] else []
  }

  /** An entry of the top: a collection with its items in order, the sections in order, anything else as it was. */
  function TopEntry(d: Declared, e: Entry): (r: Entry)
    ensures r.key == e.key
  {
    if e.key in d.parts then Entry(e.key, ItemsOrdered(e.value, ItemFields(d, e.key))) else SectionEntry(e)
  }

  function TopEntries(d: Declared, entries: seq<Entry>): (r: seq<Entry>)
    ensures Keys(r) == Keys(entries)
  {
    seq(|entries|, k requires 0 <= k < |entries| => TopEntry(d, entries[k]))
  }

  /** The top entries put in the sequence of `TopSequence`, with each section and item inside ordered likewise. */
  function Ordered(d: Declared, entries: seq<Entry>): (r: seq<Entry>)
  {
    Arranged(TopEntries(d, entries), TopSequence(d, Keys(entries)))
  }

  // ---- what ordering keeps

  /** Whether two contents hold the same, but for the order mappings hold their entries in. */
  predicate SameEntries(t: Tree, u: Tree)
    decreases t
  {
    match t
    case Leaf(_) => u == t
    case List(items) => u.List? && |u.items| == |items| && forall k :: 0 <= k < |items| ==> SameEntries(items[k], u.items[k])
    case Mapping(entries) =>
      && u.Mapping? && Unrepeated(Keys(u.entries)) && Set(Keys(u.entries)) == Set(Keys(entries))
      && forall k :: 0 <= k < |entries| ==>
        Get(u.entries, entries[k].key).Some? && SameEntries(entries[k].value, Get(u.entries, entries[k].key).value)
  }

  lemma {:induction false} SameAsItself(t: Tree)
    requires Formed(t)
    ensures SameEntries(t, t)
  {
    match t
    case Leaf(_) =>
    case List(items) =>
      forall k | 0 <= k < |items|
        ensures SameEntries(items[k], items[k])
      {
        SameAsItself(items[k]);
      }
    case Mapping(entries) =>
      forall k | 0 <= k < |entries|
        ensures Get(entries, entries[k].key).Some? && SameEntries(entries[k].value, Get(entries, entries[k].key).value)
      {
        GetStands(entries, k);
        SameAsItself(entries[k].value);
      }
  }

  lemma {:induction false} GetBeside(entries: seq<Entry>, others: seq<Entry>, k: nat)
    requires Keys(entries) == Keys(others) && Unrepeated(Keys(entries)) && k < |entries|
    ensures |others| == |entries| && Get(others, entries[k].key) == Some(others[k].value)
  {
    assert |Keys(entries)| == |entries| && |Keys(others)| == |others|;
    assert Keys(entries)[k] == entries[k].key && Keys(others)[k] == others[k].key;
    GetStands(others, k);
  }

  /** A level arranged over entries whose values hold the same holds the same. */
  lemma ArrangedHoldsTheSame(entries: seq<Entry>, valued: seq<Entry>, before: seq<Scalar>, after: seq<Scalar>)
    requires Unrepeated(Keys(entries)) && Keys(valued) == Keys(entries) && |valued| == |entries|
    requires forall k :: 0 <= k < |entries| ==> SameEntries(entries[k].value, valued[k].value)
    ensures SameEntries(Mapping(entries), Mapping(Arranged(valued, Sequence(before, after, Keys(entries)))))
  {
    var arranged := Arranged(valued, Sequence(before, after, Keys(entries)));
    KeysArranged(valued, Sequence(before, after, Keys(entries)));
    ArrangingKeepsKeys(before, after, Keys(entries));
    forall k | 0 <= k < |entries|
      ensures Get(arranged, entries[k].key).Some?
      ensures SameEntries(entries[k].value, Get(arranged, entries[k].key).value)
    {
      GetBeside(entries, valued, k);
      assert Keys(entries)[k] == entries[k].key;
      assert entries[k].key in Set(Keys(arranged));
      var j :| 0 <= j < |arranged| && arranged[j] == Entry(entries[k].key, Get(arranged, entries[k].key).value);
      assert arranged[j] in arranged;
    }
  }

  lemma ItemHoldsTheSame(item: Tree, fields: seq<Scalar>)
    requires Formed(item)
    ensures SameEntries(item, ItemOrdered(item, fields))
  {
    if item.Mapping? {
      forall k | 0 <= k < |item.entries|
        ensures SameEntries(item.entries[k].value, item.entries[k].value)
      {
        SameAsItself(item.entries[k].value);
      }
      LeadIsALevel([ID] + fields, Keys(item.entries));
      ArrangedHoldsTheSame(item.entries, item.entries, [ID] + fields, []);
    } else {
      SameAsItself(item);
    }
  }

  lemma {:induction false} SectionHoldsTheSame(section: Tree)
    requires Formed(section)
    ensures SameEntries(section, SectionOrdered(section))
    decreases section
  {
    if section.Mapping? {
      var entries := section.entries;
      forall k | 0 <= k < |entries|
        ensures SameEntries(entries[k].value, SectionEntry(entries[k]).value)
      {
        SectionEntryHoldsTheSame(entries[k]);
      }
      LeadIsALevel(SECTION, Keys(entries));
      ArrangedHoldsTheSame(entries, SectionEntries(entries), SECTION, []);
    } else {
      SameAsItself(section);
    }
  }

  lemma {:induction false} SectionEntryHoldsTheSame(e: Entry)
    requires Formed(e.value)
    ensures SameEntries(e.value, SectionEntry(e).value)
    decreases e
  {
    if e.key == SECTIONS && e.value.List? {
      var items := e.value.items;
      forall k | 0 <= k < |items|
        ensures SameEntries(items[k], SectionOrdered(items[k]))
      {
        SectionHoldsTheSame(items[k]);
      }
    } else {
      SameAsItself(e.value);
    }
  }

  /** Ordering loses no entry and adds none: at the top, in every section at every depth, in every item, each key is
      held once with what it held. */
  lemma OrderingHoldsTheSame(d: Declared, entries: seq<Entry>)
    requires Formed(Mapping(entries))
    ensures SameEntries(Mapping(entries), Mapping(Ordered(d, entries)))
  {
    forall k | 0 <= k < |entries|
      ensures SameEntries(entries[k].value, TopEntry(d, entries[k]).value)
    {
      var value := entries[k].value;
      if entries[k].key in d.parts {
        if value.List? {
          forall j | 0 <= j < |value.items|
            ensures SameEntries(value.items[j], ItemOrdered(value.items[j], ItemFields(d, entries[k].key)))
          {
            ItemHoldsTheSame(value.items[j], ItemFields(d, entries[k].key));
          }
        } else {
          SameAsItself(value);
        }
      } else {
        SectionEntryHoldsTheSame(entries[k]);
      }
    }
    TopIsALevel(d, Keys(entries));
    ArrangedHoldsTheSame(
      entries, TopEntries(d, entries), IDENTITY + Outside(d.fields, Set(IDENTITY)), [SECTIONS] + d.parts);
  }

  /** What is declared nowhere at a level keeps, there, the order it was held in. */
  lemma OrderingKeepsOthers(d: Declared, entries: seq<Entry>, fields: seq<Scalar>)
    requires Unrepeated(Keys(entries))
    ensures var declared := Set(IDENTITY + Outside(d.fields, Set(IDENTITY)) + ([SECTIONS] + d.parts));
      Outside(Keys(Ordered(d, entries)), declared) == Outside(Keys(entries), declared)
    ensures Outside(Keys(ItemOrdered(Mapping(entries), fields).entries), Set([ID] + fields))
      == Outside(Keys(entries), Set([ID] + fields))
    ensures Outside(Keys(SectionOrdered(Mapping(entries)).entries), Set(SECTION)) == Outside(Keys(entries), Set(SECTION))
  {
    hide *;
    TopKeepsOthers(d, entries);
    LeadKeepsOthers(entries, entries, [ID] + fields);
    ItemIs(entries, fields);
    SectionIs(entries);
    LeadKeepsOthers(entries, SectionEntries(entries), SECTION);
  }

  lemma TopKeepsOthers(d: Declared, entries: seq<Entry>)
    requires Unrepeated(Keys(entries))
    ensures var declared := Set(IDENTITY + Outside(d.fields, Set(IDENTITY)) + ([SECTIONS] + d.parts));
      Outside(Keys(Ordered(d, entries)), declared) == Outside(Keys(entries), declared)
  {
    var held := Keys(entries);
    TopIsALevel(d, held);
    KeysArranged(TopEntries(d, entries), TopSequence(d, held));
    ArrangingKeepsOthers(IDENTITY + Outside(d.fields, Set(IDENTITY)), [SECTIONS] + d.parts, held);
  }

  lemma LeadKeepsOthers(entries: seq<Entry>, valued: seq<Entry>, leading: seq<Scalar>)
    requires Unrepeated(Keys(entries)) && Keys(valued) == Keys(entries)
    ensures Outside(Keys(Arranged(valued, LeadSequence(leading, Keys(entries)))), Set(leading))
      == Outside(Keys(entries), Set(leading))
  {
    var held := Keys(entries);
    LeadIsALevel(leading, held);
    KeysArranged(valued, LeadSequence(leading, held));
    ArrangingKeepsOthers(leading, [], held);
    assert leading + [] == leading;
  }

  lemma ItemIs(entries: seq<Entry>, fields: seq<Scalar>)
    ensures ItemOrdered(Mapping(entries), fields) == Mapping(Arranged(entries, LeadSequence([ID] + fields, Keys(entries))))
  {
  }

  lemma SectionIs(entries: seq<Entry>)
    ensures SectionOrdered(Mapping(entries))
      == Mapping(Arranged(SectionEntries(entries), LeadSequence(SECTION, Keys(entries))))
    ensures Keys(SectionEntries(entries)) == Keys(entries)
  {
  }

  // ---- ordered once

  lemma ArrangedAlready(entries: seq<Entry>, order: seq<Scalar>)
    requires Unrepeated(Keys(entries)) && Among(order, Set(Keys(entries))) == Keys(entries)
    ensures Arranged(entries, order) == entries
  {
    KeysArranged(entries, order);
    var arranged := Arranged(entries, order);
    assert |arranged| == |Keys(arranged)| == |Keys(entries)| == |entries|;
    forall k | 0 <= k < |entries|
      ensures arranged[k] == entries[k]
    {
      assert Keys(arranged)[k] == arranged[k].key && Keys(entries)[k] == entries[k].key;
      GetStands(entries, k);
      assert arranged[k] in arranged;
    }
  }

  /** A level arranged, its values then as they would be valued again, stays as it is. */
  lemma ArrangedAgain(valued: seq<Entry>, again: seq<Entry>, before: seq<Scalar>, after: seq<Scalar>)
    requires Unrepeated(Keys(valued)) && again == Arranged(valued, Sequence(before, after, Keys(valued)))
    ensures Arranged(again, Sequence(before, after, Keys(again))) == again
  {
    KeysArranged(valued, Sequence(before, after, Keys(valued)));
    ArrangingKeepsKeys(before, after, Keys(valued));
    ArrangedOnce(before, after, Keys(valued));
    ArrangedAlready(again, Sequence(before, after, Keys(again)));
  }

  lemma ItemOrderedOnce(item: Tree, fields: seq<Scalar>)
    requires Formed(item)
    ensures ItemOrdered(ItemOrdered(item, fields), fields) == ItemOrdered(item, fields)
  {
    if item.Mapping? {
      var again := ItemOrdered(item, fields).entries;
      LeadIsALevel([ID] + fields, Keys(item.entries));
      LeadIsALevel([ID] + fields, Keys(again));
      ArrangedAgain(item.entries, again, [ID] + fields, []);
    }
  }

  /** Every entry arranged is one of those arranged. */
  lemma ArrangedFrom(valued: seq<Entry>, order: seq<Scalar>, e: Entry) returns (k: nat)
    requires e in Arranged(valued, order)
    ensures k < |valued| && valued[k] == e
  {
    KeysArranged(valued, order);
    k :| 0 <= k < |valued| && valued[k] == Entry(e.key, Get(valued, e.key).value);
  }

  lemma {:induction false} SectionOrderedOnce(section: Tree)
    requires Formed(section)
    ensures SectionOrdered(SectionOrdered(section)) == SectionOrdered(section)
    decreases section
  {
    if section.Mapping? {
      var entries := section.entries;
      var valued, again := SectionEntries(entries), SectionOrdered(section).entries;
      LeadIsALevel(SECTION, Keys(entries));
      LeadIsALevel(SECTION, Keys(again));
      ArrangedAgain(valued, again, SECTION, []);
      forall j | 0 <= j < |again|
        ensures SectionEntry(again[j]) == again[j]
      {
        var k := ArrangedFrom(valued, LeadSequence(SECTION, Keys(entries)), again[j]);
        SectionEntryOnce(entries[k]);
      }
      assert SectionEntries(again) == again;
    }
  }

  lemma {:induction false} SectionEntryOnce(e: Entry)
    requires Formed(e.value)
    ensures SectionEntry(SectionEntry(e)) == SectionEntry(e)
    decreases e
  {
    if e.key == SECTIONS && e.value.List? {
      var items := e.value.items;
      forall k | 0 <= k < |items|
        ensures SectionOrdered(SectionOrdered(items[k])) == SectionOrdered(items[k])
      {
        SectionOrderedOnce(items[k]);
      }
    }
  }

  lemma TopEntryOnce(d: Declared, e: Entry)
    requires Formed(e.value)
    ensures TopEntry(d, TopEntry(d, e)) == TopEntry(d, e)
  {
    if e.key in d.parts {
      if e.value.List? {
        var items, fields := e.value.items, ItemFields(d, e.key);
        forall k | 0 <= k < |items|
          ensures ItemOrdered(ItemOrdered(items[k], fields), fields) == ItemOrdered(items[k], fields)
        {
          ItemOrderedOnce(items[k], fields);
        }
      }
    } else {
      SectionEntryOnce(e);
    }
  }

  /** What is in order once stays so: ordered again, an artifact's entries stand as they stood. */
  lemma OrderedOnce(d: Declared, entries: seq<Entry>)
    requires Formed(Mapping(entries))
    ensures Ordered(d, Ordered(d, entries)) == Ordered(d, entries)
  {
    var valued, again := TopEntries(d, entries), Ordered(d, entries);
    var before, after := IDENTITY + Outside(d.fields, Set(IDENTITY)), [SECTIONS] + d.parts;
    TopIsALevel(d, Keys(entries));
    TopIsALevel(d, Keys(again));
    ArrangedAgain(valued, again, before, after);
    forall j | 0 <= j < |again|
      ensures TopEntry(d, again[j]) == again[j]
    {
      var k := ArrangedFrom(valued, TopSequence(d, Keys(entries)), again[j]);
      TopEntryOnce(d, entries[k]);
    }
    assert TopEntries(d, again) == again;
  }

  // ---- as it is put together, a copy of the top arranged and then set entry by entry

  lemma {:induction false} SetWhereItStands(entries: seq<Entry>, k: nat, value: Tree)
    requires Unrepeated(Keys(entries)) && k < |entries|
    ensures Content.Set(entries, entries[k].key, value) == entries[k := Entry(entries[k].key, value)]
    decreases |entries|
  {
    assert Keys(entries)[k] == entries[k].key && Keys(entries)[0] == entries[0].key;
    if k > 0 {
      var rest := entries[1..];
      assert forall j :: 0 <= j < |rest| ==> Keys(rest)[j] == Keys(entries)[j + 1];
      SetWhereItStands(rest, k - 1, value);
      assert [entries[0]] + rest[k - 1 := Entry(entries[k].key, value)] == entries[k := Entry(entries[k].key, value)];
    } else {
      assert [Entry(entries[0].key, value)] + entries[1..] == entries[0 := Entry(entries[0].key, value)];
    }
  }

  lemma SetAfterArranging(valued: seq<Entry>, order: seq<Scalar>, i: nat, value: Tree)
    requires Unrepeated(Keys(valued)) && Unrepeated(order) && i < |valued| && valued[i].key in order
    ensures Content.Set(Arranged(valued, order), valued[i].key, value)
      == Arranged(valued[i := Entry(valued[i].key, value)], order)
  {
    var key := valued[i].key;
    var more := valued[i := Entry(key, value)];
    assert Keys(more) == Keys(valued) && Keys(valued)[i] == key;
    var a, b := Arranged(valued, order), Arranged(more, order);
    KeysArranged(valued, order);
    KeysArranged(more, order);
    AmongUnrepeated(order, Set(Keys(valued)));
    assert key in Keys(a);
    var j :| 0 <= j < |Keys(a)| && Keys(a)[j] == key;
    SetWhereItStands(a, j, value);
    GetStands(more, i);
    forall k | 0 <= k < |a|
      ensures b[k] == a[j := Entry(key, value)][k]
    {
      assert Keys(a)[k] == a[k].key && Keys(b)[k] == b[k].key && |Keys(a)| == |a| && |Keys(b)| == |b|;
      assert a[k] in a && b[k] in b;
      if k != j {
        var m :| 0 <= m < |valued| && valued[m] == Entry(a[k].key, Get(valued, a[k].key).value);
        assert m != i && more[m] == valued[m];
        GetStands(more, m);
      }
    }
    assert |a| == |Keys(a)| == |Keys(b)| == |b|;
  }

  lemma HeldStandsInOrder(d: Declared, held: seq<Scalar>, key: Scalar)
    requires key == SECTIONS || key in d.parts
    ensures Unrepeated(TopSequence(d, held)) && key in TopSequence(d, held)
  {
  }

  /** The top's entries with the sections, and the first of the collections, set in order. */
  function Partly(d: Declared, entries: seq<Entry>, sections: bool, n: nat): (r: seq<Entry>)
    requires n <= |d.parts|
    ensures Keys(r) == Keys(entries)
  {
    seq(|entries|, k requires 0 <= k < |entries| =>
      if entries[k].key in d.parts[..n] then TopEntry(d, entries[k])
      else if sections then SectionEntry(entries[k]) else entries[k])
  }

  lemma PartlySet(d: Declared, entries: seq<Entry>, n: nat, i: nat)
    requires Unrepeated(Keys(entries)) && Unrepeated(d.parts) && n < |d.parts|
    requires i < |entries| && entries[i].key == d.parts[n]
    ensures Partly(d, entries, true, n)[i := TopEntry(d, entries[i])] == Partly(d, entries, true, n + 1)
  {
    assert d.parts[..n + 1] == d.parts[..n] + [d.parts[n]];
    forall k | 0 <= k < |entries| && k != i
      ensures entries[k].key != d.parts[n]
    {
      assert Keys(entries)[k] != Keys(entries)[i];
    }
  }

  lemma SectionsSet(d: Declared, entries: seq<Entry>)
    requires Unrepeated(Keys(entries))
    ensures var order, sections := TopSequence(d, Keys(entries)), Get(entries, SECTIONS);
      Arranged(Partly(d, entries, true, 0), order) ==
        if sections.None? then Arranged(entries, order)
        else Content.Set(Arranged(entries, order), SECTIONS, SectionsOrdered(sections.value))
  {
    var order, sections := TopSequence(d, Keys(entries)), Get(entries, SECTIONS);
    if sections.Some? {
      var i :| 0 <= i < |entries| && entries[i] == Entry(SECTIONS, sections.value);
      HeldStandsInOrder(d, Keys(entries), SECTIONS);
      SetAfterArranging(entries, order, i, SectionsOrdered(sections.value));
      OthersAreNoSections(entries, i);
      assert Partly(d, entries, true, 0) == entries[i := SectionEntry(entries[i])];
    } else {
      NoneIsSections(entries);
      assert Partly(d, entries, true, 0) == entries;
    }
  }

  lemma PartSet(d: Declared, entries: seq<Entry>, n: nat)
    requires Unrepeated(Keys(entries)) && Unrepeated(d.parts) && n < |d.parts|
    ensures var order, held := TopSequence(d, Keys(entries)), Get(entries, d.parts[n]);
      Arranged(Partly(d, entries, true, n + 1), order) ==
        if held.None? then Arranged(Partly(d, entries, true, n), order)
        else Content.Set(
          Arranged(Partly(d, entries, true, n), order), d.parts[n], ItemsOrdered(held.value, ItemFields(d, d.parts[n])))
  {
    var order, name := TopSequence(d, Keys(entries)), d.parts[n];
    var held := Get(entries, name);
    if held.Some? {
      var i :| 0 <= i < |entries| && entries[i] == Entry(name, held.value);
      HeldStandsInOrder(d, Keys(entries), name);
      SetAfterArranging(Partly(d, entries, true, n), order, i, ItemsOrdered(held.value, ItemFields(d, name)));
      PartlySet(d, entries, n, i);
    } else {
      NotHeldIsNotSet(d, entries, n);
    }
  }

  lemma AllSet(d: Declared, entries: seq<Entry>)
    ensures Arranged(Partly(d, entries, true, |d.parts|), TopSequence(d, Keys(entries))) == Ordered(d, entries)
  {
    assert d.parts[..|d.parts|] == d.parts;
    assert Partly(d, entries, true, |d.parts|) == TopEntries(d, entries);
  }

  /** The entries ordered as they are put together: the top arranged, its sections set in order, and then each collection
      it holds. */
  method Order(d: Declared, entries: seq<Entry>) returns (ordered: seq<Entry>)
    requires Unrepeated(Keys(entries)) && Unrepeated(d.parts)
    ensures ordered == Ordered(d, entries)
  {
    hide *;
    var order := TopSequence(d, Keys(entries));
    ordered := Arranged(entries, order);
    var sections := Get(entries, SECTIONS);
    SectionsSet(d, entries);
    if sections.Some? {
      ordered := Content.Set(ordered, SECTIONS, SectionsOrdered(sections.value));
    }
    for n := 0 to |d.parts|
      invariant ordered == Arranged(Partly(d, entries, true, n), order)
    {
      var held := Get(entries, d.parts[n]);
      PartSet(d, entries, n);
      if held.Some? {
        ordered := Content.Set(ordered, d.parts[n], ItemsOrdered(held.value, ItemFields(d, d.parts[n])));
      }
    }
    AllSet(d, entries);
  }

  lemma OthersAreNoSections(entries: seq<Entry>, i: nat)
    requires Unrepeated(Keys(entries)) && i < |entries| && entries[i].key == SECTIONS
    ensures forall k :: 0 <= k < |entries| && k != i ==> entries[k].key != SECTIONS
  {
    assert forall k :: 0 <= k < |entries| ==> Keys(entries)[k] == entries[k].key;
  }

  lemma NoneIsSections(entries: seq<Entry>)
    requires SECTIONS !in Keys(entries)
    ensures forall k :: 0 <= k < |entries| ==> entries[k].key != SECTIONS
  {
    assert forall k :: 0 <= k < |entries| ==> Keys(entries)[k] == entries[k].key;
  }

  lemma NotHeldIsNotSet(d: Declared, entries: seq<Entry>, n: nat)
    requires n < |d.parts| && d.parts[n] !in Keys(entries)
    ensures Partly(d, entries, true, n) == Partly(d, entries, true, n + 1)
  {
    assert d.parts[..n + 1] == d.parts[..n] + [d.parts[n]];
    assert forall k :: 0 <= k < |entries| ==> Keys(entries)[k] == entries[k].key;
  }
}
