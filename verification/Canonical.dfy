/** Where each entry stands once an artifact is in order, read off the names alone: of any two names a level holds, which
    is written first, at the top, in an item and in a section at every depth. */
module Canonical {
  import opened Iris
  import opened Content
  import opened Arranging

  /** Whether a name stands in a list before another first does, if that one does at all. */
  ghost predicate Ahead(s: seq<Scalar>, a: Scalar, b: Scalar)
  {
    exists j :: AheadAt(s, a, b, j)
  }

  predicate AheadAt(s: seq<Scalar>, a: Scalar, b: Scalar, j: int)
  {
    0 <= j < |s| && s[j] == a && b !in s[..j + 1]
  }

  // ---- which of two names is written first

  /** The part of the top a name belongs to, by the first of these that has it: the keys naming the artifact, the fields,
      the sections, the collections; and what is declared nowhere, written between the fields and the sections. */
  function Part(d: Declared, name: Scalar): nat
  {
    if name in [Str("id"), Str("type"), Str("revision"), Str("title")] then 0
    else if name in d.fields then 1
    else if name == Str("sections") then 3
    else if name in d.parts then 4
    else 2
  }

  /** Whether the top has one name before another: by the part each belongs to, and in one part as that part has them,
      what is declared nowhere as it was held. */
  ghost predicate TopFirst(d: Declared, held: seq<Scalar>, a: Scalar, b: Scalar)
  {
    && Part(d, a) <= Part(d, b)
    && (Part(d, a) == Part(d, b) ==>
         match Part(d, a)
         case 0 => Ahead([Str("id"), Str("type"), Str("revision"), Str("title")], a, b)
         case 1 => Ahead(d.fields, a, b)
         case 2 => Ahead(held, a, b)
         case 3 => a == b
         case _ => Ahead(d.parts, a, b))
  }

  /** Whether an item has one name before another: its id before all, then its fields as declared, then the rest as it
      was held. */
  ghost predicate ItemFirst(fields: seq<Scalar>, held: seq<Scalar>, a: Scalar, b: Scalar)
  {
    && b != Str("id")
    && (a != Str("id") ==> if a in fields || b in fields then Ahead(fields, a, b) else Ahead(held, a, b))
  }

  /** Whether a section has one name before another: its title, its body and its sections before all, in that order, then
      the rest as it was held. */
  ghost predicate SectionFirst(held: seq<Scalar>, a: Scalar, b: Scalar)
  {
    var leading := [Str("title"), Str("body"), Str("sections")];
    if a in leading || b in leading then Ahead(leading, a, b) else Ahead(held, a, b)
  }

  // ---- whole levels

  /** Whether a level holds what it held, each name once. */
  ghost predicate HoldsTheNames(was: seq<Entry>, now: seq<Entry>)
  {
    Unrepeated(Keys(now)) && forall name :: name in Keys(now) <==> name in Keys(was)
  }

  ghost predicate ItemStands(fields: seq<Scalar>, was: Tree, now: Tree)
  {
    was.Mapping? ==>
      && now.Mapping? && HoldsTheNames(was.entries, now.entries)
      && forall j, k :: 0 <= j < k < |now.entries| ==>
           ItemFirst(fields, Keys(was.entries), now.entries[j].key, now.entries[k].key)
  }

  ghost predicate ItemsStand(fields: seq<Scalar>, was: Tree, now: Tree)
  {
    was.List? ==>
      && now.List? && |now.items| == |was.items|
      && forall k :: 0 <= k < |was.items| ==> ItemStands(fields, was.items[k], now.items[k])
  }

  /** Whether a section's names stand in order, and those of each section inside it, at every depth. */
  ghost predicate SectionStands(was: Tree, now: Tree)
    decreases was, 1
  {
    was.Mapping? ==>
      && now.Mapping? && HoldsTheNames(was.entries, now.entries)
      && (forall j, k :: 0 <= j < k < |now.entries| ==>
           SectionFirst(Keys(was.entries), now.entries[j].key, now.entries[k].key))
      && forall j, k :: 0 <= j < |was.entries| && 0 <= k < |now.entries| ==>
           SectionInside(was.entries[j], now.entries[k])
  }

  ghost predicate SectionInside(was: Entry, now: Entry)
    decreases was, 0
  {
    was.key == now.key == Str("sections") ==> SectionsStand(was.value, now.value)
  }

  ghost predicate SectionsStand(was: Tree, now: Tree)
    decreases was, 0
  {
    was.List? ==>
      && now.List? && |now.items| == |was.items|
      && forall k :: 0 <= k < |was.items| ==> SectionStands(was.items[k], now.items[k])
  }

  /** Whether an artifact's entries stand as its type declares them, its collections' items and its sections within. */
  ghost predicate TopStands(d: Declared, was: seq<Entry>, now: seq<Entry>)
  {
    && HoldsTheNames(was, now)
    && (forall j, k :: 0 <= j < k < |now| ==> TopFirst(d, Keys(was), now[j].key, now[k].key))
    && forall j, k :: 0 <= j < |was| && 0 <= k < |now| && was[j].key == now[k].key ==>
         EntryStands(d, was[j].key, was[j].value, now[k].value)
  }

  ghost predicate EntryStands(d: Declared, name: Scalar, was: Tree, now: Tree)
  {
    if name in d.parts then ItemsStand(if name in d.items then d.items[name] else [], was, now)
    else name == Str("sections") ==> SectionsStand(was, now)
  }

  // ---- lists

  lemma AheadOfBoth(one: seq<Scalar>, other: seq<Scalar>, a: Scalar, b: Scalar)
    requires Ahead(one + other, a, b)
    ensures if a in one || b in one then Ahead(one, a, b) else Ahead(other, a, b)
  {
    var s := one + other;
    var j :| AheadAt(s, a, b, j);
    if j < |one| {
      assert s[..j + 1] == one[..j + 1];
      assert AheadAt(one, a, b, j);
    } else {
      assert s[..j + 1] == one + other[..j + 1 - |one|];
      if a in one {
        var i :| 0 <= i < |one| && one[i] == a;
        assert AheadAt(one, a, b, i);
      } else {
        assert AheadAt(other, a, b, j - |one|);
      }
    }
  }

  lemma AheadWithMore(s: seq<Scalar>, last: Scalar, a: Scalar, b: Scalar)
    requires Ahead(s, a, b)
    ensures Ahead(s + [last], a, b)
  {
    var j :| AheadAt(s, a, b, j);
    assert (s + [last])[..j + 1] == s[..j + 1];
    assert AheadAt(s + [last], a, b, j);
  }

  lemma AheadAtTheEnd(s: seq<Scalar>, a: Scalar, b: Scalar)
    requires a != b && b !in s
    ensures Ahead(s + [a], a, b)
  {
    assert (s + [a])[..|s| + 1] == s + [a];
    assert AheadAt(s + [a], a, b, |s|);
  }

  lemma NotAheadOfOneBefore(s: seq<Scalar>, a: Scalar, b: Scalar)
    requires Ahead(s, a, b)
    ensures a in s && a != b
  {
    var j :| AheadAt(s, a, b, j);
    assert s[..j + 1][j] == a;
  }

  /** What a list has ahead among those left, the whole list has ahead. */
  lemma {:induction false} AheadOutside(s: seq<Scalar>, leave: set<Scalar>, a: Scalar, b: Scalar)
    requires Ahead(Outside(s, leave), a, b) && b !in leave
    ensures Ahead(s, a, b)
    decreases |s|
  {
    NotAheadOfOneBefore(Outside(s, leave), a, b);
    hide Ahead, Outside;
    var rest, last := s[..|s| - 1], s[|s| - 1];
    assert s == rest + [last];
    OutsideOneMore(rest, last, leave);
    if last in leave {
      AheadOutside(rest, leave, a, b);
      AheadWithMore(rest, last, a, b);
    } else {
      AheadOfBoth(Outside(rest, leave), [last], a, b);
      if a in Outside(rest, leave) || b in Outside(rest, leave) {
        AheadOutside(rest, leave, a, b);
        AheadWithMore(rest, last, a, b);
      } else {
        assert last == a by {
          NotAheadOfOneBefore([last], a, b);
        }
        AheadAtTheEnd(rest, a, b);
      }
    }
  }

  /** Each name once, in the order a list first has them. */
  lemma {:induction false} DedupedInOrder(s: seq<Scalar>, j: nat, k: nat)
    requires j < k < |Deduped(s)|
    ensures Ahead(s, Deduped(s)[j], Deduped(s)[k])
    decreases |s|
  {
    var rest, last := s[..|s| - 1], s[|s| - 1];
    assert s == rest + [last];
    DedupedOneMore(rest, last);
    var a, b := Deduped(s)[j], Deduped(s)[k];
    hide Ahead, Deduped;
    if k < |Deduped(rest)| {
      DedupedInOrder(rest, j, k);
      AheadWithMore(rest, last, a, b);
    } else {
      assert b == last && a == Deduped(rest)[j] && a in rest;
      AheadOfWhatIsNotThere(rest, a, b);
      AheadWithMore(rest, last, a, b);
    }
  }

  lemma AheadOfWhatIsNotThere(s: seq<Scalar>, a: Scalar, b: Scalar)
    requires a in s && b !in s
    ensures Ahead(s, a, b)
  {
    var j :| 0 <= j < |s| && s[j] == a;
    assert AheadAt(s, a, b, j);
  }

  /** Of a list of names, those kept stand in its order. */
  lemma {:induction false} AmongInOrder(s: seq<Scalar>, keep: set<Scalar>, j: nat, k: nat) returns (m: nat, n: nat)
    requires j < k < |Among(s, keep)|
    ensures m < n < |s| && s[m] == Among(s, keep)[j] && s[n] == Among(s, keep)[k]
    decreases |s|
  {
    var rest, last := s[..|s| - 1], s[|s| - 1];
    assert s == rest + [last];
    AmongOneMore(rest, last, keep);
    var a := Among(s, keep)[j];
    hide Among;
    if k < |Among(rest, keep)| {
      m, n := AmongInOrder(rest, keep, j, k);
    } else {
      assert a == Among(rest, keep)[j] && a in rest;
      m :| 0 <= m < |rest| && rest[m] == a;
      n := |rest|;
    }
  }

  /** Names arranged by a list stand in the order it first has them. */
  lemma ArrangedInOrder(valued: seq<Entry>, listed: seq<Scalar>, j: nat, k: nat)
    requires j < k < |Arranged(valued, Deduped(listed))|
    ensures var r := Arranged(valued, Deduped(listed)); Ahead(listed, r[j].key, r[k].key)
  {
    hide *;
    var order, held := Deduped(listed), Arranging.Set(Keys(valued));
    KeysArranged(valued, order);
    KeysAre(Arranged(valued, order), j);
    KeysAre(Arranged(valued, order), k);
    var m, n := AmongInOrder(order, held, j, k);
    DedupedInOrder(listed, m, n);
  }

  lemma KeysAre(entries: seq<Entry>, k: nat)
    requires k < |entries|
    ensures |Keys(entries)| == |entries| && Keys(entries)[k] == entries[k].key
  {
  }

  lemma ArrangedHoldsTheNames(was: seq<Entry>, valued: seq<Entry>, listed: seq<Scalar>)
    requires Keys(valued) == Keys(was) && forall name :: name in Keys(was) ==> name in listed
    ensures HoldsTheNames(was, Arranged(valued, Deduped(listed)))
  {
    hide Arranged, Deduped, Among;
    KeysArranged(valued, Deduped(listed));
    AmongUnrepeated(Deduped(listed), Arranging.Set(Keys(valued)));
  }

  // ---- each level

  /** The top's names, before one that is repeated is left out. */
  function TopListed(d: Declared, held: seq<Scalar>): (listed: seq<Scalar>)
    ensures Deduped(listed) == TopSequence(d, held)
    ensures forall name :: name in held ==> name in listed
  {
    var fields := Outside(d.fields, Arranging.Set(IDENTITY));
    IDENTITY + fields + Outside(held, Arranging.Set(IDENTITY + fields + [SECTIONS] + d.parts)) + [SECTIONS] + d.parts
  }

  /** The top's names after the identity and the fields. */
  function RestListed(d: Declared, held: seq<Scalar>): (listed: seq<Scalar>)
  {
    Outside(held, Arranging.Set(IDENTITY + Outside(d.fields, Arranging.Set(IDENTITY)) + [SECTIONS] + d.parts)) +
    ([SECTIONS] + d.parts)
  }

  lemma TopListedIs(d: Declared, held: seq<Scalar>)
    ensures TopListed(d, held) == IDENTITY + (Outside(d.fields, Arranging.Set(IDENTITY)) + RestListed(d, held))
  {
    hide Outside, Deduped;
  }

  lemma TopListedHas(d: Declared, held: seq<Scalar>, a: Scalar, b: Scalar)
    requires Ahead(TopListed(d, held), a, b) && b in TopListed(d, held)
    ensures TopFirst(d, held, a, b)
  {
    var fields, rest := Outside(d.fields, Arranging.Set(IDENTITY)), RestListed(d, held);
    TopListedIs(d, held);
    hide Ahead, Outside, Deduped, RestListed, TopListed;
    NotAheadOfOneBefore(IDENTITY + (fields + rest), a, b);
    AheadOfBoth(IDENTITY, fields + rest, a, b);
    if a in IDENTITY || b in IDENTITY {
      NotAheadOfOneBefore(IDENTITY, a, b);
    } else {
      AheadOfBoth(fields, rest, a, b);
      if a in fields || b in fields {
        NotAheadOfOneBefore(fields, a, b);
        if b in fields {
          AheadOutside(d.fields, Arranging.Set(IDENTITY), a, b);
        }
      } else {
        TopRestHas(d, held, a, b);
      }
    }
  }

  lemma TopRestHas(d: Declared, held: seq<Scalar>, a: Scalar, b: Scalar)
    requires Part(d, a) > 1 && Part(d, b) > 1
    requires Ahead(RestListed(d, held), a, b) && b in RestListed(d, held)
    ensures TopFirst(d, held, a, b)
  {
    var declared := Arranging.Set(IDENTITY + Outside(d.fields, Arranging.Set(IDENTITY)) + [SECTIONS] + d.parts);
    var others := Outside(held, declared);
    hide Ahead, Outside;
    NotAheadOfOneBefore(others + ([SECTIONS] + d.parts), a, b);
    AheadOfBoth(others, [SECTIONS] + d.parts, a, b);
    if a in others || b in others {
      NotAheadOfOneBefore(others, a, b);
      if Part(d, b) == 2 {
        AheadOutside(held, declared, a, b);
      }
    } else {
      AheadOfBoth([SECTIONS], d.parts, a, b);
      if a == SECTIONS || b == SECTIONS {
        NotAheadOfOneBefore([SECTIONS], a, b);
      } else {
        NotAheadOfOneBefore(d.parts, a, b);
      }
    }
  }

  lemma ItemListedHas(fields: seq<Scalar>, held: seq<Scalar>, a: Scalar, b: Scalar)
    requires Ahead([ID] + fields + held, a, b)
    ensures ItemFirst(fields, held, a, b)
  {
    assert [ID] + fields + held == [ID] + (fields + held);
    hide Ahead;
    AheadOfBoth([ID], fields + held, a, b);
    if a == ID || b == ID {
      NotAheadOfOneBefore([ID], a, b);
    } else {
      AheadOfBoth(fields, held, a, b);
    }
  }

  lemma ItemIsInOrder(item: Tree, fields: seq<Scalar>)
    ensures ItemStands(fields, item, ItemOrdered(item, fields))
  {
    if item.Mapping? {
      var entries := item.entries;
      var held := Keys(entries);
      var listed := [ID] + fields + held;
      var now := Arranged(entries, Deduped(listed));
      assert ItemOrdered(item, fields) == Mapping(now);
      hide Arranged, Deduped, ItemFirst, HoldsTheNames;
      ArrangedHoldsTheNames(entries, entries, listed);
      forall j, k | 0 <= j < k < |now|
        ensures ItemFirst(fields, held, now[j].key, now[k].key)
      {
        ArrangedInOrder(entries, listed, j, k);
        ItemListedHas(fields, held, now[j].key, now[k].key);
      }
    }
  }

  lemma ItemsAreInOrder(value: Tree, fields: seq<Scalar>)
    ensures ItemsStand(fields, value, ItemsOrdered(value, fields))
  {
    hide ItemStands, ItemOrdered;
    if value.List? {
      forall k | 0 <= k < |value.items|
        ensures ItemStands(fields, value.items[k], ItemOrdered(value.items[k], fields))
      {
        ItemIsInOrder(value.items[k], fields);
      }
    }
  }

  /** In a mapping holding each key once, what is arranged under a key is what is held under it. */
  lemma ArrangedValue(valued: seq<Entry>, order: seq<Scalar>, j: nat, k: nat)
    requires Unrepeated(Keys(valued)) && j < |valued| && k < |Arranged(valued, order)|
    requires Arranged(valued, order)[k].key == valued[j].key
    ensures Arranged(valued, order)[k] == valued[j]
  {
    KeysArranged(valued, order);
    GetStands(valued, j);
    assert Arranged(valued, order)[k] in Arranged(valued, order);
  }

  lemma SectionListedHas(held: seq<Scalar>, a: Scalar, b: Scalar)
    requires Ahead(SECTION + held, a, b)
    ensures SectionFirst(held, a, b)
  {
    hide Ahead;
    AheadOfBoth(SECTION, held, a, b);
  }

  lemma {:induction false} SectionIsInOrder(section: Tree)
    requires Formed(section)
    ensures SectionStands(section, SectionOrdered(section))
    decreases section, 1
  {
    if section.Mapping? {
      var entries, valued := section.entries, SectionEntries(section.entries);
      var held, listed := Keys(entries), SECTION + Keys(entries);
      var now := Arranged(valued, Deduped(listed));
      assert SectionOrdered(section) == Mapping(now);
      hide Arranged, Deduped, SectionFirst, HoldsTheNames, SectionInside, SectionEntry;
      ArrangedHoldsTheNames(entries, valued, listed);
      forall j, k | 0 <= j < k < |now|
        ensures SectionFirst(held, now[j].key, now[k].key)
      {
        ArrangedInOrder(valued, listed, j, k);
        SectionListedHas(held, now[j].key, now[k].key);
      }
      forall j, k | 0 <= j < |entries| && 0 <= k < |now|
        ensures SectionInside(entries[j], now[k])
      {
        if entries[j].key == now[k].key {
          ArrangedValue(valued, Deduped(listed), j, k);
          SectionEntryIsInOrder(entries[j]);
        } else {
          NotInside(entries[j], now[k]);
        }
      }
    }
  }

  lemma NotInside(was: Entry, now: Entry)
    requires was.key != now.key
    ensures SectionInside(was, now)
  {
  }

  lemma {:induction false} SectionEntryIsInOrder(e: Entry)
    requires Formed(e.value)
    ensures SectionInside(e, SectionEntry(e))
    decreases e, 0
  {
    if e.key == SECTIONS {
      SectionsAreInOrder(e.value);
    }
  }

  lemma {:induction false} SectionsAreInOrder(value: Tree)
    requires Formed(value)
    ensures SectionsStand(value, SectionsOrdered(value))
    decreases value, 0
  {
    hide SectionStands, SectionOrdered;
    if value.List? {
      forall k | 0 <= k < |value.items|
        ensures SectionStands(value.items[k], SectionOrdered(value.items[k]))
      {
        SectionIsInOrder(value.items[k]);
      }
    }
  }

  lemma TopEntryIsInOrder(d: Declared, e: Entry)
    requires Formed(e.value)
    ensures EntryStands(d, e.key, e.value, TopEntry(d, e).value)
  {
    hide ItemsStand, SectionsStand;
    if e.key in d.parts {
      ItemsAreInOrder(e.value, ItemFields(d, e.key));
    } else if e.key == SECTIONS {
      SectionsAreInOrder(e.value);
    }
  }

  lemma NamesAreListed(now: seq<Entry>, listed: seq<Scalar>, k: nat)
    requires k < |now| && forall name :: name in Keys(now) ==> name in listed
    ensures now[k].key in listed
  {
    assert Keys(now)[k] == now[k].key;
  }

  /** Put in order, an artifact holds the names it held, each where its type has it: first `id`, `type`, `revision` and
      `title`, then the fields as declared, then what is declared nowhere as it was held, then `sections`, then the
      collections as declared. An item has its `id` and then its fields first, a section its `title`, its `body` and its
      `sections`, at every depth. */
  lemma OrderedStandsAsDeclared(d: Declared, entries: seq<Entry>)
    requires Formed(Mapping(entries))
    ensures TopStands(d, entries, Ordered(d, entries))
  {
    var valued, held := TopEntries(d, entries), Keys(entries);
    var listed := TopListed(d, held);
    var now := Arranged(valued, Deduped(listed));
    assert Ordered(d, entries) == now;
    KeysArranged(valued, Deduped(listed));
    hide Arranged, Deduped, TopFirst, HoldsTheNames, EntryStands, TopEntry, TopListed;
    ArrangedHoldsTheNames(entries, valued, listed);
    forall j, k | 0 <= j < k < |now|
      ensures TopFirst(d, held, now[j].key, now[k].key)
    {
      ArrangedInOrder(valued, listed, j, k);
      TopListedHas(d, held, now[j].key, now[k].key);
    }
    forall j, k | 0 <= j < |entries| && 0 <= k < |now| && entries[j].key == now[k].key
      ensures EntryStands(d, entries[j].key, entries[j].value, now[k].value)
    {
      ArrangedValue(valued, Deduped(listed), j, k);
      TopEntryIsInOrder(d, entries[j]);
    }
  }
}
