/** Content as the database keeps it: as JSON, whose objects have only text for keys, so a mapping of any other key is
    kept as its pairs under a key of its own. */
module Encoding {
  import opened Iris
  import opened Content

  const PAIRS := Str("~pairs")

  predicate AllText(entries: seq<Entry>)
  {
    forall k :: 0 <= k < |entries| ==> entries[k].key.Str?
  }

  /** Whether a mapping may be kept as an object: every key text, and the escape key not its only one. */
  predicate Plain(entries: seq<Entry>)
  {
    AllText(entries) && Keys(entries) != [PAIRS]
  }

  function Encoded(t: Tree): (json: Tree)
  {
    match t
    case Leaf(_) => t
    case List(items) => List(seq(|items|, k requires 0 <= k < |items| => Encoded(items[k])))
    case Mapping(entries) =>
      if Plain(entries) then
        Mapping(seq(|entries|, k requires 0 <= k < |entries| => Entry(entries[k].key, Encoded(entries[k].value))))
      else
        Mapping([Entry(PAIRS, List(seq(|entries|, k requires 0 <= k < |entries| =>
          List([Leaf(entries[k].key), Encoded(entries[k].value)]))))])
  }

  /** A pair read as an entry; none for what is no pair. */
  function Pair(t: Tree): (e: Option<Entry>)
  {
    if t.List? && |t.items| == 2 && t.items[0].Leaf? then Some(Entry(t.items[0].scalar, t.items[1])) else None
  }

  /** Pairs read as a mapping, one after another, a later one of the same key over an earlier; none when one is no
      pair. */
  function FromPairs(items: seq<Tree>): (entries: Option<seq<Entry>>)
  {
    if items == [] then Some([])
    else
      var before := FromPairs(items[..|items| - 1]);
      var last := Pair(items[|items| - 1]);
      if before.None? || last.None? then None else Some(Set(before.value, last.value.key, last.value.value))
  }

  /** An object as it is read, its values read already. */
  function Mapped(entries: seq<Entry>): (t: Option<Tree>)
  {
    if Keys(entries) != [PAIRS] then Some(Mapping(entries))
    else if !entries[0].value.List? then None
    else
      match FromPairs(entries[0].value.items)
      case None => None
      case Some(found) => Some(Mapping(found))
  }

  /** JSON read back, innermost first; none for what no content is kept as. */
  function Decoded(json: Tree): (t: Option<Tree>)
    decreases json
  {
    match json
    case Leaf(_) => Some(json)
    case List(items) =>
      if forall k :: 0 <= k < |items| ==> Decoded(items[k]).Some? then
        Some(List(seq(|items|, k requires 0 <= k < |items| => Decoded(items[k]).value)))
      else None
    case Mapping(entries) =>
      if forall k :: 0 <= k < |entries| ==> Decoded(entries[k].value).Some? then
        Mapped(seq(|entries|, k requires 0 <= k < |entries| => Entry(entries[k].key, Decoded(entries[k].value).value)))
      else None
  }

  /** What is kept is JSON: no object of it has a key that is not text. */
  predicate IsJson(json: Tree)
  {
    match json
    case Leaf(_) => true
    case List(items) => forall k :: 0 <= k < |items| ==> IsJson(items[k])
    case Mapping(entries) => AllText(entries) && forall k :: 0 <= k < |entries| ==> IsJson(entries[k].value)
  }

  lemma {:induction false} EncodedIsJson(t: Tree)
    ensures IsJson(Encoded(t))
  {
    match t
    case Leaf(_) =>
    case List(items) =>
      forall k | 0 <= k < |items|
        ensures IsJson(Encoded(items[k]))
      {
        EncodedIsJson(items[k]);
      }
    case Mapping(entries) =>
      forall k | 0 <= k < |entries|
        ensures IsJson(Encoded(entries[k].value))
      {
        EncodedIsJson(entries[k].value);
      }
      if !Plain(entries) {
        PairsAreJson(entries, Encoded(t).entries[0].value.items);
      }
  }

  lemma PairsAreJson(entries: seq<Entry>, items: seq<Tree>)
    requires |items| == |entries| && forall k :: 0 <= k < |entries| ==> IsJson(Encoded(entries[k].value))
    requires forall k :: 0 <= k < |items| ==> items[k] == List([Leaf(entries[k].key), Encoded(entries[k].value)])
    ensures IsJson(List(items))
  {
    forall k | 0 <= k < |items|
      ensures IsJson(items[k])
    {
      assert IsJson(items[k].items[0]) && IsJson(items[k].items[1]);
    }
  }

  lemma {:induction false} PairsReadBack(items: seq<Tree>, entries: seq<Entry>)
    requires |items| == |entries| && Unrepeated(Keys(entries))
    requires forall k :: 0 <= k < |items| ==> items[k] == List([Leaf(entries[k].key), entries[k].value])
    ensures FromPairs(items) == Some(entries)
    decreases |items|
  {
    if items != [] {
      var n := |items| - 1;
      var before := entries[..n];
      assert forall k :: 0 <= k < n ==> Keys(before)[k] == Keys(entries)[k];
      PairsReadBack(items[..n], before);
      assert entries[n].key == Keys(entries)[n];
      SetAtTheEnd(before, entries[n].key, entries[n].value);
      assert entries == before + [entries[n]];
    }
  }

  /** Decoding what was encoded gives back every content there is, the order of every mapping's entries with it:
      mappings whose keys are not text, and mappings whose one key is the escape key, however deep. */
  lemma {:induction false} DecodedUndoesEncoded(t: Tree)
    requires Formed(t)
    ensures Decoded(Encoded(t)) == Some(t)
  {
    match t
    case Leaf(_) =>
    case List(items) =>
      forall k | 0 <= k < |items|
        ensures Decoded(Encoded(items[k])) == Some(items[k])
      {
        DecodedUndoesEncoded(items[k]);
      }
      var json := Encoded(t).items;
      assert forall k :: 0 <= k < |json| ==> Decoded(json[k]).Some?;
      assert Decoded(Encoded(t)).value.items == items;
    case Mapping(entries) =>
      forall k | 0 <= k < |entries|
        ensures Decoded(Encoded(entries[k].value)) == Some(entries[k].value)
      {
        DecodedUndoesEncoded(entries[k].value);
      }
      if Plain(entries) {
        PlainReadsBack(entries);
      } else {
        PairsDecode(entries);
      }
  }

  lemma PlainReadsBack(entries: seq<Entry>)
    requires Plain(entries) && forall k :: 0 <= k < |entries| ==> Decoded(Encoded(entries[k].value)) == Some(entries[k].value)
    ensures Decoded(Encoded(Mapping(entries))) == Some(Mapping(entries))
  {
    var json := Encoded(Mapping(entries));
    assert forall k :: 0 <= k < |json.entries| ==> Decoded(json.entries[k].value).Some?;
    var decoded := seq(|entries|, k requires 0 <= k < |entries| =>
      Entry(json.entries[k].key, Decoded(json.entries[k].value).value));
    assert decoded == entries;
  }

  lemma PairsDecode(entries: seq<Entry>)
    requires !Plain(entries) && Unrepeated(Keys(entries))
    requires forall k :: 0 <= k < |entries| ==> Decoded(Encoded(entries[k].value)) == Some(entries[k].value)
    ensures Decoded(Encoded(Mapping(entries))) == Some(Mapping(entries))
  {
    var json := Encoded(Mapping(entries));
    var pairs := json.entries[0].value;
    forall k | 0 <= k < |entries|
      ensures Decoded(pairs.items[k]) == Some(List([Leaf(entries[k].key), entries[k].value]))
    {
      var pair := pairs.items[k];
      assert pair == List([Leaf(entries[k].key), Encoded(entries[k].value)]);
      assert Decoded(pair.items[0]) == Some(Leaf(entries[k].key));
      assert Decoded(pair.items[1]) == Some(entries[k].value);
      assert forall j :: 0 <= j < |pair.items| ==> Decoded(pair.items[j]).Some?;
      assert Decoded(pair).value.items == [Leaf(entries[k].key), entries[k].value];
    }
    assert forall k :: 0 <= k < |pairs.items| ==> Decoded(pairs.items[k]).Some?;
    var decoded := Decoded(pairs).value;
    PairsReadBack(decoded.items, entries);
    assert Keys([Entry(PAIRS, decoded)]) == [PAIRS];
    assert json.entries == [Entry(PAIRS, pairs)];
    assert Decoded(json) == Mapped([Entry(PAIRS, decoded)]);
  }
}
