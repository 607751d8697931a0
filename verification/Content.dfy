/** Content as an artifact holds it: values, lists and mappings, a mapping's entries in the order they are held. */
module Content {
  import opened Iris

  /** A value that is neither a list nor a mapping; a number that is not whole, by the text it is written as. */
  datatype Scalar = Str(text: string) | Whole(number: int) | Fraction(written: string) | Truth(told: bool) | Nothing

  datatype Entry = Entry(key: Scalar, value: Tree)

  datatype Tree = Leaf(scalar: Scalar) | List(items: seq<Tree>) | Mapping(entries: seq<Entry>)

  function Keys(entries: seq<Entry>): (keys: seq<Scalar>)
  {
    seq(|entries|, k requires 0 <= k < |entries| => entries[k].key)
  }

  predicate Unrepeated<T(==)>(s: seq<T>)
  {
    forall j, k :: 0 <= j < k < |s| ==> s[j] != s[k]
  }

  /** A mapping holds each key once. */
  predicate Formed(t: Tree)
  {
    match t
    case Leaf(_) => true
    case List(items) => forall k :: 0 <= k < |items| ==> Formed(items[k])
    case Mapping(entries) => Unrepeated(Keys(entries)) && forall k :: 0 <= k < |entries| ==> Formed(entries[k].value)
  }

  /** What a mapping holds under a key. */
  function Get(entries: seq<Entry>, key: Scalar): (found: Option<Tree>)
    ensures found.Some? <==> key in Keys(entries)
    ensures found.Some? ==> exists k :: 0 <= k < |entries| && entries[k] == Entry(key, found.value)
    decreases |entries|
  {
    if entries == [] then None
    else if entries[0].key == key then
      assert Keys(entries)[0] == key;
      Some(entries[0].value)
    else
      assert forall k :: 0 < k < |entries| ==> entries[k] == entries[1..][k - 1] && Keys(entries)[k] == Keys(entries[1..])[k - 1];
      Get(entries[1..], key)
  }

  /** In a mapping that holds each key once, a key's value is the one beside it wherever it stands. */
  lemma {:induction false} GetStands(entries: seq<Entry>, k: nat)
    requires Unrepeated(Keys(entries)) && k < |entries|
    ensures Get(entries, entries[k].key) == Some(entries[k].value)
    decreases |entries|
  {
    assert Keys(entries)[k] == entries[k].key && Keys(entries)[0] == entries[0].key;
    if k > 0 {
      assert forall j :: 0 <= j < |entries| - 1 ==> Keys(entries[1..])[j] == Keys(entries)[j + 1];
      GetStands(entries[1..], k - 1);
    }
  }

  /** A mapping with an entry set: where the key stood, or else at the end. */
  function Set(entries: seq<Entry>, key: Scalar, value: Tree): (r: seq<Entry>)
    ensures |r| == if key in Keys(entries) then |entries| else |entries| + 1
    decreases |entries|
  {
    if entries == [] then [Entry(key, value)]
    else if entries[0].key == key then
      assert Keys(entries)[0] == key;
      [Entry(key, value)] + entries[1..]
    else
      assert Keys(entries) == [entries[0].key] + Keys(entries[1..]);
      [entries[0]] + Set(entries[1..], key, value)
  }

  lemma {:induction false} SetAtTheEnd(entries: seq<Entry>, key: Scalar, value: Tree)
    requires key !in Keys(entries)
    ensures Set(entries, key, value) == entries + [Entry(key, value)]
    decreases |entries|
  {
    if entries != [] {
      assert Keys(entries) == [entries[0].key] + Keys(entries[1..]);
      assert entries[0].key == Keys(entries)[0];
      SetAtTheEnd(entries[1..], key, value);
    }
  }
}
