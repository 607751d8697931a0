/** Text taken apart at a character and joined again, and numbers written in decimal digits. */
module Text {

  /** Text split at every occurrence of a character. */
  function Split(s: string, at: char): (parts: seq<string>)
    ensures |parts| >= 1
    ensures forall k :: 0 <= k < |parts| ==> at !in parts[k]
  {
    if s == "" then [""]
    else
      var rest := Split(s[1..], at);
      if s[0] == at then [""] + rest else [[s[0]] + rest[0]] + rest[1..]
  }

  /** Parts joined by a character. */
  function Join(parts: seq<string>, with: char): (s: string)
    requires |parts| >= 1
  {
    if |parts| == 1 then parts[0] else parts[0] + [with] + Join(parts[1..], with)
  }

  lemma {:induction false} JoinUndoesSplit(s: string, at: char)
    ensures Join(Split(s, at), at) == s
  {
    if s != "" {
      JoinUndoesSplit(s[1..], at);
      var rest := Split(s[1..], at);
      if s[0] == at {
        assert ([""] + rest)[1..] == rest;
      } else if |rest| > 1 {
        assert ([[s[0]] + rest[0]] + rest[1..])[1..] == rest[1..];
      }
    }
  }

  lemma {:induction false} SplitUndoesJoin(parts: seq<string>, with: char)
    requires |parts| >= 1 && forall k :: 0 <= k < |parts| ==> with !in parts[k]
    ensures Split(Join(parts, with), with) == parts
  {
    SplitOfFirst(parts[0], if |parts| == 1 then "" else [with] + Join(parts[1..], with), with);
    if |parts| == 1 {
      assert parts[0] + "" == parts[0];
    } else {
      var rest := Join(parts[1..], with);
      SplitUndoesJoin(parts[1..], with);
      assert ([with] + rest)[1..] == rest;
      assert parts[0] + ([with] + rest) == Join(parts, with);
      assert Split([with] + rest, with) == [""] + Split(rest, with);
      assert parts[0] + "" == parts[0];
      assert [parts[0]] + parts[1..] == parts;
    }
  }

  /** Text before the first occurrence of the character stays one part, joined to the first part of what follows. */
  lemma {:induction false} SplitOfFirst(first: string, rest: string, at: char)
    requires at !in first
    ensures Split(first + rest, at) == [first + Split(rest, at)[0]] + Split(rest, at)[1..]
  {
    if first == "" {
      var parts := Split(rest, at);
      assert first + rest == rest && first + parts[0] == parts[0];
      assert [parts[0]] + parts[1..] == parts;
    } else {
      SplitOfFirst(first[1..], rest, at);
      assert first[0] in first;
      assert (first + rest)[1..] == first[1..] + rest;
      var parts := Split(rest, at);
      assert [first[0]] + (first[1..] + parts[0]) == first + parts[0];
    }
  }

  /** Text after the last occurrence of the character stays one part. */
  lemma {:induction false} SplitOfLast(first: string, last: string, at: char)
    requires at !in last
    ensures Split(first + [at] + last, at) == Split(first, at) + [last]
  {
    if first == "" {
      assert first + [at] + last == [at] + last;
      assert ([at] + last)[1..] == last;
      SplitUndoesJoin([last], at);
    } else {
      SplitOfLast(first[1..], last, at);
      assert (first + [at] + last)[1..] == first[1..] + [at] + last;
      var rest := Split(first[1..], at);
      if first[0] == at {
        assert ([""] + rest) + [last] == [""] + (rest + [last]);
      } else {
        assert (rest + [last])[0] == rest[0] && (rest + [last])[1..] == rest[1..] + [last];
      }
    }
  }

  // ---- numbers

  predicate Digit(c: char)
  {
    '0' <= c <= '9'
  }

  /** A number in decimal digits, no zero leading but for 0 itself. */
  function Digits(n: nat): (s: string)
    ensures |s| >= 1 && forall k :: 0 <= k < |s| ==> Digit(s[k])
    ensures n > 0 ==> s[0] != '0'
  {
    if n < 10 then [('0' as int + n) as char]
    else Digits(n / 10) + [('0' as int + n % 10) as char]
  }

  /** The number decimal digits write. */
  function Number(s: string): (n: nat)
    requires forall k :: 0 <= k < |s| ==> Digit(s[k])
  {
    if s == "" then 0
    else
      assert Digit(s[|s| - 1]);
      10 * Number(s[..|s| - 1]) + (s[|s| - 1] as int - '0' as int)
  }

  lemma {:induction false} NumberUndoesDigits(n: nat)
    ensures Number(Digits(n)) == n
  {
    var s := Digits(n);
    if n >= 10 {
      NumberUndoesDigits(n / 10);
      assert s[..|s| - 1] == Digits(n / 10);
    } else {
      assert s[..0] == "";
    }
  }

  lemma {:induction false} DigitsUndoesNumber(s: string)
    requires |s| >= 1 && s[0] != '0' && forall k :: 0 <= k < |s| ==> Digit(s[k])
    ensures Number(s) > 0 && Digits(Number(s)) == s
  {
    var rest, last := s[..|s| - 1], s[|s| - 1];
    assert s == rest + [last];
    if rest != "" {
      DigitsUndoesNumber(rest);
      var n := Number(s);
      assert n / 10 == Number(rest) && n % 10 == last as int - '0' as int;
    }
  }

  // ---- order

  /** Text compared character by character, a prefix first. */
  predicate TextLess(a: string, b: string)
  {
    if b == "" then false
    else if a == "" then true
    else a[0] < b[0] || (a[0] == b[0] && TextLess(a[1..], b[1..]))
  }

  lemma {:induction false} TextLessIsStrict(a: string, b: string, c: string)
    ensures !TextLess(a, a)
    ensures TextLess(a, b) && TextLess(b, c) ==> TextLess(a, c)
    ensures TextLess(a, b) || a == b || TextLess(b, a)
    ensures !(TextLess(a, b) && TextLess(b, a))
  {
    if a != "" {
      TextLessIsStrict(a[1..], if b == "" then "" else b[1..], if c == "" then "" else c[1..]);
      if b != "" && a[0] == b[0] && a[1..] == b[1..] {
        assert a == [a[0]] + a[1..] && b == [b[0]] + b[1..];
      }
    }
  }

  /** Steps compared step by step, fewer first where all they share is the same. */
  predicate StepsLess(a: seq<string>, b: seq<string>)
  {
    if b == [] then false
    else if a == [] then true
    else TextLess(a[0], b[0]) || (a[0] == b[0] && StepsLess(a[1..], b[1..]))
  }

  lemma {:induction false} StepsLessIsStrict(a: seq<string>, b: seq<string>, c: seq<string>)
    ensures !StepsLess(a, a)
    ensures StepsLess(a, b) && StepsLess(b, c) ==> StepsLess(a, c)
    ensures StepsLess(a, b) || a == b || StepsLess(b, a)
    ensures !(StepsLess(a, b) && StepsLess(b, a))
  {
    if a != [] {
      TextLessIsStrict(a[0], if b == [] then "" else b[0], if c == [] then "" else c[0]);
      StepsLessIsStrict(a[1..], if b == [] then [] else b[1..], if c == [] then [] else c[1..]);
      if b != [] && a[0] == b[0] && a[1..] == b[1..] {
        assert a == [a[0]] + a[1..] && b == [b[0]] + b[1..];
      }
    }
  }
}
