/** IRIs and version IRIs as text: which texts they are, and their places in the export layout as lists of steps.
    Places and texts are shown to be inverse to each other both ways. */
module Names {
  import opened Iris
  import opened Text

  const LONGEST := 512
  const SCHEME := "https://"
  const FILE := ".yaml"

  predicate Alnum(c: char)
  {
    'a' <= c <= 'z' || Digit(c)
  }

  predicate Run(s: string)
  {
    s != "" && forall k :: 0 <= k < |s| ==> Alnum(s[k])
  }

  /** Runs of `a`-`z` and `0`-`9` with one hyphen between two of them. */
  predicate Plain(s: string)
  {
    var runs := Split(s, '-');
    forall k :: 0 <= k < |runs| ==> Run(runs[k])
  }

  /** Plain names with one dot between two of them. */
  predicate Dotted(s: string)
  {
    var names := Split(s, '.');
    forall k :: 0 <= k < |names| ==> Plain(names[k])
  }

  /** Whether text splits into a host of names and dots and one or more segments of the same. */
  predicate IsIri(text: string)
  {
    && |text| <= LONGEST && SCHEME <= text
    && var parts := Split(text[|SCHEME|..], '/');
      |parts| >= 2 && forall k :: 0 <= k < |parts| ==> Dotted(parts[k])
  }

  /** Cuts a text at its slashes, once its scheme is left off. */
  function SplitIri(text: string): (parts: seq<string>)
    ensures |parts| >= 1
  {
    Split(if SCHEME <= text then text[|SCHEME|..] else text, '/')
  }

  /** A type version's IRI. */
  function Versioned(text: string, number: nat): string
  {
    text + "@" + Digits(number)
  }

  function Suffix(number: Option<nat>): string
  {
    if number.None? then "" else "@" + Digits(number.value)
  }

  /** Undoes `Versioned`: one `@`, an IRI before it and a number with no leading zero after it, in no more than
      `LONGEST` characters; None for any other text. */
  function Version(text: string): (found: Option<(string, nat)>)
  {
    var parts := Split(text, '@');
    if |parts| != 2 || parts[0] == "" || parts[1] == "" || parts[1][0] == '0' then None
    else if exists k :: 0 <= k < |parts[1]| && !Digit(parts[1][k]) then None
    else if !IsIri(parts[0]) || |text| > LONGEST then None
    else Some((parts[0], Number(parts[1])))
  }

  /** An IRI's host and segments, the last with the number, if there is one, and the file's ending put after it. */
  function Place(text: string, number: Option<nat>): (steps: seq<string>)
  {
    var parts := SplitIri(text);
    parts[..|parts| - 1] + [parts[|parts| - 1] + Suffix(number) + FILE]
  }

  /** A place's steps joined as the name they would be of. */
  function Written(steps: seq<string>): string
    requires |steps| >= 1 && |steps[|steps| - 1]| >= |FILE|
  {
    var last := steps[|steps| - 1];
    SCHEME + Join(steps[..|steps| - 1] + [last[..|last| - |FILE|]], '/')
  }

  predicate EndsIn(s: string, end: string)
  {
    |s| >= |end| && s[|s| - |end|..] == end
  }

  /** Undoes `Place`: the IRI and the number, if any, whose place is these steps; None where there are none such. */
  function Filed(steps: seq<string>): (found: Option<(string, Option<nat>)>)
  {
    if |steps| < 2 || !EndsIn(steps[|steps| - 1], FILE) then None
    else
      var written := Written(steps);
      match Version(written)
      case Some(found) => Some((found.0, Some(found.1)))
      case None => if IsIri(written) then Some((written, None)) else None
  }

  // ---- what the grammar keeps out

  lemma {:induction false} SplitLosesNothing(s: string, at: char, k: nat)
    requires k < |s|
    ensures s[k] == at || exists p :: 0 <= p < |Split(s, at)| && s[k] in Split(s, at)[p]
  {
    var rest := Split(s[1..], at);
    if k > 0 {
      SplitLosesNothing(s[1..], at, k - 1);
      assert s[k] == s[1..][k - 1];
      if s[k] != at {
        var p :| 0 <= p < |rest| && s[k] in rest[p];
        if s[0] == at {
          assert Split(s, at)[p + 1] == rest[p];
        } else {
          assert p > 0 ==> Split(s, at)[p] == rest[p];
          assert p == 0 ==> s[k] in Split(s, at)[0];
        }
      }
    } else if s[0] != at {
      assert s[0] in Split(s, at)[0];
    }
  }

  lemma PlainHolds(s: string, c: char)
    requires Plain(s) && c in s
    ensures Alnum(c) || c == '-'
  {
    var k :| 0 <= k < |s| && s[k] == c;
    SplitLosesNothing(s, '-', k);
  }

  lemma DottedHolds(s: string, c: char)
    requires Dotted(s) && c in s
    ensures Alnum(c) || c == '-' || c == '.'
  {
    var k :| 0 <= k < |s| && s[k] == c;
    SplitLosesNothing(s, '.', k);
    if c != '.' {
      var p :| 0 <= p < |Split(s, '.')| && c in Split(s, '.')[p];
      PlainHolds(Split(s, '.')[p], c);
    }
  }

  /** An IRI of the grammar holds no `@` and no `#`. */
  lemma IriHolds(text: string, c: char)
    requires IsIri(text) && c in text
    ensures c != '@' && c != '#'
  {
    var k :| 0 <= k < |text| && text[k] == c;
    if k < |SCHEME| {
      assert text[k] == SCHEME[k];
    } else {
      var rest := text[|SCHEME|..];
      SplitLosesNothing(rest, '/', k - |SCHEME|);
      if c != '/' {
        var p :| 0 <= p < |Split(rest, '/')| && c in Split(rest, '/')[p];
        DottedHolds(Split(rest, '/')[p], c);
      }
    }
  }

  // ---- places and IRIs

  lemma {:induction false} JoinGrownAtTheEnd(parts: seq<string>, more: string, with: char)
    requires |parts| >= 1
    ensures Join(parts[..|parts| - 1] + [parts[|parts| - 1] + more], with) == Join(parts, with) + more
  {
    var grown := parts[..|parts| - 1] + [parts[|parts| - 1] + more];
    if |parts| > 1 {
      JoinGrownAtTheEnd(parts[1..], more, with);
      assert grown[1..] == parts[1..][..|parts[1..]| - 1] + [parts[1..][|parts[1..]| - 1] + more];
    }
  }

  /** A list's last text with more after it, and with a file's ending after that, cut again. */
  lemma CutAgain(parts: seq<string>, more: string, file: string)
    requires |parts| >= 1
    ensures var n := |parts| - 1;
      var steps := parts[..n] + [parts[n] + more + file];
      && |steps| == n + 1 && |steps[n]| >= |file| && steps[n][|steps[n]| - |file|..] == file
      && steps[..n] + [steps[n][..|steps[n]| - |file|]] == parts[..n] + [parts[n] + more]
  {
    var n := |parts| - 1;
    var last := parts[n] + more + file;
    assert last[..|last| - |file|] == parts[n] + more;
    assert (parts[..n] + [last])[..n] == parts[..n];
  }

  lemma Schemed(text: string, rest: string, more: string)
    requires SCHEME <= text && rest == text[|SCHEME|..]
    ensures SCHEME + (rest + more) == text + more
  {
    assert text == SCHEME + rest;
    assert SCHEME + (rest + more) == (SCHEME + rest) + more;
  }

  lemma PlaceIs(text: string, number: Option<nat>)
    ensures var parts := SplitIri(text);
      Place(text, number) == parts[..|parts| - 1] + [parts[|parts| - 1] + Suffix(number) + FILE]
  {
  }

  lemma WrittenIs(steps: seq<string>, parts: seq<string>)
    requires |steps| == |parts| >= 1 && |steps[|steps| - 1]| >= |FILE|
    requires steps[..|steps| - 1] + [steps[|steps| - 1][..|steps[|steps| - 1]| - |FILE|]] == parts
    ensures Written(steps) == SCHEME + Join(parts, '/')
  {
    hide Join;
  }

  lemma IriIsJoined(text: string)
    requires SCHEME <= text
    ensures Join(SplitIri(text), '/') == text[|SCHEME|..]
  {
    hide Split, Join;
    JoinUndoesSplit(text[|SCHEME|..], '/');
  }

  lemma EndsInFile(s: string)
    requires |s| >= |FILE| && s[|s| - |FILE|..] == FILE
    ensures EndsIn(s, FILE)
  {
  }

  /** What is written for an IRI's place is the IRI, with its version's number. */
  lemma PlaceIsWritten(text: string, number: Option<nat>)
    requires SCHEME <= text
    ensures var steps := Place(text, number);
      |steps| >= 1 && EndsIn(steps[|steps| - 1], FILE) && Written(steps) == text + Suffix(number)
  {
    hide *;
    var parts, suffix := SplitIri(text), Suffix(number);
    var n := |parts| - 1;
    var steps := Place(text, number);
    PlaceIs(text, number);
    CutAgain(parts, suffix, FILE);
    EndsInFile(steps[n]);
    WrittenIs(steps, parts[..n] + [parts[n] + suffix]);
    JoinGrownAtTheEnd(parts, suffix, '/');
    IriIsJoined(text);
    Schemed(text, text[|SCHEME|..], suffix);
  }

  lemma SplitAtVersion(text: string, number: nat)
    requires '@' !in text
    ensures Split(Versioned(text, number), '@') == [text, Digits(number)]
  {
    var parts := [text, Digits(number)];
    assert parts[1..] == [Digits(number)];
    assert Join(parts, '@') == Versioned(text, number);
    SplitUndoesJoin(parts, '@');
  }

  lemma NoAtInAnIri(text: string)
    requires IsIri(text)
    ensures '@' !in text
  {
    hide IsIri;
    if '@' in text {
      IriHolds(text, '@');
    }
  }

  /** `Version` answers None on every text `IsIri` accepts. */
  lemma IriIsNoVersion(text: string)
    requires IsIri(text)
    ensures Version(text).None?
  {
    hide IsIri, Number;
    NoAtInAnIri(text);
    SplitUndoesJoin([text], '@');
  }

  /** A version's IRI is read as its type's and its number, unless it is too long; and is no artifact's. */
  lemma VersionRead(text: string, number: nat)
    requires IsIri(text) && number >= 1
    ensures Version(Versioned(text, number)) ==
      if |Versioned(text, number)| <= LONGEST then Some((text, number)) else None
    ensures !IsIri(Versioned(text, number))
  {
    var written := Versioned(text, number);
    NoAtInAnIri(text);
    SplitAtVersion(text, number);
    NumberUndoesDigits(number);
    IriIsNotEmpty(text);
    assert written[|text|] == '@';
    hide IsIri, Split, Number;
    if IsIri(written) {
      IriHolds(written, '@');
    }
  }

  lemma IriIsNotEmpty(text: string)
    requires IsIri(text)
    ensures text != "" && SCHEME <= text
  {
  }

  lemma PlaceHasTwoSteps(text: string, number: Option<nat>)
    requires IsIri(text)
    ensures |Place(text, number)| >= 2
  {
    hide Split, Suffix, Dotted;
  }

  lemma FiledAsWritten(steps: seq<string>, written: string)
    requires |steps| >= 2 && EndsIn(steps[|steps| - 1], FILE) && Written(steps) == written
    ensures Version(written).None? && IsIri(written) ==> Filed(steps) == Some((written, None))
    ensures Version(written).None? && !IsIri(written) ==> Filed(steps) == None
    ensures Version(written).Some? ==>
      Filed(steps) == Some((Version(written).value.0, Some(Version(written).value.1)))
  {
    hide Version, IsIri, Written;
  }

  /** The place of an artifact reads back as its IRI, and the place of a version as its type's IRI and its number,
      when and only when the version's IRI is within the length the grammar allows. */
  lemma FiledUndoesPlace(text: string, number: Option<nat>)
    requires IsIri(text) && (number.Some? ==> number.value >= 1)
    ensures Filed(Place(text, number)) == Some((text, number)) <==>
      number.Some? ==> |Versioned(text, number.value)| <= LONGEST
  {
    IriIsNotEmpty(text);
    PlaceIsWritten(text, number);
    PlaceHasTwoSteps(text, number);
    SuffixIs(text, number);
    hide *;
    FiledAsWritten(Place(text, number), text + Suffix(number));
    match number
    case None =>
      IriIsNoVersion(text);
    case Some(n) =>
      VersionRead(text, n);
  }

  lemma SuffixIs(text: string, number: Option<nat>)
    ensures text + Suffix(number) == match number case None => text case Some(n) => Versioned(text, n)
  {
    hide Digits;
    if number.Some? {
      assert text + ("@" + Digits(number.value)) == text + "@" + Digits(number.value);
    }
  }

  lemma GrownHoldsNoSlash(text: string, number: Option<nat>, grown: seq<string>)
    requires var own := SplitIri(text);
      grown == own[..|own| - 1] + [own[|own| - 1] + Suffix(number)]
    ensures forall k :: 0 <= k < |grown| ==> '/' !in grown[k]
  {
    SuffixHolds(number);
    hide Split, Suffix;
  }

  lemma StemIs(last: string)
    requires EndsIn(last, FILE)
    ensures |last| >= |FILE| && last[..|last| - |FILE|] + FILE == last
  {
  }

  /** Steps with no slash are the place of what is written for them. */
  lemma PlaceOfWritten(steps: seq<string>, text: string, number: Option<nat>)
    requires |steps| >= 2 && EndsIn(steps[|steps| - 1], FILE) && forall k :: 0 <= k < |steps| ==> '/' !in steps[k]
    requires SCHEME <= text && Written(steps) == text + Suffix(number)
    ensures Place(text, number) == steps
  {
    hide *;
    var n := |steps| - 1;
    StemIs(steps[n]);
    var stem := steps[n][..|steps[n]| - |FILE|];
    var parts := steps[..n] + [stem];
    var own, suffix := SplitIri(text), Suffix(number);
    var grown := own[..|own| - 1] + [own[|own| - 1] + suffix];
    WrittenIs(steps, parts);
    IriIsJoined(text);
    JoinGrownAtTheEnd(own, suffix, '/');
    Schemed(text, text[|SCHEME|..], suffix);
    assert Join(parts, '/') == (SCHEME + Join(parts, '/'))[|SCHEME|..];
    assert Join(grown, '/') == (SCHEME + Join(grown, '/'))[|SCHEME|..];
    GrownHoldsNoSlash(text, number, grown);
    SplitUndoesJoin(parts, '/');
    SplitUndoesJoin(grown, '/');
    assert grown == parts;
    assert grown[..|grown| - 1] == own[..|own| - 1] && parts[..n] == steps[..n];
    assert own[|own| - 1] + suffix == grown[|grown| - 1] == stem;
    PlaceIs(text, number);
    assert steps == steps[..n] + [steps[n]];
  }

  lemma PlaceHoldsNoSlash(text: string, number: Option<nat>)
    ensures forall k :: 0 <= k < |Place(text, number)| ==> '/' !in Place(text, number)[k]
  {
    SuffixHolds(number);
    hide Split, Suffix;
  }

  lemma FiledIsAFile(steps: seq<string>)
    requires Filed(steps).Some?
    ensures |steps| >= 2 && EndsIn(steps[|steps| - 1], FILE)
  {
    hide Version, IsIri, Written, EndsIn;
  }

  /** A place the layout puts an artifact at is the place of what it reads as, when and only when no step of it holds
      a slash. */
  lemma PlaceUndoesFiled(steps: seq<string>)
    requires Filed(steps).Some?
    ensures Place(Filed(steps).value.0, Filed(steps).value.1) == steps <==>
      forall k :: 0 <= k < |steps| ==> '/' !in steps[k]
  {
    hide *;
    var (text, number) := Filed(steps).value;
    FiledIsAFile(steps);
    FiledIsWritten(steps);
    IriIsNotEmpty(text);
    PlaceHoldsNoSlash(text, number);
    if forall k :: 0 <= k < |steps| ==> '/' !in steps[k] {
      PlaceOfWritten(steps, text, number);
    }
  }

  lemma SuffixHolds(number: Option<nat>)
    ensures '/' !in Suffix(number) && '/' !in FILE
  {
    if number.Some? {
      assert forall c :: c in Digits(number.value) ==> Digit(c);
    }
  }

  /** What a place reads as is what is written for it. */
  lemma FiledIsWritten(steps: seq<string>)
    requires Filed(steps).Some?
    ensures var (text, number) := Filed(steps).value;
      Written(steps) == text + Suffix(number) && IsIri(text)
  {
    var written := Written(steps);
    match Version(written)
    case None =>
    case Some(found) =>
      var parts := Split(written, '@');
      JoinUndoesSplit(written, '@');
      assert parts[1..] == [parts[1]];
      DigitsUndoesNumber(parts[1]);
      assert written == parts[0] + (['@'] + parts[1]);
  }

  /** No two artifacts, and no two versions of types, share a place, however long their IRIs are. */
  lemma PlacesAreTheirOwn(a: string, m: Option<nat>, b: string, n: Option<nat>)
    requires IsIri(a) && IsIri(b) && (m.Some? ==> m.value >= 1) && (n.Some? ==> n.value >= 1)
    requires Place(a, m) == Place(b, n)
    ensures a == b && m == n
  {
    PlaceIsWritten(a, m);
    PlaceIsWritten(b, n);
    SplitWritten(a, m);
    SplitWritten(b, n);
    if m.Some? && n.Some? {
      NumberUndoesDigits(m.value);
      NumberUndoesDigits(n.value);
    }
  }

  lemma SplitWritten(a: string, m: Option<nat>)
    requires IsIri(a)
    ensures Split(a + Suffix(m), '@') == if m.None? then [a] else [a, Digits(m.value)]
  {
    assert '@' !in a by {
      if '@' in a {
        IriHolds(a, '@');
      }
    }
    match m
    case None =>
      assert a + "" == a;
      SplitUndoesJoin([a], '@');
    case Some(n) =>
      assert a + Suffix(m) == Versioned(a, n);
      SplitAtVersion(a, n);
  }

  // ---- the order names are given in

  /** Whether one IRI comes before another: their steps compared as lists of texts. */
  predicate Before(a: string, b: string)
  {
    StepsLess(Place(a, None), Place(b, None))
  }

  /** It is a strict total order on IRIs. */
  lemma BeforeIsAStrictTotalOrder(a: string, b: string, c: string)
    requires IsIri(a) && IsIri(b) && IsIri(c)
    ensures !Before(a, a)
    ensures Before(a, b) && Before(b, c) ==> Before(a, c)
    ensures Before(a, b) || a == b || Before(b, a)
    ensures !(Before(a, b) && Before(b, a))
  {
    StepsLessIsStrict(Place(a, None), Place(b, None), Place(c, None));
    if Place(a, None) == Place(b, None) {
      PlacesAreTheirOwn(a, None, b, None);
    }
  }

  // ---- IRIs as the protocol reads them

  /** `Iris.Above` said of text: each proper prefix that ends before a slash and keeps a segment, longest first. */
  function AboveText(text: string): (above: seq<string>)
  {
    var parts := SplitIri(text);
    seq(if |parts| >= 2 then |parts| - 2 else 0,
        k requires 0 <= k < (if |parts| >= 2 then |parts| - 2 else 0) => SCHEME + Join(parts[..|parts| - 1 - k], '/'))
  }

  function Parsed(text: string): (i: Iri)
    requires |SplitIri(text)| >= 2
  {
    var parts := SplitIri(text);
    Iri(parts[0], parts[1..|parts| - 1], parts[|parts| - 1])
  }

  function TextOf(i: Iri): (text: string)
  {
    SCHEME + Join([i.host] + i.Segments(), '/')
  }

  /** Reading an IRI's text as a host and segments loses nothing, and what it sits under is the same read either way. */
  lemma AboveReadEitherWay(text: string)
    requires IsIri(text)
    ensures TextOf(Parsed(text)) == text
    ensures |AboveText(text)| == |Above(Parsed(text))|
    ensures forall k :: 0 <= k < |AboveText(text)| ==> AboveText(text)[k] == TextOf(Above(Parsed(text))[k])
  {
    var parts, i := SplitIri(text), Parsed(text);
    assert [i.host] + i.Segments() == parts;
    JoinUndoesSplit(text[|SCHEME|..], '/');
    AboveAreTheProperPrefixes(i);
    forall k | 0 <= k < |AboveText(text)|
      ensures AboveText(text)[k] == TextOf(Above(i)[k])
    {
      assert [i.host] + i.Segments()[..|i.within| - k] == parts[..|parts| - 1 - k];
    }
  }
}
