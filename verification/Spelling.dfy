/** The name a title gives, said by its pieces: the stretches of letters and digits it is cut into, made small and joined
    by single hyphens; and which items are named so. */
module Spelling {
  import opened Iris
  import opened Text
  import opened Content
  import opened ItemNames

  predicate LetterOrDigit(c: char)
  {
    'a' <= c <= 'z' || 'A' <= c <= 'Z' || '0' <= c <= '9'
  }

  /** Text put together from pieces and what stands before, between and after them. */
  function Together(gaps: seq<string>, words: seq<string>): (text: string)
    requires |gaps| == |words| + 1
  {
    if words == [] then gaps[0]
    else Together(gaps[..|words|], words[..|words| - 1]) + words[|words| - 1] + gaps[|words|]
  }

  /** Whether text is cut into its stretches of letters and digits: each as long as it may be. */
  ghost predicate CutInto(text: string, gaps: seq<string>, words: seq<string>)
  {
    && |gaps| == |words| + 1 && text == Together(gaps, words)
    && (forall n :: 0 <= n < |words| ==> words[n] != "" && forall c :: c in words[n] ==> LetterOrDigit(c))
    && (forall n :: 0 <= n < |gaps| ==> forall c :: c in gaps[n] ==> !LetterOrDigit(c))
    && (forall n :: 0 < n < |words| ==> gaps[n] != "")
  }

  function Small(word: string): (small: string)
  {
    seq(|word|, k requires 0 <= k < |word| => if 'A' <= word[k] <= 'Z' then word[k] - 'A' + 'a' else word[k])
  }

  /** Words made small, a hyphen between each and the next. */
  function Joined(words: seq<string>): (name: string)
  {
    if words == [] then ""
    else if |words| == 1 then Small(words[0])
    else Joined(words[..|words| - 1]) + "-" + Small(words[|words| - 1])
  }

  /** Whether a title gives a name. */
  ghost predicate Gives(title: string, name: string)
  {
    exists gaps, words :: CutInto(title, gaps, words) && name == Joined(words)
  }

  // ---- as it is worked out

  /** What hyphening a title has made of its pieces: them joined, with a hyphen at each end that has something else. */
  function Edged(gaps: seq<string>, words: seq<string>): (s: string)
    requires |gaps| == |words| + 1
  {
    (if gaps[0] == "" then "" else "-") + Joined(words) +
    if words == [] || gaps[|words|] == "" then "" else "-"
  }

  lemma OneMoreInGap(text: string, gaps: seq<string>, words: seq<string>, c: char) returns (more: seq<string>)
    requires CutInto(text, gaps, words) && !LetterOrDigit(c)
    ensures CutInto(text + [c], more, words)
    ensures |more| == |gaps| && more[|words|] == gaps[|words|] + [c] && (words != [] ==> more[0] == gaps[0])
  {
    var n := |words|;
    more := gaps[n := gaps[n] + [c]];
    if words != [] {
      assert more[..n] == gaps[..n];
    }
  }

  lemma OneMoreInWord(text: string, gaps: seq<string>, words: seq<string>, c: char) returns (more: seq<string>)
    requires CutInto(text, gaps, words) && LetterOrDigit(c) && words != [] && gaps[|words|] == ""
    ensures CutInto(text + [c], gaps, more) && |more| == |words|
    ensures Joined(more) == Joined(words) + Small([c])
  {
    var n := |words| - 1;
    more := words[n := words[n] + [c]];
    assert more[..n] == words[..n];
    assert Small(more[n]) == Small(words[n]) + Small([c]);
  }

  lemma OneMoreWord(text: string, gaps: seq<string>, words: seq<string>, c: char)
    returns (more: seq<string>, gaps': seq<string>)
    requires CutInto(text, gaps, words) && LetterOrDigit(c) && (words == [] || gaps[|words|] != "")
    ensures CutInto(text + [c], gaps', more) && |gaps'| == |gaps| + 1 && gaps'[0] == gaps[0] && gaps'[|more|] == ""
    ensures more == words + [[c]]
  {
    more, gaps' := words + [[c]], gaps + [""];
    assert more[..|words|] == words && gaps'[..|more|] == gaps;
  }

  lemma JoinedOneMore(words: seq<string>, word: string)
    ensures Joined(words + [word]) == if words == [] then Small(word) else Joined(words) + "-" + Small(word)
  {
    assert (words + [word])[..|words|] == words;
  }

  lemma {:induction false} JoinedBeginsAndEnds(words: seq<string>)
    requires words != [] && forall n :: 0 <= n < |words| ==> words[n] != "" && forall c :: c in words[n] ==> LetterOrDigit(c)
    ensures var s := Joined(words); s != "" && s[0] != '-' && s[|s| - 1] != '-'
  {
    var last := words[|words| - 1];
    assert last[0] in last && last[|last| - 1] in last;
    if |words| > 1 {
      JoinedBeginsAndEnds(words[..|words| - 1]);
    }
  }

  lemma HyphenedOneMore(text: string, c: char)
    ensures Hyphened(text + [c]) ==
      var before := Hyphened(text);
      if LetterOrDigit(c) then before + Small([c])
      else if before != "" && before[|before| - 1] == '-' then before else before + "-"
  {
    assert (text + [c])[..|text|] == text;
  }

  /** Hyphening a title leaves its pieces joined, whatever each end has left a hyphen there. */
  lemma {:induction false} HyphenedIsEdged(title: string) returns (gaps: seq<string>, words: seq<string>)
    ensures CutInto(title, gaps, words) && Hyphened(title) == Edged(gaps, words)
  {
    hide Joined, Hyphened, Small, Together;
    if title == "" {
      gaps, words := [""], [];
      EdgedOfNone();
    } else {
      var n := |title| - 1;
      var c := title[n];
      assert title == title[..n] + [c];
      HyphenedOneMore(title[..n], c);
      var before, spelled := HyphenedIsEdged(title[..n]);
      if !LetterOrDigit(c) {
        gaps := OneMoreInGap(title[..n], before, spelled, c);
        words := spelled;
        EdgedInGap(before, gaps, words, title[..n], c);
      } else if spelled != [] && before[|spelled|] == "" {
        words := OneMoreInWord(title[..n], before, spelled, c);
        gaps := before;
      } else {
        words, gaps := OneMoreWord(title[..n], before, spelled, c);
        JoinedOneMore(spelled, [c]);
        EdgedInWord(before, spelled, gaps, words, c);
      }
    }
  }

  lemma EdgedOfNone()
    ensures CutInto("", [""], []) && Hyphened("") == Edged([""], [])
  {
  }

  lemma EdgedInWord(before: seq<string>, spelled: seq<string>, gaps: seq<string>, words: seq<string>, c: char)
    requires |before| == |spelled| + 1 && (spelled == [] || before[|spelled|] != "")
    requires words == spelled + [[c]] && |gaps| == |words| + 1 && gaps[0] == before[0] && gaps[|words|] == ""
    requires Joined(words) == if spelled == [] then Small([c]) else Joined(spelled) + "-" + Small([c])
    ensures Edged(gaps, words) == Edged(before, spelled) + Small([c])
  {
    assert Joined([]) == "";
    hide Small, Joined;
    var edge, small := if gaps[0] == "" then "" else "-", Small([c]);
    if spelled == [] {
      assert Edged(before, spelled) == edge + "" + "" == edge;
      assert Edged(gaps, words) == edge + small + "" == edge + small;
    } else {
      var rest := Joined(spelled);
      assert Edged(before, spelled) == edge + rest + "-";
      assert Edged(gaps, words) == edge + (rest + "-" + small) + "" == edge + rest + "-" + small;
    }
  }

  lemma EdgedInGap(before: seq<string>, gaps: seq<string>, words: seq<string>, text: string, c: char)
    requires CutInto(text, before, words) && !LetterOrDigit(c)
    requires |gaps| == |before| && gaps[|words|] == before[|words|] + [c] && (words != [] ==> gaps[0] == before[0])
    ensures Edged(gaps, words) ==
      var s := Edged(before, words); if s != "" && s[|s| - 1] == '-' then s else s + "-"
  {
    if words != [] {
      JoinedBeginsAndEnds(words);
    }
  }

  lemma SlugIsStripped(title: string, gaps: seq<string>, words: seq<string>)
    requires CutInto(title, gaps, words) && Hyphened(title) == Edged(gaps, words)
    ensures Slug(title) == Joined(words)
  {
    if words != [] {
      JoinedBeginsAndEnds(words);
    }
    hide CutInto, Joined, Hyphened;
  }

  /** The name a title gives is its stretches of letters and digits, made small, a hyphen between each and the next. */
  lemma SlugIsItsPieces(title: string)
    ensures Gives(title, Slug(title))
  {
    var gaps, words := HyphenedIsEdged(title);
    hide CutInto, Joined, Hyphened, Slug;
    SlugIsStripped(title, gaps, words);
  }

  // ---- that name is one

  /** Two cuttings of a title into its stretches are one. */
  lemma {:induction false} CutOneWay(text: string, gaps: seq<string>, words: seq<string>, others: seq<string>, more: seq<string>)
    requires CutInto(text, gaps, words) && CutInto(text, others, more)
    ensures gaps == others && words == more
    decreases |text|
  {
    LastOf(text, gaps, words);
    LastOf(text, others, more);
    if text == "" {
      assert gaps == [""] == others;
    } else {
      var n := |text| - 1;
      var c := text[n];
      var g, w := Shortened(text, gaps, words);
      var h, v := Shortened(text, others, more);
      CutOneWay(text[..n], g, w, h, v);
    }
  }

  lemma LastOf(text: string, gaps: seq<string>, words: seq<string>)
    requires CutInto(text, gaps, words)
    ensures text == "" <==> words == [] && gaps[0] == ""
  {
    if words != [] {
      assert words[|words| - 1] != "";
    }
  }

  /** What a title's pieces are without its last character. */
  ghost predicate OneLess(c: char, gaps: seq<string>, words: seq<string>, g: seq<string>, w: seq<string>)
    requires |gaps| == |words| + 1 && |g| == |w| + 1
  {
    if !LetterOrDigit(c) then w == words && |g| == |gaps| && gaps == g[|w| := g[|w|] + [c]]
    else if w != [] && g[|w|] == "" then g == gaps && |w| == |words| && words == w[|w| - 1 := w[|w| - 1] + [c]]
    else gaps == g + [""] && words == w + [[c]]
  }

  lemma ShorterGap(text: string, gaps: seq<string>, words: seq<string>) returns (g: seq<string>)
    requires CutInto(text, gaps, words) && gaps[|words|] != ""
    ensures text != "" && CutInto(text[..|text| - 1], g, words) && OneLess(text[|text| - 1], gaps, words, g, words)
  {
    var n, m := |words|, |text| - 1;
    var gap := gaps[n];
    g := gaps[n := gap[..|gap| - 1]];
    assert gap[|gap| - 1] in gap && gap == gap[..|gap| - 1] + [gap[|gap| - 1]];
    assert n > 0 ==> g[..n] == gaps[..n];
    assert text[m] == gap[|gap| - 1];
    assert text[..m] == Together(g, words);
  }

  lemma ShorterWord(text: string, gaps: seq<string>, words: seq<string>) returns (w: seq<string>)
    requires CutInto(text, gaps, words) && words != [] && gaps[|words|] == "" && |words[|words| - 1]| > 1
    ensures text != "" && CutInto(text[..|text| - 1], gaps, w) && OneLess(text[|text| - 1], gaps, words, gaps, w)
  {
    var n, m := |words| - 1, |text| - 1;
    var word := words[n];
    w := words[n := word[..|word| - 1]];
    assert word[|word| - 1] in word && word == word[..|word| - 1] + [word[|word| - 1]];
    assert w[..n] == words[..n];
    assert text[m] == word[|word| - 1];
    assert text[..m] == Together(gaps, w);
    assert w[n][0] in word;
  }

  lemma OneWordLess(text: string, gaps: seq<string>, words: seq<string>)
    requires CutInto(text, gaps, words) && words != [] && gaps[|words|] == "" && |words[|words| - 1]| == 1
    ensures var n := |words| - 1;
      text != "" && CutInto(text[..|text| - 1], gaps[..n + 1], words[..n])
      && OneLess(text[|text| - 1], gaps, words, gaps[..n + 1], words[..n])
  {
    var n, m := |words| - 1, |text| - 1;
    var word := words[n];
    assert word[0] in word && word == [word[0]] && text[m] == word[0];
    assert text[..m] == Together(gaps[..n + 1], words[..n]);
    assert words == words[..n] + [word] && gaps == gaps[..n + 1] + [""];
  }

  lemma Shortened(text: string, gaps: seq<string>, words: seq<string>) returns (g: seq<string>, w: seq<string>)
    requires CutInto(text, gaps, words) && text != ""
    ensures CutInto(text[..|text| - 1], g, w) && OneLess(text[|text| - 1], gaps, words, g, w)
  {
    var n := |words|;
    if gaps[n] != "" {
      w := words;
      g := ShorterGap(text, gaps, words);
    } else if words[n - 1] != "" && |words[n - 1]| > 1 {
      g := gaps;
      w := ShorterWord(text, gaps, words);
    } else {
      g, w := gaps[..n], words[..n - 1];
      OneWordLess(text, gaps, words);
    }
  }

  /** A title gives one name. */
  lemma GivesOne(title: string, one: string, other: string)
    requires Gives(title, one) && Gives(title, other)
    ensures one == other
  {
    var gaps, words :| CutInto(title, gaps, words) && one == Joined(words);
    var others, more :| CutInto(title, others, more) && other == Joined(more);
    CutOneWay(title, gaps, words, others, more);
  }

  // ---- which items are named so

  /** Whether a title is written as a text; a list, a mapping and nothing are never. */
  predicate WrittenAs(title: Tree, text: string)
  {
    match title
    case Leaf(Str(own)) => text == own
    case Leaf(Truth(told)) => text == if told then "true" else "false"
    case Leaf(Whole(n)) => text == if n < 0 then "-" + Digits(-n) else Digits(n)
    case Leaf(Fraction(written)) => text == written
    case _ => false
  }

  /** Whether a name is what an item at a place is called by, counted from 1: what its title gives, if it has one that is
      written as text, or else that place. */
  ghost predicate CalledBy(item: Tree, place: nat, name: string)
    requires item.Mapping?
  {
    var title := Get(item.entries, Str("title"));
    if title.Some? && exists text :: WrittenAs(title.value, text) then
      exists text :: WrittenAs(title.value, text) && Gives(text, name)
    else name == Digits(place)
  }

  /** An item that carries no name is given the first free of what it is called by and its numbers, from 2 up. */
  lemma GivenWhatItIsCalledBy(items: seq<Tree>, k: nat)
    requires k < |items| && Unnamed(items[k])
    ensures exists name ::
      CalledBy(items[k], k + 1, name) && FirstFree(name, ItemNames.Carried(items) + GivenTo(items, k), NameOf(items, k))
  {
    var base := Base(items[k], k + 1);
    var title := Title(Get(items[k].entries, TITLE));
    hide Slug, Gives, FirstFree;
    if title.Some? {
      var value := Get(items[k].entries, Str("title"));
      assert WrittenAs(value.value, title.value);
      SlugIsItsPieces(title.value);
    }
    assert CalledBy(items[k], k + 1, base);
    assert FirstFree(base, ItemNames.Carried(items) + GivenTo(items, k), NameOf(items, k));
  }
}
