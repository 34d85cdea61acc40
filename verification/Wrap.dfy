/** The line wrapper: greedy filling under a first and a rest prefix, and why no
    other way of breaking the words has fewer lines. */
module Wrap {
  import opened Text
  import opened Tokenizer

  // --- words and widths -----------------------------------------------------

  /** The runs of text between whitespace. */
  function WordsIn(s: string): (words: seq<string>)
    ensures forall w :: w in words ==> w != "" && forall i :: 0 <= i < |w| ==> !IsWhitespace(w[i])
    decreases |s|
  {
    if s == "" then []
    else if IsWhitespace(s[0]) then WordsIn(s[1..])
    else [s[..BareLength(s)]] + WordsIn(s[BareLength(s)..])
  }

  /** The length of a character's UTF-8 form. */
  function CharBytes(c: char): (n: nat)
    ensures 1 <= n <= 4
  {
    if c < '\U{0080}' then 1 else if c < '\U{0800}' then 2 else if c < '\U{10000}' then 3 else 4
  }

  /** The length of a string's UTF-8 form, which is what widths count. */
  function Bytes(s: string): nat {
    if s == "" then 0 else CharBytes(s[0]) + Bytes(s[1..])
  }

  lemma {:induction false} BytesAppend(a: string, b: string)
    ensures Bytes(a + b) == Bytes(a) + Bytes(b)
    decreases |a|
  {
    if a == "" {
      assert a + b == b;
    } else {
      assert (a + b)[1..] == a[1..] + b;
      BytesAppend(a[1..], b);
    }
  }

  /** The width that is counted is the number of characters exactly for ASCII text;
      it is more for any other. */
  lemma {:induction false} BytesAreColumns(s: string)
    ensures Bytes(s) >= |s|
    ensures Bytes(s) == |s| <==> forall i :: 0 <= i < |s| ==> s[i] < '\U{0080}'
  {
    if s != "" {
      BytesAreColumns(s[1..]);
      assert forall i :: 0 < i < |s| ==> s[i] == s[1..][i - 1];
    }
  }

  // --- layouts --------------------------------------------------------------

  /** Words broken into lines. */
  type Layout = seq<seq<string>>

  function Concat(lines: Layout): seq<string> {
    if lines == [] then [] else lines[0] + Concat(lines[1..])
  }

  function LineWidth(prefix: string, line: seq<string>): nat {
    Bytes(prefix) + Bytes(Join(line))
  }

  /** A line holds a word, and holds more than one only if it fits. */
  predicate Fits(prefix: string, line: seq<string>, width: nat) {
    line != [] && (|line| == 1 || LineWidth(prefix, line) <= width)
  }

  /** Every line of the layout fits, the first after its own prefix. */
  predicate Proper(lines: Layout, width: nat, first: string, rest: string) {
    forall i :: 0 <= i < |lines| ==> Fits(if i == 0 then first else rest, lines[i], width)
  }

  function Rendered(lines: Layout, first: string, rest: string): seq<string> {
    if lines == [] then [] else [first + Join(lines[0])] + Rendered(lines[1..], rest, rest)
  }

  /** Lines with a newline between neighbours. */
  function Lines(lines: seq<string>): string {
    if |lines| == 0 then ""
    else if |lines| == 1 then lines[0]
    else lines[0] + "\n" + Lines(lines[1..])
  }

  // --- the greedy layout ----------------------------------------------------

  /** How many more words go on a line that is `used` wide. */
  function Room(width: nat, used: nat, words: seq<string>): (n: nat)
    ensures n <= |words|
    decreases |words|
  {
    if words == [] || used + 1 + Bytes(words[0]) > width then 0
    else 1 + Room(width, used + 1 + Bytes(words[0]), words[1..])
  }

  /** How many words the next line takes: as many as fit, and at least one. */
  function Taken(words: seq<string>, width: nat, prefix: string): (n: nat)
    requires words != []
    ensures 1 <= n <= |words|
  {
    1 + Room(width, Bytes(prefix) + Bytes(words[0]), words[1..])
  }

  /** Each line filled before the next is begun. */
  function Greedy(words: seq<string>, width: nat, first: string, rest: string): Layout
    requires words != []
  {
    var n := Taken(words, width, first);
    if n == |words| then [words] else [words[..n]] + Greedy(words[n..], width, rest, rest)
  }

  // --- the loop -------------------------------------------------------------

  /** The lines that come of going on with `line`. */
  function Continued(line: string, words: seq<string>, width: nat, rest: string): seq<string>
    decreases |words|
  {
    if words == [] then [line]
    else if Bytes(line) + 1 + Bytes(words[0]) > width then
      [line] + Continued(rest + words[0], words[1..], width, rest)
    else Continued(line + " " + words[0], words[1..], width, rest)
  }

  lemma {:induction false} JoinGrows(line: seq<string>, word: string)
    requires line != []
    ensures Join(line + [word]) == Join(line) + " " + word
  {
    if |line| == 1 {
      assert (line + [word])[1..] == [word];
    } else {
      JoinGrows(line[1..], word);
      assert (line + [word])[1..] == line[1..] + [word];
    }
  }

  /** A line takes the next word as long as there is room. */
  lemma {:induction false} ContinuedFills(prefix: string, line: seq<string>, words: seq<string>, width: nat,
                                          rest: string)
    requires line != []
    ensures var n := Room(width, LineWidth(prefix, line), words);
            Continued(prefix + Join(line), words, width, rest) ==
            if n == |words| then [prefix + Join(line + words)]
            else [prefix + Join(line + words[..n])] + Continued(rest + words[n], words[n + 1..], width, rest)
    decreases |words|
  {
    var n := Room(width, LineWidth(prefix, line), words);
    BytesAppend(prefix, Join(line));
    if n == 0 {
      assert line + words[..0] == line;
      assert words == [] ==> line + words == line;
    } else {
      var more := line + [words[0]];
      ContinuedTakes(prefix, line, words, width, rest);
      ContinuedFills(prefix, more, words[1..], width, rest);
      FillsMore(line, words, n);
    }
  }

  lemma ContinuedTakes(prefix: string, line: seq<string>, words: seq<string>, width: nat, rest: string)
    requires line != [] && words != [] && LineWidth(prefix, line) + 1 + Bytes(words[0]) <= width
    ensures Continued(prefix + Join(line), words, width, rest) ==
            Continued(prefix + Join(line + [words[0]]), words[1..], width, rest)
    ensures LineWidth(prefix, line + [words[0]]) == LineWidth(prefix, line) + 1 + Bytes(words[0])
  {
    BytesAppend(prefix, Join(line));
    JoinGrows(line, words[0]);
    GrownWidth(prefix, line, words[0]);
    assert prefix + Join(line) + " " + words[0] == prefix + (Join(line) + " " + words[0]);
  }

  lemma FillsMore(line: seq<string>, words: seq<string>, n: nat)
    requires 1 <= n <= |words|
    ensures line + [words[0]] + words[1..] == line + words
    ensures line + [words[0]] + words[1..][..n - 1] == line + words[..n]
    ensures n < |words| ==> words[1..][n - 1] == words[n] && words[1..][n..] == words[n + 1..]
  {
  }

  lemma GrownWidth(prefix: string, line: seq<string>, word: string)
    requires line != []
    ensures LineWidth(prefix, line + [word]) == LineWidth(prefix, line) + 1 + Bytes(word)
  {
    JoinGrows(line, word);
    BytesAppend(Join(line) + " ", word);
    BytesAppend(Join(line), " ");
    assert Bytes(" ") == 1 + Bytes("");
  }

  /** Starting a line on a word and going on gives the greedy layout. */
  lemma {:induction false} ContinuedIsGreedy(prefix: string, words: seq<string>, width: nat, rest: string)
    requires words != []
    ensures Continued(prefix + words[0], words[1..], width, rest) ==
            Rendered(Greedy(words, width, prefix, rest), prefix, rest)
    decreases |words|
  {
    var n := Taken(words, width, prefix);
    var line := [words[0]];
    ContinuedFills(prefix, line, words[1..], width, rest);
    assert line + words[1..] == words;
    if n < |words| {
      assert line + words[1..][..n - 1] == words[..n];
      ContinuedIsGreedy(rest, words[n..], width, rest);
      assert words[1..][n - 1..][1..] == words[n..][1..];
    }
  }

  /** After the first `i` words: nothing is written yet, or the line in hand has a
      word and going on from it gives all the lines. */
  ghost predicate Progress(lines: seq<string>, line: string, prefixLength: nat, words: seq<string>, i: nat,
                           width: nat, first: string, rest: string)
    requires i <= |words|
  {
    if i == 0 then lines == [] && line == first && prefixLength == Bytes(first)
    else Bytes(line) > prefixLength &&
         lines + Continued(line, words[i..], width, rest) == Continued(first + words[0], words[1..], width, rest)
  }

  lemma HasContent(line: string, word: string)
    requires word != ""
    ensures Bytes(line + word) > Bytes(line)
    ensures Bytes(line + " ") > Bytes(line)
  {
    BytesAppend(line, word);
    BytesAppend(line, " ");
  }

  lemma FirstWord(words: seq<string>, width: nat, first: string, rest: string)
    requires words != [] && words[0] != ""
    ensures Progress([], first + words[0], Bytes(first), words, 1, width, first, rest)
  {
    HasContent(first, words[0]);
    assert [] + Continued(first + words[0], words[1..], width, rest) ==
           Continued(first + words[0], words[1..], width, rest);
  }

  lemma NextLine(lines: seq<string>, line: string, prefixLength: nat, words: seq<string>, i: nat, width: nat,
                 first: string, rest: string)
    requires 0 < i < |words| && words[i] != "" && Progress(lines, line, prefixLength, words, i, width, first, rest)
    requires Bytes(line) + 1 + Bytes(words[i]) > width
    ensures Progress(lines + [line], rest + words[i], Bytes(rest), words, i + 1, width, first, rest)
  {
    HasContent(rest, words[i]);
    assert words[i..][0] == words[i] && words[i..][1..] == words[i + 1..];
    Assoc(lines, [line], Continued(rest + words[i], words[i + 1..], width, rest));
  }

  lemma SameLine(lines: seq<string>, line: string, prefixLength: nat, words: seq<string>, i: nat, width: nat,
                 first: string, rest: string)
    requires 0 < i < |words| && words[i] != "" && Progress(lines, line, prefixLength, words, i, width, first, rest)
    requires Bytes(line) + 1 + Bytes(words[i]) <= width
    ensures Progress(lines, line + " " + words[i], prefixLength, words, i + 1, width, first, rest)
  {
    HasContent(line, words[i]);
    HasContent(line + " ", words[i]);
    assert words[i..][0] == words[i] && words[i..][1..] == words[i + 1..];
  }

  method Wrap(text: string, width: nat, first: string, rest: string) returns (wrapped: string)
    ensures wrapped ==
            if WordsIn(text) == [] then first
            else Lines(Rendered(Greedy(WordsIn(text), width, first, rest), first, rest))
  {
    var words := WordsIn(text);
    var lines: seq<string> := [];
    var line, prefixLength := first, Bytes(first);
    for i := 0 to |words|
      invariant Progress(lines, line, prefixLength, words, i, width, first, rest)
    {
      var word := words[i];
      assert word in words;
      var hasContent := Bytes(line) > prefixLength;
      if hasContent && Bytes(line) + 1 + Bytes(word) > width {
        NextLine(lines, line, prefixLength, words, i, width, first, rest);
        lines := lines + [line];
        line, prefixLength := rest, Bytes(rest);
      } else if hasContent {
        SameLine(lines, line, prefixLength, words, i, width, first, rest);
        line := line + " ";
      } else {
        FirstWord(words, width, first, rest);
      }
      line := line + word;
    }
    if words != [] {
      ContinuedIsGreedy(first, words, width, rest);
    }
    wrapped := Lines(lines + [line]);
  }

  // --- what the greedy layout keeps -----------------------------------------

  /** Every word is kept, in order. */
  lemma ConcatFirst(line: seq<string>, more: Layout)
    ensures Concat([line] + more) == line + Concat(more)
  {
    assert ([line] + more)[1..] == more;
  }

  lemma {:induction false} GreedyKeepsWords(words: seq<string>, width: nat, first: string, rest: string)
    requires words != []
    ensures Concat(Greedy(words, width, first, rest)) == words
    decreases |words|
  {
    var n := Taken(words, width, first);
    if n == |words| {
      assert Concat([words]) == words;
    } else {
      GreedyKeepsWords(words[n..], width, rest, rest);
      ConcatFirst(words[..n], Greedy(words[n..], width, rest, rest));
      Halves(words, n);
    }
  }

  lemma {:induction false} RoomFits(prefix: string, line: seq<string>, words: seq<string>, width: nat, n: nat)
    requires line != [] && n <= Room(width, LineWidth(prefix, line), words) && n > 0
    ensures LineWidth(prefix, line + words[..n]) <= width
    decreases n
  {
    GrownWidth(prefix, line, words[0]);
    var more := line + [words[0]];
    if n == 1 {
      assert words[..1] == [words[0]];
    } else {
      RoomFits(prefix, more, words[1..], width, n - 1);
      assert more + words[1..][..n - 1] == line + words[..n];
    }
  }

  lemma TakenFits(words: seq<string>, width: nat, prefix: string)
    requires words != []
    ensures Fits(prefix, words[..Taken(words, width, prefix)], width)
  {
    var n := Taken(words, width, prefix);
    if n > 1 {
      RoomFits(prefix, [words[0]], words[1..], width, n - 1);
      assert [words[0]] + words[1..][..n - 1] == words[..n];
    }
  }

  /** A line is wider than the width only if it is a single word. */
  lemma {:induction false} GreedyFits(words: seq<string>, width: nat, first: string, rest: string)
    requires words != []
    ensures Proper(Greedy(words, width, first, rest), width, first, rest)
    decreases |words|
  {
    var n := Taken(words, width, first);
    TakenFits(words, width, first);
    assert words[..|words|] == words;
    if n < |words| {
      GreedyFits(words[n..], width, rest, rest);
    }
  }

  // --- no layout has fewer lines --------------------------------------------

  lemma {:induction false} RoomIsMost(prefix: string, line: seq<string>, words: seq<string>, width: nat, m: nat)
    requires line != [] && m <= |words| && (m > 0 ==> LineWidth(prefix, line + words[..m]) <= width)
    ensures m <= Room(width, LineWidth(prefix, line), words)
    decreases m
  {
    if m > 0 {
      var more := line + [words[0]];
      GrownWidth(prefix, line, words[0]);
      assert more + words[1..][..m - 1] == line + words[..m];
      WiderWithMore(prefix, more, words[1..][..m - 1]);
      RoomIsMost(prefix, more, words[1..], width, m - 1);
    }
  }

  lemma {:induction false} WiderWithMore(prefix: string, line: seq<string>, more: seq<string>)
    requires line != []
    ensures LineWidth(prefix, line) <= LineWidth(prefix, line + more)
    decreases |more|
  {
    if more == [] {
      assert line + more == line;
    } else {
      GrownWidth(prefix, line, more[0]);
      WiderWithMore(prefix, line + [more[0]], more[1..]);
      assert line + [more[0]] + more[1..] == line + more;
    }
  }

  /** A line that fits takes no more words than the greedy one. */
  lemma TakenIsMost(words: seq<string>, width: nat, prefix: string, m: nat)
    requires 1 <= m <= |words| && Fits(prefix, words[..m], width)
    ensures m <= Taken(words, width, prefix)
  {
    if m > 1 {
      assert [words[0]] + words[1..][..m - 1] == words[..m];
      RoomIsMost(prefix, [words[0]], words[1..], width, m - 1);
    }
  }

  /** The layout without its first `k` words. */
  function Drop(lines: Layout, k: nat): (r: Layout)
    requires k <= |Concat(lines)|
    ensures |r| <= |lines|
  {
    if k == 0 then lines
    else if k < |lines[0]| then [lines[0][k..]] + lines[1..]
    else Drop(lines[1..], k - |lines[0]|)
  }

  lemma {:induction false} NarrowerLater(prefix: string, line: seq<string>, k: nat)
    requires k < |line|
    ensures LineWidth(prefix, line[k..]) <= LineWidth(prefix, line)
    decreases k
  {
    if k == 0 {
      assert line[0..] == line;
    } else {
      NarrowerLater(prefix, line[1..], k - 1);
      assert line[1..][k - 1..] == line[k..];
      BytesAppend(line[0] + " ", Join(line[1..]));
    }
  }

  /** Dropping words from the front keeps a layout proper. */
  lemma {:induction false} DropKeeps(lines: Layout, width: nat, rest: string, k: nat)
    requires k <= |Concat(lines)| && Proper(lines, width, rest, rest)
    ensures Proper(Drop(lines, k), width, rest, rest)
    ensures Concat(Drop(lines, k)) == Concat(lines)[k..]
    decreases |lines|
  {
    if k > 0 {
      assert Fits(rest, lines[0], width);
      if k < |lines[0]| {
        NarrowerLater(rest, lines[0], k);
        assert Drop(lines, k)[1..] == lines[1..];
        assert Concat(lines)[k..] == lines[0][k..] + Concat(lines[1..]);
      } else {
        DropKeeps(lines[1..], width, rest, k - |lines[0]|);
        assert Concat(lines)[k..] == Concat(lines[1..])[k - |lines[0]|..];
      }
    }
  }

  /** Greedy filling is optimal: of all the ways to break the words into lines
      that fit or hold one word, none has fewer lines. */
  lemma {:induction false} GreedyIsOptimal(words: seq<string>, width: nat, first: string, rest: string, other: Layout)
    requires words != [] && Concat(other) == words && Proper(other, width, first, rest)
    ensures |Greedy(words, width, first, rest)| <= |other|
    decreases |words|
  {
    var n, m := Taken(words, width, first), |other[0]|;
    assert Fits(first, other[0], width);
    assert other[0] == words[..m];
    TakenIsMost(words, width, first, m);
    if n < |words| {
      var later := other[1..];
      assert Concat(later) == words[m..];
      DropKeeps(later, width, rest, n - m);
      assert words[m..][n - m..] == words[n..];
      GreedyIsOptimal(words[n..], width, rest, rest, Drop(later, n - m));
    }
  }

  // --- the text that comes out ----------------------------------------------

  predicate Blank(s: string) {
    forall i :: 0 <= i < |s| ==> IsWhitespace(s[i])
  }

  /** Words on both sides of a boundary. */
  lemma {:induction false} WordsApart(a: string, b: string)
    requires AtBoundary(b)
    ensures WordsIn(a + b) == WordsIn(a) + WordsIn(b)
    decreases |a|
  {
    if a == "" {
      assert a + b == b;
    } else if IsWhitespace(a[0]) {
      assert (a + b)[1..] == a[1..] + b;
      WordsApart(a[1..], b);
    } else {
      var n := BareLength(a);
      BareLengthApart(a, b);
      WordsApart(a[n..], b);
      FirstApart(a, b, n);
      Assoc([a[..n]], WordsIn(a[n..]), WordsIn(b));
    }
  }

  lemma FirstApart(a: string, b: string, n: nat)
    requires n <= |a|
    ensures (a + b)[..n] == a[..n] && (a + b)[n..] == a[n..] + b
  {
  }

  lemma {:induction false} BareLengthApart(a: string, b: string)
    requires AtBoundary(b)
    ensures BareLength(a + b) == BareLength(a)
    decreases |a|
  {
    if a == "" {
      assert a + b == b;
    } else if !IsWhitespace(a[0]) {
      assert (a + b)[1..] == a[1..] + b;
      BareLengthApart(a[1..], b);
    }
  }

  lemma {:induction false} BlankBefore(blank: string, s: string)
    requires Blank(blank)
    ensures WordsIn(blank + s) == WordsIn(s)
    decreases |blank|
  {
    if blank == "" {
      assert blank + s == s;
    } else {
      assert (blank + s)[1..] == blank[1..] + s;
      BlankBefore(blank[1..], s);
    }
  }

  predicate IsWord(w: string) {
    w != "" && forall i :: 0 <= i < |w| ==> !IsWhitespace(w[i])
  }

  lemma OneWordIn(w: string)
    requires IsWord(w)
    ensures WordsIn(w) == [w]
  {
    BareReads(w, "");
    assert w + "" == w && w[..|w|] == w && w[|w|..] == "";
  }

  lemma {:induction false} JoinedWords(words: seq<string>)
    requires forall w :: w in words ==> IsWord(w)
    ensures WordsIn(Join(words)) == words
    decreases |words|
  {
    if |words| == 1 {
      OneWordIn(words[0]);
    } else if |words| > 1 {
      var more := " " + Join(words[1..]);
      OneWordIn(words[0]);
      JoinedWords(words[1..]);
      assert more[1..] == Join(words[1..]);
      assert Join(words) == words[0] + more;
      WordsApart(words[0], more);
    }
  }

  lemma {:induction false} RenderedWords(lines: Layout, first: string, rest: string)
    requires Blank(first) && Blank(rest)
    requires forall i, w :: 0 <= i < |lines| && w in lines[i] ==> IsWord(w)
    ensures WordsIn(Lines(Rendered(lines, first, rest))) == Concat(lines)
    decreases |lines|
  {
    if lines != [] {
      JoinedWords(lines[0]);
      BlankBefore(first, Join(lines[0]));
      RenderedWords(lines[1..], rest, rest);
      if |lines| > 1 {
        var more := "\n" + Lines(Rendered(lines[1..], rest, rest));
        assert more[1..] == Lines(Rendered(lines[1..], rest, rest));
        assert Lines(Rendered(lines, first, rest)) == first + Join(lines[0]) + more;
        WordsApart(first + Join(lines[0]), more);
      } else {
        assert Concat(lines) == lines[0];
      }
    }
  }

  lemma {:induction false} LayoutHolds(lines: Layout, w: string)
    ensures (exists i :: 0 <= i < |lines| && w in lines[i]) ==> w in Concat(lines)
  {
    if lines != [] {
      LayoutHolds(lines[1..], w);
      if i :| 0 <= i < |lines| && w in lines[i] {
        assert i > 0 ==> w in lines[1..][i - 1];
      }
    }
  }

  /** Under prefixes of whitespace, wrapped text has the words of the text, in
      order and no others. */
  lemma WrappedKeepsWords(text: string, width: nat, first: string, rest: string)
    requires Blank(first) && Blank(rest) && WordsIn(text) != []
    ensures WordsIn(Lines(Rendered(Greedy(WordsIn(text), width, first, rest), first, rest))) == WordsIn(text)
  {
    var words := WordsIn(text);
    var lines := Greedy(words, width, first, rest);
    GreedyKeepsWords(words, width, first, rest);
    forall i, w | 0 <= i < |lines| && w in lines[i]
      ensures IsWord(w)
    {
      LayoutHolds(lines, w);
    }
    RenderedWords(lines, first, rest);
  }
}
