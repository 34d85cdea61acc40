/** Replacing the generated region of a document. */
module Splice {
  import opened Text

  const BEGIN_SENTINEL := "BEGIN GENERATED RELEASE FACTS"
  const END_SENTINEL := "END GENERATED RELEASE FACTS"

  predicate Contains(line: string, part: string) {
    exists k :: 0 <= k <= |line| && StandsAt(line, part, k)
  }

  predicate StandsAt(line: string, part: string, k: nat) {
    k + |part| <= |line| && line[k..k + |part|] == part
  }

  predicate Opens(line: string) {
    Contains(line, BEGIN_SENTINEL)
  }

  predicate Ends(line: string) {
    Contains(line, END_SENTINEL)
  }

  /** The characters that end a line, for Python's `str.splitlines`. */
  predicate EndsLine(c: char) {
    '\n' <= c <= '\r' || '\U{001C}' <= c <= '\U{001E}' || c == '\U{0085}' || c == '\U{2028}' || c == '\U{2029}'
  }

  /** How long the first line of a text is, with what ends it. */
  function FirstLine(s: string): (n: nat)
    requires s != ""
    ensures 0 < n <= |s|
  {
    if EndsLine(s[0]) || |s| == 1 then 1 else 1 + FirstLine(s[1..])
  }

  /** The lines of a text, each with what ends it. */
  function LinesOf(s: string): seq<string>
    decreases |s|
  {
    if s == "" then [] else [s[..FirstLine(s)]] + LinesOf(s[FirstLine(s)..])
  }

  function Glue(lines: seq<string>): string {
    if lines == [] then "" else lines[0] + Glue(lines[1..])
  }

  // --- finding the region ---------------------------------------------------

  /** The first line that opens the region, or the number of lines. */
  function BeginAt(lines: seq<string>): (n: nat)
    ensures n <= |lines|
    ensures n < |lines| ==> Opens(lines[n])
    ensures forall i :: 0 <= i < n ==> !Opens(lines[i])
  {
    if lines == [] || Opens(lines[0]) then 0 else 1 + BeginAt(lines[1..])
  }

  /** The last line that closes the region, other than the one at `begin`. */
  function EndAt(lines: seq<string>, begin: nat): (n: Option<nat>)
    ensures n.Some? ==> n.value < |lines| && n.value != begin && Ends(lines[n.value])
    ensures forall i :: (if n.Some? then n.value else -1) < i < |lines| && i != begin ==> !Ends(lines[i])
  {
    if lines == [] then None
    else if |lines| - 1 != begin && Ends(lines[|lines| - 1]) then Some(|lines| - 1)
    else EndAt(lines[..|lines| - 1], begin)
  }

  /** The lines before the region, those of it, and those after it. */
  datatype Region = Region(before: seq<string>, inside: seq<string>, after: seq<string>)

  datatype Found = Found(region: Region) | NoMarkers | WrongOrder

  function FindRegion(lines: seq<string>): Found {
    var begin := BeginAt(lines);
    if begin == |lines| || EndAt(lines, begin).None? then NoMarkers
    else
      var end := EndAt(lines, begin).value;
      if end < begin then WrongOrder
      else Found(Region(lines[..begin], lines[begin..end + 1], lines[end + 1..]))
  }

  datatype Spliced = Replaced(text: string) | Refused(why: Found)

  /** What a document becomes when its region is replaced. */
  function Replace(document: string, block: string): Spliced {
    match FindRegion(LinesOf(document))
    case Found(region) => Replaced(Glue(region.before) + block + "\n" + Glue(region.after))
    case why => Refused(why)
  }

  /** The marks seen in the first `n` lines. */
  ghost predicate Marked(lines: seq<string>, n: nat, begin: Option<nat>, end: Option<nat>)
    requires n <= |lines|
  {
    && (if begin.Some? then begin.value < n && begin.value == BeginAt(lines) else n <= BeginAt(lines))
    && end == EndAt(lines[..n], BeginAt(lines))
  }

  lemma MarkNext(lines: seq<string>, n: nat, begin: Option<nat>, end: Option<nat>)
    requires n < |lines| && Marked(lines, n, begin, end)
    ensures Opens(lines[n]) && begin.None? ==> Marked(lines, n + 1, Some(n), end)
    ensures !(Opens(lines[n]) && begin.None?) ==> Marked(lines, n + 1, begin, if Ends(lines[n]) then Some(n) else end)
  {
    assert lines[..n + 1][..n] == lines[..n];
  }

  lemma MarkedAll(lines: seq<string>, begin: Option<nat>, end: Option<nat>)
    requires Marked(lines, |lines|, begin, end)
    ensures FindRegion(lines) ==
            if begin.None? || end.None? then NoMarkers
            else if end.value < begin.value then WrongOrder
            else Found(Region(lines[..begin.value], lines[begin.value..end.value + 1], lines[end.value + 1..]))
  {
    assert lines[..|lines|] == lines;
  }

  /** What the marks that are found make of the document. */
  lemma ReplaceMarked(document: string, block: string, begin: Option<nat>, end: Option<nat>)
    requires Marked(LinesOf(document), |LinesOf(document)|, begin, end)
    ensures var lines := LinesOf(document);
            if begin.None? || end.None? then Replace(document, block) == Refused(NoMarkers)
            else if end.value < begin.value then Replace(document, block) == Refused(WrongOrder)
            else
              end.value < |lines| &&
              Replace(document, block) ==
              Replaced(Glue(lines[..begin.value]) + block + "\n" + Glue(lines[end.value + 1..]))
  {
    MarkedAll(LinesOf(document), begin, end);
  }

  method SpliceBlock(document: string, block: string) returns (result: Spliced)
    ensures result == Replace(document, block)
  {
    var lines := LinesOf(document);
    var begin: Option<nat>, end: Option<nat> := None, None;
    for index := 0 to |lines|
      invariant Marked(lines, index, begin, end)
    {
      MarkNext(lines, index, begin, end);
      if Opens(lines[index]) && begin.None? {
        begin := Some(index);
      } else if Ends(lines[index]) {
        end := Some(index);
      }
    }
    ReplaceMarked(document, block, begin, end);
    if begin.None? || end.None? {
      return Refused(NoMarkers);
    }
    if end.value < begin.value {
      return Refused(WrongOrder);
    }
    return Replaced(Glue(lines[..begin.value]) + block + "\n" + Glue(lines[end.value + 1..]));
  }

  // --- lines of texts put together ------------------------------------------

  /** One line: nothing ends it before its last character. */
  predicate IsLine(line: string) {
    line != "" && forall i :: 0 <= i < |line| - 1 ==> !EndsLine(line[i])
  }

  predicate Whole(line: string) {
    IsLine(line) && EndsLine(line[|line| - 1])
  }

  /** Lines of which all but the last are whole. */
  predicate AreLines(lines: seq<string>) {
    forall i :: 0 <= i < |lines| ==> IsLine(lines[i]) && (i < |lines| - 1 ==> Whole(lines[i]))
  }

  lemma {:induction false} FirstLineIsLine(s: string)
    requires s != ""
    ensures IsLine(s[..FirstLine(s)])
    ensures FirstLine(s) < |s| ==> Whole(s[..FirstLine(s)])
  {
    if !EndsLine(s[0]) && |s| > 1 {
      FirstLineIsLine(s[1..]);
      var n := FirstLine(s);
      assert forall i :: 1 <= i < n ==> s[..n][i] == s[1..][..n - 1][i - 1];
    }
  }

  lemma LinesFirst(line: string, rest: seq<string>)
    requires IsLine(line) && AreLines(rest) && (rest == [] || Whole(line))
    ensures AreLines([line] + rest) && Glue([line] + rest) == line + Glue(rest)
  {
    assert ([line] + rest)[1..] == rest;
  }

  /** Splitting gives lines, and gluing them gives the text back. */
  lemma {:induction false} LinesGlue(s: string)
    ensures AreLines(LinesOf(s)) && Glue(LinesOf(s)) == s
    decreases |s|
  {
    if s != "" {
      var n := FirstLine(s);
      FirstLineIsLine(s);
      LinesGlue(s[n..]);
      LinesFirst(s[..n], LinesOf(s[n..]));
      assert n == |s| ==> s[n..] == "";
      assert s == s[..n] + s[n..];
    }
  }

  lemma {:induction false} FirstLineOf(line: string, rest: string)
    requires IsLine(line) && (rest == "" || Whole(line))
    ensures FirstLine(line + rest) == |line|
    decreases |line|
  {
    if |line| > 1 {
      assert (line + rest)[1..] == line[1..] + rest;
      assert forall i :: 0 <= i < |line| - 2 ==> line[1..][i] == line[i + 1];
      assert line[1..][|line| - 2] == line[|line| - 1];
      FirstLineOf(line[1..], rest);
    }
  }

  /** Lines that are glued are the lines of the text they make. */
  lemma {:induction false} GluedLines(lines: seq<string>)
    requires AreLines(lines)
    ensures LinesOf(Glue(lines)) == lines
  {
    if lines != [] {
      var rest := Glue(lines[1..]);
      GluedLines(lines[1..]);
      assert |lines| == 1 ==> rest == "";
      FirstLineOf(lines[0], rest);
      assert (lines[0] + rest)[..|lines[0]|] == lines[0] && (lines[0] + rest)[|lines[0]|..] == rest;
    }
  }

  lemma {:induction false} GlueBoth(a: seq<string>, b: seq<string>)
    ensures Glue(a + b) == Glue(a) + Glue(b)
  {
    if a == [] {
      assert a + b == b;
    } else {
      assert (a + b)[1..] == a[1..] + b;
      GlueBoth(a[1..], b);
    }
  }

  /** The lines a block becomes when a newline ends it. */
  function BlockLines(block: string): seq<string> {
    LinesOf(block + "\n")
  }

  lemma {:induction false} LastCharacter(lines: seq<string>)
    requires lines != [] && AreLines(lines)
    ensures Glue(lines) != "" && Glue(lines)[|Glue(lines)| - 1] == lines[|lines| - 1][|lines[|lines| - 1]| - 1]
  {
    if |lines| > 1 {
      LastCharacter(lines[1..]);
    } else {
      assert Glue(lines) == lines[0];
    }
  }

  lemma BlockIsWhole(block: string)
    ensures AreLines(BlockLines(block)) && BlockLines(block) != []
    ensures forall i :: 0 <= i < |BlockLines(block)| ==> Whole(BlockLines(block)[i])
    ensures Glue(BlockLines(block)) == block + "\n"
  {
    LinesGlue(block + "\n");
    LastCharacter(BlockLines(block));
  }

  // --- what splicing keeps --------------------------------------------------

  /** The lines open with the begin marker and close with the end marker, on
      different lines. */
  predicate Framed(lines: seq<string>) {
    |lines| > 1 && Opens(lines[0]) && Ends(lines[|lines| - 1])
  }

  predicate NoneOpens(lines: seq<string>) {
    forall i :: 0 <= i < |lines| ==> !Opens(lines[i])
  }

  predicate NoneEnds(lines: seq<string>) {
    forall i :: 0 <= i < |lines| ==> !Ends(lines[i])
  }

  /** The region that is found takes the first begin marker and the last end marker. */
  lemma FoundParts(lines: seq<string>)
    requires FindRegion(lines).Found?
    ensures var r := FindRegion(lines).region;
            && lines == r.before + r.inside + r.after
            && Framed(r.inside) && NoneOpens(r.before) && NoneEnds(r.after)
  {
    var begin := BeginAt(lines);
    var end := EndAt(lines, begin).value;
    Halves(lines, end + 1);
    Halves(lines[..end + 1], begin);
    assert lines[..end + 1][..begin] == lines[..begin] && lines[..end + 1][begin..] == lines[begin..end + 1];
  }

  lemma {:induction false} BeginIs(lines: seq<string>, n: nat)
    requires n < |lines| && Opens(lines[n]) && NoneOpens(lines[..n])
    ensures BeginAt(lines) == n
  {
    if n > 0 {
      assert lines[..n][0] == lines[0] && lines[1..][..n - 1] == lines[..n][1..];
      BeginIs(lines[1..], n - 1);
    }
  }

  lemma {:induction false} EndIs(front: seq<string>, after: seq<string>, begin: nat)
    requires begin < |front| - 1 && Ends(front[|front| - 1]) && NoneEnds(after)
    ensures EndAt(front + after, begin) == Some(|front| - 1)
    decreases |after|
  {
    if after == [] {
      assert front + after == front;
    } else {
      var lines := front + after;
      assert lines[..|lines| - 1] == front + after[..|after| - 1];
      EndIs(front, after[..|after| - 1], begin);
    }
  }

  /** A framed run of lines, with no begin marker before it and no end marker after
      it, is the region that is found. */
  lemma FoundIs(r: Region)
    requires Framed(r.inside) && NoneOpens(r.before) && NoneEnds(r.after)
    ensures FindRegion(r.before + r.inside + r.after) == Found(r)
  {
    var front := r.before + r.inside;
    var lines := front + r.after;
    assert lines[..|r.before|] == r.before;
    BeginIs(lines, |r.before|);
    EndIs(front, r.after, |r.before|);
    assert lines[|r.before|..|front|] == r.inside && lines[|front|..] == r.after;
  }

  lemma PartsAreLines(before: seq<string>, inside: seq<string>, block: seq<string>, after: seq<string>)
    requires AreLines(before + inside + after) && inside != []
    requires forall i :: 0 <= i < |block| ==> Whole(block[i])
    ensures AreLines(before + block + after)
  {
    var lines, now := before + inside + after, before + block + after;
    forall i | 0 <= i < |now|
      ensures IsLine(now[i]) && (i < |now| - 1 ==> Whole(now[i]))
    {
      if i < |before| {
        assert now[i] == lines[i];
      } else if i >= |before + block| {
        assert now[i] == lines[i - |block| + |inside|];
      }
    }
  }

  /** The lines of a document whose region was replaced: those before the region,
      those of the block, and those after. */
  lemma ReplacedLines(document: string, block: string)
    requires FindRegion(LinesOf(document)).Found?
    ensures var r := FindRegion(LinesOf(document)).region;
            LinesOf(Replace(document, block).text) == r.before + BlockLines(block) + r.after
  {
    var r := FindRegion(LinesOf(document)).region;
    var now := r.before + BlockLines(block) + r.after;
    LinesGlue(document);
    FoundParts(LinesOf(document));
    BlockIsWhole(block);
    PartsAreLines(r.before, r.inside, BlockLines(block), r.after);
    GluedLines(now);
    GluedParts(r.before, BlockLines(block), r.after);
    Reglued(Glue(r.before), block, Glue(r.after));
  }

  lemma GluedParts(a: seq<string>, b: seq<string>, c: seq<string>)
    ensures Glue(a + b + c) == Glue(a) + Glue(b) + Glue(c)
  {
    GlueBoth(a, b);
    GlueBoth(a + b, c);
  }

  lemma Reglued(a: string, block: string, c: string)
    ensures a + (block + "\n") + c == a + block + "\n" + c
  {
  }

  /** After a framed block is spliced in, the region is that block, and the text
      before it and after it is as it was. */
  lemma RegionIsBlock(document: string, block: string)
    requires Framed(BlockLines(block)) && FindRegion(LinesOf(document)).Found?
    ensures FindRegion(LinesOf(Replace(document, block).text)) ==
            Found(FindRegion(LinesOf(document)).region.(inside := BlockLines(block)))
  {
    ReplacedLines(document, block);
    FoundParts(LinesOf(document));
    FoundIs(FindRegion(LinesOf(document)).region.(inside := BlockLines(block)));
  }

  /** Splicing a second block in has the same result as if the first had never been
      there, so splicing one block twice is the same as once. */
  lemma SpliceAbsorbs(document: string, first: string, second: string)
    requires Framed(BlockLines(first)) && Replace(document, first).Replaced?
    ensures Replace(Replace(document, first).text, second) == Replace(document, second)
  {
    RegionIsBlock(document, first);
  }

  /** Splicing reaches a fixpoint; everything outside the region, which is framed by
      the first begin marker and the last end marker, is untouched. */
  lemma SpliceIsFixpoint(document: string, block: string)
    requires Framed(BlockLines(block)) && Replace(document, block).Replaced?
    ensures Replace(Replace(document, block).text, block) == Replace(document, block)
    ensures var r := FindRegion(LinesOf(document)).region;
            && document == Glue(r.before) + Glue(r.inside) + Glue(r.after)
            && Replace(document, block).text == Glue(r.before) + block + "\n" + Glue(r.after)
            && Framed(r.inside) && NoneOpens(r.before) && NoneEnds(r.after)
  {
    SpliceAbsorbs(document, block, block);
    var r := FindRegion(LinesOf(document)).region;
    LinesGlue(document);
    FoundParts(LinesOf(document));
    GluedParts(r.before, r.inside, r.after);
  }

  predicate SingleLine(s: string) {
    forall i :: 0 <= i < |s| ==> !EndsLine(s[i])
  }

  /** A block whose first line holds the begin marker and whose last line holds the
      end marker is framed, whatever is between them. */
  lemma FramedBlock(opening: string, middle: string, closing: string)
    requires SingleLine(opening) && Opens(opening) && SingleLine(closing) && Ends(closing)
    ensures Framed(BlockLines(opening + "\n" + middle + "\n" + closing))
  {
    var lines := [opening + "\n"] + BlockLines(middle) + [closing + "\n"];
    FrameLines(opening, middle, closing);
    FrameText(opening, middle, closing);
    GluedLines(lines);
    StillStands(opening, BEGIN_SENTINEL);
    StillStands(closing, END_SENTINEL);
  }

  lemma FrameLines(opening: string, middle: string, closing: string)
    requires SingleLine(opening) && SingleLine(closing)
    ensures AreLines([opening + "\n"] + BlockLines(middle) + [closing + "\n"])
  {
    BlockIsWhole(middle);
    assert Whole(opening + "\n") && Whole(closing + "\n");
  }

  lemma FrameText(opening: string, middle: string, closing: string)
    ensures Glue([opening + "\n"] + BlockLines(middle) + [closing + "\n"]) ==
            opening + "\n" + middle + "\n" + closing + "\n"
  {
    BlockIsWhole(middle);
    GluedParts([opening + "\n"], BlockLines(middle), [closing + "\n"]);
    GlueOne(opening + "\n");
    GlueOne(closing + "\n");
    FrameJoin(opening, middle, closing, "\n");
  }

  lemma FrameJoin(a: string, b: string, c: string, end: string)
    ensures a + end + (b + end) + (c + end) == a + end + b + end + c + end
  {
  }

  lemma GlueOne(line: string)
    ensures Glue([line]) == line
  {
    assert [line][1..] == [];
  }

  lemma StillStands(line: string, part: string)
    requires Contains(line, part)
    ensures Contains(line + "\n", part)
  {
    var k :| 0 <= k <= |line| && StandsAt(line, part, k);
    assert (line + "\n")[k..k + |part|] == line[k..k + |part|];
    assert StandsAt(line + "\n", part, k);
  }
}
