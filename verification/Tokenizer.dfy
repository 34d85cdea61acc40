/** The two scanners over a typed line, and the word forms they read back.

    `TokensOf` and `PartialOf` say what the strict and the lenient scanner
    compute, by recursion on the rest of the line; `Tokenize` and `SplitPartial`
    are the loops over an index, proved against them. */
module Tokenizer {
  import opened Text
  import opened Errors

  // --- one token ------------------------------------------------------------

  datatype Quoted = Closed(text: string, rest: string) | Open

  function Unescaped(c: char): char {
    if c == 'n' then '\n' else if c == 't' then '\t' else c
  }

  /** The rest of a quoted token; `s` starts after the opening quote. */
  function ReadQuoted(s: string, text: string): (q: Quoted)
    ensures q.Closed? ==> |q.rest| < |s|
    decreases |s|
  {
    if s == "" then Open
    else if s[0] == '"' then Closed(text, s[1..])
    else if s[0] != '\\' then ReadQuoted(s[1..], text + [s[0]])
    else if |s| == 1 then Open
    else ReadQuoted(s[2..], text + [Unescaped(s[1])])
  }

  /** Where the scan of a brace-balanced run is: how many openers are unclosed,
      whether it is inside a JSON string, and whether the character just read
      was that string's backslash. */
  datatype Braces = Braces(depth: nat, inString: bool, escaped: bool)

  function Advance(b: Braces, c: char): Braces {
    if b.inString then
      if b.escaped then b.(escaped := false)
      else if c == '\\' then b.(escaped := true)
      else if c == '"' then b.(inString := false)
      else b
    else if c == '"' then b.(inString := true)
    else if c == '{' || c == '[' then b.(depth := b.depth + 1)
    else if (c == '}' || c == ']') && b.depth > 0 then b.(depth := b.depth - 1)
    else b
  }

  /** Whether reading `c` ends the run: a closer that leaves nothing unclosed. */
  predicate Closes(b: Braces, c: char) {
    !b.inString && (c == '}' || c == ']') && b.depth <= 1
  }

  /** How much of `s` the run takes, or None when it ends with openers unclosed. */
  function BalancedLength(s: string, b: Braces): (n: Option<nat>)
    ensures n.Some? ==> n.value <= |s|
    decreases |s|
  {
    if s == "" then if b.depth == 0 then Some(0) else None
    else if Closes(b, s[0]) then Some(1)
    else
      var n :- BalancedLength(s[1..], Advance(b, s[0]));
      Some(n + 1)
  }

  /** How far a bare word reaches: up to the next whitespace. */
  function BareLength(s: string): (n: nat)
    ensures n <= |s|
    ensures forall i :: 0 <= i < n ==> !IsWhitespace(s[i])
    ensures n < |s| ==> IsWhitespace(s[n])
  {
    if s == "" || IsWhitespace(s[0]) then 0 else 1 + BareLength(s[1..])
  }

  datatype Step = Token(text: string, rest: string) | Failed(error: ParseError)

  const START := Braces(0, false, false)

  /** The token a line starts with. */
  function NextToken(s: string): (t: Step)
    requires s != "" && !IsWhitespace(s[0])
    ensures t.Token? ==> |t.rest| < |s| && t.rest == s[|s| - |t.rest|..]
  {
    if s[0] == '"' then
      match ReadQuoted(s[1..], "")
      case Open => Failed(UnterminatedQuote)
      case Closed(text, rest) =>
        QuotedRestIsSuffix(s[1..], "");
        Token(text, rest)
    else if s[0] == '{' || s[0] == '[' then
      match BalancedLength(s, START)
      case None => Failed(UnbalancedJson)
      case Some(n) =>
        OpenerTakesSome(s);
        Token(s[..n], s[n..])
    else
      Token(s[..BareLength(s)], s[BareLength(s)..])
  }

  lemma {:induction false} QuotedRestIsSuffix(s: string, text: string)
    ensures ReadQuoted(s, text).Closed? ==>
              ReadQuoted(s, text).rest == s[|s| - |ReadQuoted(s, text).rest|..]
    decreases |s|
  {
    if s != "" && s[0] != '"' {
      if s[0] != '\\' {
        QuotedRestIsSuffix(s[1..], text + [s[0]]);
      } else if |s| > 1 {
        QuotedRestIsSuffix(s[2..], text + [Unescaped(s[1])]);
      }
    }
  }

  lemma OpenerTakesSome(s: string)
    requires s != "" && (s[0] == '{' || s[0] == '[')
    ensures BalancedLength(s, START).Some? ==> BalancedLength(s, START).value > 0
  {
  }

  // --- whole lines ----------------------------------------------------------

  /** The tokens before the first failure, and that failure if there is one. */
  datatype Scanned = Scanned(tokens: seq<string>, failure: Option<ParseError>) {
    function Prepend(before: seq<string>): Scanned {
      this.(tokens := before + tokens)
    }
  }

  function TokensOf(s: string): Scanned
    decreases |s|
  {
    if s == "" then Scanned([], None)
    else if IsWhitespace(s[0]) then TokensOf(s[1..])
    else match NextToken(s)
      case Failed(error) => Scanned([], Some(error))
      case Token(text, rest) => TokensOf(rest).Prepend([text])
  }

  function Strict(s: string): Result<seq<string>, ParseError> {
    match TokensOf(s)
    case Scanned(tokens, None) => Ok(tokens)
    case Scanned(_, Some(error)) => Err(error)
  }

  /** The words already finished, and the text the cursor is in. */
  datatype Partial = Partial(done: seq<string>, current: string) {
    function Prepend(before: seq<string>): Partial {
      this.(done := before + done)
    }
  }

  function PartialOf(s: string): (p: Partial)
    ensures |p.current| <= |s|
    decreases |s|
  {
    if s == "" then Partial([], "")
    else if IsWhitespace(s[0]) then PartialOf(s[1..])
    else match NextToken(s)
      case Failed(_) => Partial([], s)
      case Token(text, rest) =>
        if rest == "" then Partial([], s) else PartialOf(rest).Prepend([text])
  }

  // --- the loops ------------------------------------------------------------

  /** Reads a quoted token from just after its opening quote. */
  method ScanQuoted(line: string, start: nat) returns (closed: bool, text: string, at: nat)
    requires start <= |line|
    ensures start <= at <= |line|
    ensures ReadQuoted(line[start..], "") == if closed then Closed(text, line[at..]) else Open
  {
    at, text, closed := start, "", false;
    while at < |line|
      invariant start <= at <= |line|
      invariant ReadQuoted(line[start..], "") == ReadQuoted(line[at..], text)
    {
      var c := line[at];
      at := at + 1;
      if c == '"' {
        closed := true;
        return;
      } else if c == '\\' {
        if at == |line| {
          return;
        }
        text := text + [Unescaped(line[at])];
        at := at + 1;
      } else {
        text := text + [c];
      }
    }
  }

  /** Reads a run that opens with a brace or a bracket; `depth` is how many
      openers are still unclosed where the scan stopped. */
  method ScanBalanced(line: string, start: nat) returns (depth: nat, at: nat)
    requires start < |line|
    ensures start <= at <= |line|
    ensures BalancedLength(line[start..], START) == if depth == 0 then Some(at - start) else None
  {
    at, depth := start, 0;
    var inString, escaped := false, false;
    while at < |line|
      invariant start <= at <= |line|
      invariant BalancedLength(line[start..], START) ==
                match BalancedLength(line[at..], Braces(depth, inString, escaped))
                case None => None
                case Some(n) => Some(at - start + n)
    {
      var c := line[at];
      at := at + 1;
      if inString {
        if escaped {
          escaped := false;
        } else if c == '\\' {
          escaped := true;
        } else if c == '"' {
          inString := false;
        }
        continue;
      }
      if c == '"' {
        inString := true;
      } else if c == '{' || c == '[' {
        depth := depth + 1;
      } else if c == '}' || c == ']' {
        depth := if depth == 0 then 0 else depth - 1;
        if depth == 0 {
          break;
        }
      }
    }
  }

  /** Reads a bare word. */
  method ScanBare(line: string, start: nat) returns (at: nat)
    requires start <= |line|
    ensures at == start + BareLength(line[start..])
  {
    at := start;
    while at < |line| && !IsWhitespace(line[at])
      invariant start <= at <= |line|
      invariant BareLength(line[start..]) == at - start + BareLength(line[at..])
    {
      at := at + 1;
    }
  }

  /** Reads the token that starts at `start`, whichever of the three forms it has. */
  method ScanToken(line: string, start: nat) returns (r: Result<string, ParseError>, at: nat)
    requires start < |line| && !IsWhitespace(line[start])
    ensures start <= at <= |line|
    ensures NextToken(line[start..]) ==
            match r case Err(error) => Failed(error) case Ok(text) => Token(text, line[at..])
    ensures r.Ok? ==> start < at
  {
    if line[start] == '"' {
      var closed, text;
      closed, text, at := ScanQuoted(line, start + 1);
      r := if closed then Ok(text) else Err(UnterminatedQuote);
    } else if line[start] == '{' || line[start] == '[' {
      var depth;
      depth, at := ScanBalanced(line, start);
      OpenerTakesSome(line[start..]);
      assert line[start..][..at - start] == line[start..at];
      r := if depth == 0 then Ok(line[start..at]) else Err(UnbalancedJson);
    } else {
      at := ScanBare(line, start);
      assert line[start..][..at - start] == line[start..at];
      r := Ok(line[start..at]);
    }
  }

  /** Splits a line into tokens, refusing an unclosed quote or unbalanced braces. */
  method Tokenize(line: string) returns (r: Result<seq<string>, ParseError>)
    ensures r == Strict(line)
  {
    var tokens: seq<string> := [];
    var at := 0;
    while at < |line|
      invariant at <= |line|
      invariant TokensOf(line) == TokensOf(line[at..]).Prepend(tokens)
    {
      if IsWhitespace(line[at]) {
        at := at + 1;
        continue;
      }
      var token, next := ScanToken(line, at);
      if token.Err? {
        return Err(token.error);
      }
      tokens, at := tokens + [token.value], next;
    }
    assert tokens + [] == tokens;
    return Ok(tokens);
  }

  /** What one turn of the lenient loop makes of the rest of the line. */
  lemma PartialTurn(line: string, at: nat, done: seq<string>)
    requires at < |line|
    ensures var rest := line[at..];
            PartialOf(rest).Prepend(done) ==
            if IsWhitespace(line[at]) then PartialOf(line[at + 1..]).Prepend(done)
            else if NextToken(rest).Failed? || NextToken(rest).rest == "" then Partial(done, rest)
            else PartialOf(NextToken(rest).rest).Prepend(done + [NextToken(rest).text])
  {
    assert line[at..][1..] == line[at + 1..];
    assert done + [] == done;
    if !IsWhitespace(line[at]) && NextToken(line[at..]).Token? {
      Assoc(done, [NextToken(line[at..]).text], PartialOf(NextToken(line[at..]).rest).done);
    }
  }

  /** Splits a half-typed line; never refuses. */
  method SplitPartial(line: string) returns (p: Partial)
    ensures p == PartialOf(line)
  {
    var done: seq<string> := [];
    var at := 0;
    while at < |line|
      invariant at <= |line|
      invariant PartialOf(line) == PartialOf(line[at..]).Prepend(done)
    {
      PartialTurn(line, at, done);
      if IsWhitespace(line[at]) {
        at := at + 1;
        continue;
      }
      var token, next := ScanToken(line, at);
      if token.Err? || next == |line| {
        return Partial(done, line[at..]);
      }
      done, at := done + [token.value], next;
    }
    return Partial(done, "");
  }

  // --- the line before the cursor -------------------------------------------

  /** The line without the word the cursor is in. */
  function Front(line: string): string {
    line[..|line| - |PartialOf(line).current|]
  }

  lemma {:induction false} QuotedStable(x: string, rest: string, more: string, before: string, text: string)
    requires ReadQuoted(x + rest, before) == Closed(text, rest)
    ensures ReadQuoted(x + more, before) == Closed(text, more)
    decreases |x|
  {
    if x == "" {
    } else if x[0] == '"' {
      assert (x + rest)[1..] == x[1..] + rest;
      assert |x[1..] + rest| == |rest|;
      assert (x + more)[1..] == more;
    } else if x[0] != '\\' {
      assert (x + rest)[1..] == x[1..] + rest && (x + more)[1..] == x[1..] + more;
      QuotedStable(x[1..], rest, more, before + [x[0]], text);
    } else if |x| > 1 {
      assert (x + rest)[2..] == x[2..] + rest && (x + more)[2..] == x[2..] + more;
      QuotedStable(x[2..], rest, more, before + [Unescaped(x[1])], text);
    }
  }

  lemma {:induction false} BalancedStable(x: string, rest: string, more: string, b: Braces)
    requires x != "" && (b.depth > 0 || (b == START && (x[0] == '{' || x[0] == '[')))
    requires BalancedLength(x + rest, b) == Some(|x|)
    ensures BalancedLength(x + more, b) == Some(|x|)
    decreases |x|
  {
    if !Closes(b, x[0]) {
      assert (x + rest)[1..] == x[1..] + rest && (x + more)[1..] == x[1..] + more;
      if |x| == 1 {
        assert x[1..] + rest == rest;
        OpenTakesSome(rest, Advance(b, x[0]));
      }
      BalancedStable(x[1..], rest, more, Advance(b, x[0]));
    }
  }

  lemma OpenTakesSome(s: string, b: Braces)
    requires b.depth > 0
    ensures BalancedLength(s, b) != Some(0)
  {
  }

  lemma QuotedTokenStable(taken: string, text: string, rest: string, more: string)
    requires taken != "" && taken[0] == '"' && NextToken(taken + rest) == Token(text, rest)
    ensures NextToken(taken + more) == Token(text, more)
  {
    assert (taken + rest)[1..] == taken[1..] + rest && (taken + more)[1..] == taken[1..] + more;
    QuotedStable(taken[1..], rest, more, "", text);
  }

  lemma BalancedTokenStable(taken: string, text: string, rest: string, more: string)
    requires taken != "" && (taken[0] == '{' || taken[0] == '[')
    requires NextToken(taken + rest) == Token(text, rest)
    ensures NextToken(taken + more) == Token(text, more)
  {
    var s, t := taken + rest, taken + more;
    assert s[..|taken|] == taken && t[..|taken|] == taken && t[|taken|..] == more;
    BalancedStable(taken, rest, more, START);
  }

  lemma BareTokenStable(taken: string, text: string, rest: string, more: string)
    requires taken != "" && !IsWhitespace(taken[0]) && taken[0] !in "\"{["
    requires NextToken(taken + rest) == Token(text, rest) && AtBoundary(more)
    ensures NextToken(taken + more) == Token(text, more)
  {
    var s, t := taken + rest, taken + more;
    assert s[..|taken|] == taken && t[..|taken|] == taken && t[|taken|..] == more;
    assert BareLength(s) == |taken|;
    forall i | 0 <= i < |taken|
      ensures !IsWhitespace(taken[i])
    {
      assert s[i] == taken[i];
    }
    BareReads(taken, more);
  }

  /** A token stays the same when what follows it changes; a bare one as long as a
      boundary follows. */
  lemma TokenStable(taken: string, text: string, rest: string, more: string)
    requires taken != "" && !IsWhitespace(taken[0])
    requires NextToken(taken + rest) == Token(text, rest)
    requires taken[0] !in "\"{[" ==> AtBoundary(more)
    ensures NextToken(taken + more) == Token(text, more)
  {
    if taken[0] == '"' {
      QuotedTokenStable(taken, text, rest, more);
    } else if taken[0] == '{' || taken[0] == '[' {
      BalancedTokenStable(taken, text, rest, more);
    } else {
      BareTokenStable(taken, text, rest, more);
    }
  }

  /** A bare token is followed by a boundary. */
  lemma BareBoundary(line: string)
    requires line != "" && !IsWhitespace(line[0]) && line[0] !in "\"{["
    ensures NextToken(line).Token? && AtBoundary(NextToken(line).rest)
  {
  }

  lemma SpaceScans(space: char, more: string)
    requires IsWhitespace(space)
    ensures TokensOf([space] + more) == TokensOf(more)
  {
    assert ([space] + more)[1..] == more;
  }

  lemma PartialSpace(line: string)
    requires line != "" && IsWhitespace(line[0])
    ensures PartialOf(line) == PartialOf(line[1..])
  {
  }

  lemma PartialToken(line: string)
    requires line != "" && !IsWhitespace(line[0])
    requires NextToken(line).Token? && NextToken(line).rest != ""
    ensures PartialOf(line) == PartialOf(NextToken(line).rest).Prepend([NextToken(line).text])
  {
  }

  lemma FrontSpace(line: string)
    requires line != "" && IsWhitespace(line[0])
    ensures Front(line) == [line[0]] + Front(line[1..])
  {
    var k := |PartialOf(line[1..]).current|;
    PartialSpace(line);
    PrefixFrom(line, 1, k);
    assert line[..1] == [line[0]];
  }

  lemma FrontToken(line: string)
    requires line != "" && !IsWhitespace(line[0])
    requires NextToken(line).Token? && NextToken(line).rest != ""
    ensures Front(line) == line[..|line| - |NextToken(line).rest|] + Front(NextToken(line).rest)
  {
    var rest := NextToken(line).rest;
    PartialToken(line);
    PrefixFrom(line, |line| - |rest|, |PartialOf(line).current|);
  }

  lemma PrefixFrom(s: string, n: nat, k: nat)
    requires n + k <= |s|
    ensures s[..|s| - k] == s[..n] + s[n..][..|s[n..]| - k]
  {
  }

  // --- the two scanners agree -----------------------------------------------

  /** All but the last of a sequence, and nothing of an empty one. */
  function ButLast<T>(s: seq<T>): seq<T> {
    if s == [] then [] else s[..|s| - 1]
  }

  /** What the two scanners say of one line fits together. */
  predicate Fits(line: string, strict: Scanned, partial: Partial) {
    && partial.done ==
       (if strict.failure.Some? || EndsInWhitespace(line) then strict.tokens else ButLast(strict.tokens))
    && |partial.current| <= |line|
    && partial.current == line[|line| - |partial.current|..]
    && (strict.failure.None? && EndsInWhitespace(line) ==> partial.current == "")
    && (strict == Scanned([], None) && line != "" ==> EndsInWhitespace(line))
  }

  lemma FitsLonger(front: string, line: string, text: seq<string>, strict: Scanned, partial: Partial)
    requires line != "" && |text| <= 1 && Fits(line, strict, partial)
    requires text == [] ==> strict != Scanned([], None) || EndsInWhitespace(line)
    ensures Fits(front + line, strict.Prepend(text), partial.Prepend(text))
  {
    assert (front + line)[|front + line| - 1] == line[|line| - 1];
    assert text + strict.tokens == [] ==> strict.tokens == [];
  }

  lemma FitsAtEnd(line: string, text: string)
    requires line != "" && !EndsInWhitespace(line)
    ensures Fits(line, Scanned([], None).Prepend([text]), Partial([], line))
  {
    assert Scanned([], None).Prepend([text]).tokens == [text];
    assert line[0..] == line;
  }

  lemma {:induction false} ScannersFit(line: string)
    ensures Fits(line, TokensOf(line), PartialOf(line))
    decreases |line|
  {
    if line != "" {
      if IsWhitespace(line[0]) {
        ScannersFit(line[1..]);
        FitsAfterSpace(line);
      } else if NextToken(line).Token? {
        ScannersFit(NextToken(line).rest);
        FitsAfterToken(line);
      }
    }
  }

  lemma FitsAfterSpace(line: string)
    requires line != "" && IsWhitespace(line[0]) && Fits(line[1..], TokensOf(line[1..]), PartialOf(line[1..]))
    ensures Fits(line, TokensOf(line), PartialOf(line))
  {
    var rest := line[1..];
    assert TokensOf(line) == TokensOf(rest) && PartialOf(line) == PartialOf(rest);
    if rest == "" {
      FitsOnSpace(line);
    } else {
      FitsLonger(line[..1], rest, [], TokensOf(rest), PartialOf(rest));
      Halves(line, 1);
      PrependNothing(TokensOf(rest), PartialOf(rest));
    }
  }

  lemma FitsOnSpace(line: string)
    requires |line| == 1 && IsWhitespace(line[0])
    ensures Fits(line, Scanned([], None), Partial([], ""))
  {
    assert line[1..] == "";
  }

  lemma PrependNothing(strict: Scanned, partial: Partial)
    ensures strict.Prepend([]) == strict && partial.Prepend([]) == partial
  {
    assert [] + strict.tokens == strict.tokens && [] + partial.done == partial.done;
  }

  lemma FitsAfterToken(line: string)
    requires line != "" && !IsWhitespace(line[0]) && NextToken(line).Token?
    requires var rest := NextToken(line).rest; Fits(rest, TokensOf(rest), PartialOf(rest))
    ensures Fits(line, TokensOf(line), PartialOf(line))
  {
    var Token(text, rest) := NextToken(line);
    if rest == "" {
      TokenEndsPlain(line);
      FitsAtEnd(line, text);
    } else {
      FitsLonger(line[..|line| - |rest|], rest, [text], TokensOf(rest), PartialOf(rest));
      Halves(line, |line| - |rest|);
    }
  }

  /** A token that ends a line does not end it in whitespace. */
  lemma TokenEndsPlain(s: string)
    requires s != "" && !IsWhitespace(s[0])
    requires NextToken(s).Token? && NextToken(s).rest == ""
    ensures !EndsInWhitespace(s)
  {
    if s[0] == '"' {
      QuotedEndsInQuote(s[1..], "");
    } else if s[0] == '{' || s[0] == '[' {
      BalancedEndsInCloser(s, START);
    }
  }

  lemma {:induction false} QuotedEndsInQuote(s: string, text: string)
    requires ReadQuoted(s, text).Closed? && ReadQuoted(s, text).rest == ""
    ensures s != "" && s[|s| - 1] == '"'
    decreases |s|
  {
    if s[0] == '"' {
      assert |s| == 1;
    } else if s[0] != '\\' {
      QuotedEndsInQuote(s[1..], text + [s[0]]);
    } else {
      QuotedEndsInQuote(s[2..], text + [Unescaped(s[1])]);
    }
  }

  lemma {:induction false} BalancedEndsInCloser(s: string, b: Braces)
    requires s != "" && (b.depth > 0 || (b == START && (s[0] == '{' || s[0] == '[')))
    requires BalancedLength(s, b) == Some(|s|)
    ensures s[|s| - 1] == '}' || s[|s| - 1] == ']'
    decreases |s|
  {
    if !Closes(b, s[0]) {
      BalancedEndsInCloser(s[1..], Advance(b, s[0]));
    }
  }

  /** The text of one token with nothing after it, or of one that fails. */
  predicate OneToken(s: string) {
    && s != "" && !IsWhitespace(s[0])
    && match NextToken(s) case Failed(_) => true case Token(_, rest) => rest == ""
  }

  predicate OneOrNone(s: string) {
    s == "" || OneToken(s)
  }

  /** What is before `m` scans to these words, and no space is at `m`. */
  predicate SplitsAt(line: string, m: nat, done: seq<string>) {
    m <= |line| && TokensOf(line[..m]) == Scanned(done, None) && (m < |line| ==> !IsWhitespace(line[m]))
  }

  /** `current` is the text at the end of the line from where its last or failing
      token starts: what is before it scans to the words already finished. */
  predicate StartsAtToken(line: string, partial: Partial)
    requires |partial.current| <= |line|
  {
    && OneOrNone(partial.current)
    && SplitsAt(line, |line| - |partial.current|, partial.done)
    && TokensOf(line) == TokensOf(partial.current).Prepend(partial.done)
  }

  lemma FrontStarts(line: string, piece: string)
    requires AtBoundary(line) && OneOrNone(PartialOf(line).current)
    ensures line == "" || (Front(line) != "" && AtBoundary(Front(line) + piece))
  {
    ScannersFit(line);
  }

  lemma TokenKept(line: string, more: string)
    requires line != "" && !IsWhitespace(line[0]) && NextToken(line).Token?
    requires AtBoundary(NextToken(line).rest) ==> AtBoundary(more)
    ensures var Token(text, rest) := NextToken(line);
            TokensOf(line[..|line| - |rest|] + more) == TokensOf(more).Prepend([text])
  {
    var Token(text, rest) := NextToken(line);
    var taken := line[..|line| - |rest|];
    assert line == taken + rest;
    if line[0] !in "\"{[" {
      BareBoundary(line);
    }
    TokenStable(taken, text, rest, more);
    assert (taken + more)[0] == line[0];
  }

  lemma {:induction false} CurrentIsToken(line: string)
    ensures OneOrNone(PartialOf(line).current)
    decreases |line|
  {
    if line != "" {
      if IsWhitespace(line[0]) {
        CurrentIsToken(line[1..]);
      } else if NextToken(line).Token? && NextToken(line).rest != "" {
        CurrentIsToken(NextToken(line).rest);
      }
    }
  }

  lemma {:induction false} RestScans(line: string)
    ensures TokensOf(line) == TokensOf(PartialOf(line).current).Prepend(PartialOf(line).done)
    decreases |line|
  {
    if line == "" || (!IsWhitespace(line[0]) && (NextToken(line).Failed? || NextToken(line).rest == "")) {
      PrependNothing(TokensOf(line), Partial([], ""));
    } else if IsWhitespace(line[0]) {
      RestScans(line[1..]);
    } else {
      var Token(text, rest) := NextToken(line);
      RestScans(rest);
      PartialToken(line);
      PrependTwice(TokensOf(PartialOf(rest).current), [text], PartialOf(rest).done);
    }
  }

  lemma {:induction false} FrontScans(line: string)
    ensures TokensOf(Front(line)) == Scanned(PartialOf(line).done, None)
    decreases |line|
  {
    if PartialOf(line).current == line {
      assert Front(line) == "";
    } else if IsWhitespace(line[0]) {
      FrontScans(line[1..]);
      FrontSpace(line);
      SpaceScans(line[0], Front(line[1..]));
      PartialSpace(line);
    } else {
      FrontScans(NextToken(line).rest);
      FrontAfterToken(line);
    }
  }

  lemma FrontAfterToken(line: string)
    requires line != "" && !IsWhitespace(line[0])
    requires NextToken(line).Token? && NextToken(line).rest != ""
    requires TokensOf(Front(NextToken(line).rest)) == Scanned(PartialOf(NextToken(line).rest).done, None)
    ensures TokensOf(Front(line)) == Scanned(PartialOf(line).done, None)
  {
    var rest := NextToken(line).rest;
    FrontToken(line);
    PartialToken(line);
    if AtBoundary(rest) {
      CurrentIsToken(rest);
      FrontStarts(rest, "");
      assert Front(rest) + "" == Front(rest);
    }
    TokenKept(line, Front(rest));
  }

  lemma FrontSplits(line: string)
    ensures SplitsAt(line, |line| - |PartialOf(line).current|, PartialOf(line).done)
  {
    var current := PartialOf(line).current;
    FrontScans(line);
    CurrentIsToken(line);
    ScannersFit(line);
    assert current != "" ==> current[0] == line[|line| - |current|];
  }

  lemma CursorStartsToken(line: string)
    ensures StartsAtToken(line, PartialOf(line))
  {
    CurrentIsToken(line);
    RestScans(line);
    FrontSplits(line);
  }

  /** What the lenient scanner has to answer, given what the strict one does. The
      finished words are the tokens before the failing one; on a line that does not
      fail they are all the tokens when it ends in whitespace, and all but the last
      when it does not. The current text is the end of the line, from where its last
      or failing token starts. */
  predicate Agree(line: string, strict: Scanned, partial: Partial) {
    Fits(line, strict, partial) && StartsAtToken(line, partial)
  }

  lemma ScannersAgree(line: string)
    ensures Agree(line, TokensOf(line), PartialOf(line))
  {
    ScannersFit(line);
    CursorStartsToken(line);
  }

  /** More text that starts with a token changes what a line scans to. */
  lemma {:induction false} MoreTokens(s: string, x: string)
    requires x != "" && !IsWhitespace(x[0]) && TokensOf(s).failure.None?
    ensures TokensOf(s + x) != TokensOf(s)
    decreases |s|
  {
    if s == "" {
      assert s + x == x;
    } else if IsWhitespace(s[0]) {
      MoreTokens(s[1..], x);
      MoreAfterSpace(s, x);
    } else if NextToken(s).rest == "" && s[0] !in "\"{[" {
      LongerBare(s, x);
    } else {
      MoreTokens(NextToken(s).rest, x);
      MoreAfterToken(s, x);
    }
  }

  lemma MoreAfterSpace(s: string, x: string)
    requires s != "" && IsWhitespace(s[0]) && TokensOf(s[1..] + x) != TokensOf(s[1..])
    ensures TokensOf(s + x) != TokensOf(s)
  {
    SpaceScans(s[0], s[1..]);
    SpaceScans(s[0], s[1..] + x);
    assert s == [s[0]] + s[1..];
    Assoc([s[0]], s[1..], x);
  }

  lemma LongerBare(s: string, x: string)
    requires s != "" && !IsWhitespace(s[0]) && s[0] !in "\"{[" && x != "" && !IsWhitespace(x[0])
    requires NextToken(s).rest == ""
    ensures TokensOf(s + x) != TokensOf(s)
  {
    var all := s + x;
    assert BareLength(s) == |s|;
    forall i | 0 <= i <= |s|
      ensures !IsWhitespace(all[i])
    {
      assert all[i] == if i == |s| then x[0] else s[i];
    }
    assert TokensOf(all).tokens[0] == all[..BareLength(all)];
    assert TokensOf(s).tokens[0] == s;
  }

  lemma MoreAfterToken(s: string, x: string)
    requires s != "" && !IsWhitespace(s[0]) && NextToken(s).Token?
    requires var rest := NextToken(s).rest;
             (rest != "" || s[0] in "\"{[") && TokensOf(rest + x) != TokensOf(rest)
    ensures TokensOf(s + x) != TokensOf(s)
  {
    var Token(text, rest) := NextToken(s);
    var taken := s[..|s| - |rest|];
    assert s == taken + rest;
    Assoc(taken, rest, x);
    if s[0] !in "\"{[" {
      BareBoundary(s);
      assert (rest + x)[0] == rest[0];
    }
    TokenStable(taken, text, rest, rest + x);
    assert (taken + (rest + x))[0] == s[0];
    var a, b := TokensOf(rest + x), TokensOf(rest);
    assert ([text] + a.tokens)[1..] == a.tokens && ([text] + b.tokens)[1..] == b.tokens;
  }

  lemma FrontsDiffer(line: string, m: nat, n: nat)
    requires m < n <= |line| && !IsWhitespace(line[m]) && TokensOf(line[..m]).failure.None?
    ensures TokensOf(line[..n]) != TokensOf(line[..m])
  {
    MoreTokens(line[..m], line[m..n]);
    assert line[..m] + line[m..n] == line[..n];
  }

  lemma SplitOnce(line: string, m: nat, n: nat, done: seq<string>)
    requires SplitsAt(line, m, done) && SplitsAt(line, n, done)
    ensures m == n
  {
    if m < n {
      FrontsDiffer(line, m, n);
    } else if n < m {
      FrontsDiffer(line, n, m);
    }
  }

  /** Answers that fit one strict scan have the same finished words, so they are the
      same if their current texts start at one place. */
  lemma FitSame(line: string, strict: Scanned, p: Partial, q: Partial)
    requires Fits(line, strict, p) && Fits(line, strict, q)
    ensures p.done == q.done && (|line| - |p.current| == |line| - |q.current| ==> p == q)
  {
  }

  lemma StartSplits(line: string, p: Partial) returns (m: nat)
    requires |p.current| <= |line| && StartsAtToken(line, p)
    ensures m == |line| - |p.current| && SplitsAt(line, m, p.done)
  {
    m := |line| - |p.current|;
    assert SplitsAt(line, m, p.done);
  }

  lemma OneAnswer(line: string, strict: Scanned, p: Partial, q: Partial)
    requires Agree(line, strict, p) && Agree(line, strict, q)
    ensures p == q
  {
    var m := StartSplits(line, p);
    var n := StartSplits(line, q);
    FitSame(line, strict, p, q);
    SplitOnce(line, m, n, p.done);
  }

  /** No other answer agrees with the strict scanner. */
  lemma AgreementIsUnique(line: string, partial: Partial)
    requires Agree(line, TokensOf(line), partial)
    ensures partial == PartialOf(line)
  {
    ScannersAgree(line);
    OneAnswer(line, TokensOf(line), partial, PartialOf(line));
  }

  // --- word forms -----------------------------------------------------------

  function EscapeWordChar(c: char): string {
    if c == '"' then ['\\', '"']
    else if c == '\\' then ['\\', '\\']
    else if c == '\n' then ['\\', 'n']
    else if c == '\t' then ['\\', 't']
    else [c]
  }

  function EscapeWord(text: string): string {
    if text == "" then "" else EscapeWordChar(text[0]) + EscapeWord(text[1..])
  }

  function Quote(text: string): string {
    ['"'] + EscapeWord(text) + ['"']
  }

  predicate PlainWord(text: string) {
    text != "" && forall i :: 0 <= i < |text| ==> !IsWhitespace(text[i]) && text[i] !in "\"\\{[#"
  }

  /** One token of a dumped line: bare when the scanner reads it back whole,
      quoted when it would not. */
  function Word(text: string): string {
    if PlainWord(text) then text else Quote(text)
  }

  /** `piece`, wherever a token may start and followed by a boundary, is read as
      exactly the token `text`. */
  ghost predicate ReadsAs(piece: string, text: string) {
    && piece != "" && !IsWhitespace(piece[0])
    && forall rest :: AtBoundary(rest) ==> NextToken(piece + rest) == Token(text, rest)
  }

  lemma EscapedCharReads(c: char, rest: string, before: string)
    ensures ReadQuoted(EscapeWordChar(c) + rest, before) == ReadQuoted(rest, before + [c])
  {
    var s := EscapeWordChar(c) + rest;
    assert s[|EscapeWordChar(c)|..] == rest;
  }

  lemma {:induction false} EscapedReads(text: string, rest: string, before: string)
    ensures ReadQuoted(EscapeWord(text) + ['"'] + rest, before) == Closed(before + text, rest)
    decreases |text|
  {
    if text == "" {
      assert EscapeWord(text) + ['"'] + rest == ['"'] + rest;
      assert before + text == before;
    } else {
      var tail := EscapeWord(text[1..]) + ['"'] + rest;
      assert EscapeWord(text) + ['"'] + rest == EscapeWordChar(text[0]) + tail;
      EscapedCharReads(text[0], tail, before);
      EscapedReads(text[1..], rest, before + [text[0]]);
      assert before + [text[0]] + text[1..] == before + text;
    }
  }

  /** A bare run with no whitespace is read up to the boundary after it. */
  lemma {:induction false} BareReads(piece: string, rest: string)
    requires forall i :: 0 <= i < |piece| ==> !IsWhitespace(piece[i])
    requires AtBoundary(rest)
    ensures BareLength(piece + rest) == |piece|
    decreases |piece|
  {
    if piece == "" {
      assert piece + rest == rest;
    } else {
      assert (piece + rest)[1..] == piece[1..] + rest;
      BareReads(piece[1..], rest);
    }
  }

  lemma BareReadsAs(piece: string)
    requires piece != "" && piece[0] !in "\"{["
    requires forall i :: 0 <= i < |piece| ==> !IsWhitespace(piece[i])
    ensures ReadsAs(piece, piece)
  {
    forall rest | AtBoundary(rest)
      ensures NextToken(piece + rest) == Token(piece, rest)
    {
      BareReads(piece, rest);
      assert (piece + rest)[0] == piece[0];
      assert (piece + rest)[..|piece|] == piece && (piece + rest)[|piece|..] == rest;
    }
  }

  lemma QuotedToken(inner: string, text: string, rest: string)
    requires ReadQuoted(inner, "") == Closed(text, rest)
    ensures NextToken(['"'] + inner) == Token(text, rest)
  {
    assert (['"'] + inner)[1..] == inner;
  }

  lemma QuoteReads(text: string, rest: string)
    ensures NextToken(Quote(text) + rest) == Token(text, rest)
  {
    var inner := EscapeWord(text) + ['"'] + rest;
    EscapedReads(text, rest, "");
    assert "" + text == text;
    QuotedToken(inner, text, rest);
    assert ['"'] + inner == Quote(text) + rest;
  }

  /** `Word` is lossless: its form of any text is read back as that text. */
  lemma WordReadsAs(text: string)
    ensures ReadsAs(Word(text), text)
  {
    if PlainWord(text) {
      BareReadsAs(text);
    } else {
      forall rest | AtBoundary(rest)
        ensures NextToken(Quote(text) + rest) == Token(text, rest)
      {
        QuoteReads(text, rest);
      }
    }
  }

  lemma PrependTwice(scanned: Scanned, a: seq<string>, b: seq<string>)
    ensures scanned.Prepend(b).Prepend(a) == scanned.Prepend(a + b)
  {
    assert a + (b + scanned.tokens) == a + b + scanned.tokens;
  }

  lemma PieceScans(piece: string, token: string, rest: string)
    requires ReadsAs(piece, token) && AtBoundary(rest)
    ensures TokensOf(piece + rest) == TokensOf(rest).Prepend([token])
  {
    assert NextToken(piece + rest) == Token(token, rest);
    assert (piece + rest)[0] == piece[0];
  }

  lemma JoinFirst(pieces: seq<string>, more: string)
    requires |pieces| > 1
    ensures Join(pieces) + more == pieces[0] + (" " + (Join(pieces[1..]) + more))
  {
  }

  /** Pieces with one space between neighbours scan to what each piece reads as,
      followed by the tokens of whatever comes after a boundary. */
  lemma {:induction false} JoinScansOn(pieces: seq<string>, tokens: seq<string>, more: string)
    requires pieces != [] && |pieces| == |tokens| && AtBoundary(more)
    requires forall i :: 0 <= i < |pieces| ==> ReadsAs(pieces[i], tokens[i])
    ensures TokensOf(Join(pieces) + more) == TokensOf(more).Prepend(tokens)
    decreases |pieces|
  {
    if |pieces| == 1 {
      PieceScans(pieces[0], tokens[0], more);
      assert tokens == [tokens[0]];
    } else {
      var tail := Join(pieces[1..]) + more;
      JoinFirst(pieces, more);
      PieceScans(pieces[0], tokens[0], " " + tail);
      assert (" " + tail)[1..] == tail;
      JoinScansOn(pieces[1..], tokens[1..], more);
      PrependTwice(TokensOf(more), [tokens[0]], tokens[1..]);
      assert [tokens[0]] + tokens[1..] == tokens;
    }
  }

  /** A line of pieces, one space between neighbours, scans to what each piece
      reads as. */
  lemma JoinScans(pieces: seq<string>, tokens: seq<string>)
    requires |pieces| == |tokens|
    requires forall i :: 0 <= i < |pieces| ==> ReadsAs(pieces[i], tokens[i])
    ensures TokensOf(Join(pieces)) == Scanned(tokens, None)
  {
    if pieces != [] {
      JoinScansOn(pieces, tokens, "");
      assert Join(pieces) + "" == Join(pieces);
      assert tokens + [] == tokens;
    }
  }

  function Words(texts: seq<string>): (pieces: seq<string>)
    ensures |pieces| == |texts|
    ensures forall i :: 0 <= i < |texts| ==> pieces[i] == Word(texts[i])
  {
    if texts == [] then [] else [Word(texts[0])] + Words(texts[1..])
  }

  /** Quoting is lossless over whole lines: any sequence of strings, printed as
      words with spaces between them, scans back to the same sequence, and the
      line it makes has no newline in it. */
  lemma QuotingIsLossless(texts: seq<string>)
    ensures Strict(Join(Words(texts))) == Ok(texts)
    ensures '\n' !in Join(Words(texts))
  {
    forall i | 0 <= i < |texts|
      ensures ReadsAs(Words(texts)[i], texts[i])
      ensures '\n' !in Words(texts)[i]
    {
      WordReadsAs(texts[i]);
      WordHasNoNewline(texts[i]);
    }
    JoinScans(Words(texts), texts);
    JoinHasNo(Words(texts), '\n');
  }

  lemma {:induction false} EscapeHasNoNewline(text: string)
    ensures '\n' !in EscapeWord(text)
  {
    if text != "" {
      EscapeHasNoNewline(text[1..]);
    }
  }

  lemma WordHasNoNewline(text: string)
    ensures '\n' !in Word(text)
  {
    EscapeHasNoNewline(text);
  }

  lemma {:induction false} JoinHasNo(pieces: seq<string>, c: char)
    requires c != ' ' && forall i :: 0 <= i < |pieces| ==> c !in pieces[i]
    ensures c !in Join(pieces)
  {
    if |pieces| > 1 {
      JoinHasNo(pieces[1..], c);
    }
  }
}
