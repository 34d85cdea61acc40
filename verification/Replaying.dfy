/** Which sessions replay: those of which every recorded command comes back, and,
    as long as no best-by reference breaks a line, no others. */
module Replaying {
  import opened Commands
  import opened Editing
  import opened Editor
  import opened Graph
  import opened JsonTokens
  import opened Parser
  import opened Printer
  import opened References
  import opened RoundTrip
  import opened Sessions
  import opened Text
  import opened Tokenizer

  // --- whitespace at the end of a line --------------------------------------

  lemma {:induction false} OpenStays(s: string, text: string, c: char)
    requires ReadQuoted(s, text).Open? && c != '"'
    ensures ReadQuoted(s + [c], text).Open?
    decreases |s|
  {
    if s == "" {
      assert s + [c] == [c] && [c][1..] == "";
    } else if s[0] != '\\' {
      assert (s + [c])[1..] == s[1..] + [c];
      OpenStays(s[1..], text + [s[0]], c);
    } else if |s| == 1 {
      assert (s + [c])[2..] == "";
    } else {
      assert (s + [c])[2..] == s[2..] + [c];
      OpenStays(s[2..], text + [Unescaped(s[1])], c);
    }
  }

  lemma {:induction false} UnbalancedStays(s: string, b: Braces, c: char)
    requires BalancedLength(s, b).None? && !Structural(c)
    ensures BalancedLength(s + [c], b).None?
    decreases |s|
  {
    if s == "" {
      assert s + [c] == [c] && [c][1..] == "";
    } else {
      assert (s + [c])[1..] == s[1..] + [c];
      UnbalancedStays(s[1..], Advance(b, s[0]), c);
    }
  }

  lemma SpaceIsNeutral(c: char)
    requires IsWhitespace(c)
    ensures !Structural(c)
  {
  }

  lemma FailsStill(s: string, c: char)
    requires s != "" && !IsWhitespace(s[0]) && NextToken(s).Failed? && IsWhitespace(c)
    ensures NextToken(s + [c]) == NextToken(s)
  {
    SpaceIsNeutral(c);
    if s[0] == '"' {
      OpenStays(s[1..], "", c);
      assert (s + [c])[1..] == s[1..] + [c];
    } else {
      UnbalancedStays(s, START, c);
    }
  }

  lemma TokenThenSpace(s: string, c: char)
    requires s != "" && !IsWhitespace(s[0]) && NextToken(s).Token? && IsWhitespace(c)
    ensures NextToken(s + [c]) == Token(NextToken(s).text, NextToken(s).rest + [c])
  {
    var Token(text, rest) := NextToken(s);
    var taken := s[..|s| - |rest|];
    assert s == taken + rest;
    if s[0] !in "\"{[" {
      BareBoundary(s);
    }
    TokenStable(taken, text, rest, rest + [c]);
    Assoc(taken, rest, [c]);
  }

  /** Whitespace at the end of a line adds nothing, even to a token that fails. */
  lemma {:induction false} SpaceAfter(s: string, c: char)
    requires IsWhitespace(c)
    ensures TokensOf(s + [c]) == TokensOf(s)
    decreases |s|
  {
    if s == "" {
      SpaceScans(c, "");
      assert s + [c] == [c] + "";
    } else if IsWhitespace(s[0]) {
      SpaceAfter(s[1..], c);
      assert (s + [c])[1..] == s[1..] + [c];
    } else if NextToken(s).Failed? {
      FailsStill(s, c);
    } else {
      TokenThenSpace(s, c);
      SpaceAfter(NextToken(s).rest, c);
    }
  }

  lemma UnterminatedParses(codec: Codec, line: string)
    requires |line| > 1 && !IsWhitespace(line[0]) && line[0] != '#'
    ensures Parse(codec, Unterminated(line)) == Parse(codec, line)
  {
    var n := |line| - 1;
    if line[n] == '\r' {
      SpaceAfter(line[..n], '\r');
      assert line == line[..n] + [line[n]];
      SameTokensParse(codec, line[..n], line);
    }
  }

  lemma SameTokensParse(codec: Codec, s: string, t: string)
    requires s != "" && !IsWhitespace(s[0]) && s[0] != '#'
    requires t != "" && !IsWhitespace(t[0]) && t[0] != '#'
    requires TokensOf(s) == TokensOf(t)
    ensures Parse(codec, s) == Parse(codec, t)
  {
  }

  // --- the lines of a script ------------------------------------------------

  /** No best-by reference of the command holds a newline. */
  predicate OneLine(c: Command) {
    c.Add? && c.node.FoldNode? && c.node.join.BestBy? ==> '\n' !in c.node.join.reference
  }

  /** A command that a session can record, on a line of its own. */
  ghost predicate Recordable(codec: Codec, c: Command) {
    && Changes(c)
    && WellFormedCommand(codec, c)
    && OneLine(c)
    && (c.ReadDocument? ==> codec.parse(c.json).Some?)
  }

  lemma FaithfulPiecesHaveNoNewline(pieces: seq<Piece>)
    requires AllFaithful(pieces)
    ensures forall i :: 0 <= i < |pieces| ==> '\n' !in Written(pieces)[i]
  {
    forall i | 0 <= i < |pieces|
      ensures '\n' !in Written(pieces)[i]
    {
      PieceHasNoNewline(pieces[i]);
    }
  }

  lemma FoldHasNoNewline(codec: Codec, node: Node)
    requires Faithful(codec) && WellFormedNode(codec, node) && OneLine(Add(node))
    requires node.FoldNode? && node.join.BestBy?
    ensures '\n' !in ToLine(codec, Add(node))
  {
    var front, back := UpToRule(codec, node), FoldBack(node);
    var rule := Literal(JoinText(node.join));
    FoldPieces(codec, node);
    UpToRuleFaithful(codec, node);
    FoldBackFaithful(node);
    FaithfulPiecesHaveNoNewline(front);
    FaithfulPiecesHaveNoNewline(back);
    WrittenParts(front, rule, back);
    JoinHasNo(Written(front + [rule] + back), '\n');
  }

  lemma WrittenParts(front: seq<Piece>, rule: Piece, back: seq<Piece>)
    ensures Written(front + [rule] + back) == Written(front) + [rule.Written()] + Written(back)
  {
  }

  lemma LineHasNoNewline(codec: Codec, c: Command)
    requires Faithful(codec) && Recordable(codec, c)
    ensures '\n' !in ToLine(codec, c)
  {
    if c.Add? && !PlainJoin(c.node) {
      FoldHasNoNewline(codec, c.node);
    } else {
      ChangesFaithful(codec, c);
      FaithfulLine(codec, c);
    }
  }

  lemma UnterminatedFirst(line: string, rest: string)
    requires '\n' !in line
    ensures LinesOf(line + "\n" + rest) == [Unterminated(line)] + LinesOf(rest)
  {
    var s := line + "\n" + rest;
    LineLengthIs(line, rest);
    assert s[..|line|] == line && s[|line| + 1..] == rest;
  }

  function CutLines(codec: Codec, history: seq<Command>): (lines: seq<string>)
    ensures |lines| == |history|
    ensures forall i :: 0 <= i < |history| ==> lines[i] == Unterminated(ToLine(codec, history[i]))
  {
    if history == [] then [] else [Unterminated(ToLine(codec, history[0]))] + CutLines(codec, history[1..])
  }

  /** A script splits into one line per recorded command, whatever the line ends in. */
  lemma {:induction false} ScriptSplits(codec: Codec, history: seq<Command>)
    requires forall c :: c in history ==> '\n' !in ToLine(codec, c)
    ensures LinesOf(ScriptOf(codec, history)) == CutLines(codec, history)
    decreases |history|
  {
    if history != [] {
      ScriptFirst(codec, history);
      UnterminatedFirst(ToLine(codec, history[0]), ScriptOf(codec, history[1..]));
      ScriptSplits(codec, history[1..]);
    }
  }

  // --- what the lines are read as -------------------------------------------

  /** The line is refused, or for the host, or gives one change. */
  predicate OneChange(r: Reading) {
    r.Ok? ==> r.value.Some? && match r.value.value case CommandLine(c) => Changes(c) case Host(_) => true
  }

  lemma AddsOrAsks(codec: Codec, tokens: seq<string>)
    requires tokens != [] && tokens[0] == "add"
    ensures var r := ParseTokens(codec, tokens);
            r.Ok? ==> match r.value case CommandLine(c) => c.Add? case Host(_) => true
  {
  }

  lemma AddLineStarts(codec: Codec, node: Node) returns (more: string)
    ensures ToLine(codec, Add(node)) == "add" + (" " + more)
  {
    var pieces := Written(CommandPieces(codec, Add(node)));
    assert pieces[0] == "add" && |pieces| > 1;
    more := Join(pieces[1..]);
    assert Join(pieces) == "add" + " " + more;
  }

  lemma AddLineTokens(codec: Codec, node: Node)
    ensures var scanned := TokensOf(ToLine(codec, Add(node))); scanned.tokens != [] && scanned.tokens[0] == "add"
  {
    var more := AddLineStarts(codec, node);
    BareReadsAs("add");
    PieceScans("add", "add", " " + more);
  }

  lemma AddLineIsOneChange(codec: Codec, node: Node)
    ensures OneChange(Parse(codec, ToLine(codec, Add(node))))
  {
    HeadIsWord(codec, Add(node));
    AddLineTokens(codec, node);
    AddsOrAsks(codec, TokensOf(ToLine(codec, Add(node))).tokens);
    AddTokensParse(codec, ToLine(codec, Add(node)));
  }

  lemma AddTokensParse(codec: Codec, line: string)
    requires line != "" && !IsWhitespace(line[0]) && line[0] != '#'
    requires TokensOf(line).tokens != []
    ensures Parse(codec, line) ==
            match TokensOf(line).failure
            case Some(error) => Err(error)
            case None => Lifted(ParseTokens(codec, TokensOf(line).tokens))
  {
  }

  lemma LineIsOneChange(codec: Codec, c: Command)
    requires Faithful(codec) && Recordable(codec, c)
    ensures OneChange(Parse(codec, ToLine(codec, c)))
  {
    if ComesBack(c) {
      DumpedLineParses(codec, c);
      NormalizedSame(codec, c, EMPTY_DOCUMENT);
    } else {
      AddLineIsOneChange(codec, c.node);
    }
  }

  lemma LineIsLong(codec: Codec, c: Command)
    requires Changes(c)
    ensures |ToLine(codec, c)| > 1
  {
    var pieces := Written(CommandPieces(codec, c));
    assert |pieces| > 1 && pieces[0] != "";
    assert Join(pieces) == pieces[0] + " " + Join(pieces[1..]);
  }

  lemma ScriptLineParses(codec: Codec, c: Command)
    requires Faithful(codec) && Recordable(codec, c)
    ensures Parse(codec, Unterminated(ToLine(codec, c))) == Parse(codec, ToLine(codec, c))
    ensures OneChange(Parse(codec, ToLine(codec, c)))
  {
    HeadIsWord(codec, c);
    LineIsLong(codec, c);
    UnterminatedParses(codec, ToLine(codec, c));
    LineIsOneChange(codec, c);
  }

  // --- what is recorded -----------------------------------------------------

  lemma ChangeRecords(codec: Codec, s: State, c: Command)
    requires Changes(c) && Next(codec, s, c).1.status != Refusing
    ensures Next(codec, s, c).0.history == s.history + [c]
  {
  }

  predicate AllOneChange(parsed: seq<Reading>) {
    forall i :: 0 <= i < |parsed| ==> OneChange(parsed[i])
  }

  /** The history goes on from the past with what each line was read as. */
  predicate Records(parsed: seq<Reading>, past: seq<Command>, history: seq<Command>) {
    && |history| == |past| + |parsed| && past <= history
    && forall i :: 0 <= i < |parsed| ==> parsed[i] == Ok(Some(CommandLine(history[|past| + i])))
  }

  lemma FirstRecords(codec: Codec, s: State, parsed: seq<Reading>, end: State) returns (c: Command, after: State)
    requires parsed != [] && AllOneChange(parsed) && Feed(codec, s, parsed) == Some(end)
    ensures parsed[0] == Ok(Some(CommandLine(c))) && after.history == s.history + [c]
    ensures AllOneChange(parsed[1..]) && Feed(codec, after, parsed[1..]) == Some(end)
  {
    assert OneChange(parsed[0]);
    c := parsed[0].value.value.command;
    after := Next(codec, s, c).0;
    ChangeRecords(codec, s, c);
  }

  /** When lines of one change each are fed, every one of them is recorded. */
  lemma {:induction false} FeedRecords(codec: Codec, s: State, parsed: seq<Reading>, end: State)
    requires AllOneChange(parsed) && Feed(codec, s, parsed) == Some(end)
    ensures Records(parsed, s.history, end.history)
    decreases |parsed|
  {
    if parsed != [] {
      var c, after := FirstRecords(codec, s, parsed, end);
      FeedRecords(codec, after, parsed[1..], end);
      RecordsMore(parsed, s.history, c, end.history);
    }
  }

  lemma RecordsMore(parsed: seq<Reading>, past: seq<Command>, c: Command, history: seq<Command>)
    requires parsed != [] && parsed[0] == Ok(Some(CommandLine(c))) && Records(parsed[1..], past + [c], history)
    ensures Records(parsed, past, history)
  {
    assert history[|past|] == (past + [c])[|past|];
    forall i | 1 <= i < |parsed|
      ensures parsed[i] == Ok(Some(CommandLine(history[|past| + i])))
    {
      assert parsed[1..][i - 1] == parsed[i];
    }
  }

  /** Each line of a script is read as the line of its command, and gives one change
      at most. */
  lemma ScriptReads(codec: Codec, history: seq<Command>)
    requires Faithful(codec) && forall c :: c in history ==> Recordable(codec, c)
    ensures var parsed := ParseAll(codec, LinesOf(ScriptOf(codec, history)));
            && |parsed| == |history|
            && forall i :: 0 <= i < |history| ==>
                 parsed[i] == Parse(codec, ToLine(codec, history[i])) && OneChange(parsed[i])
  {
    forall c | c in history
      ensures '\n' !in ToLine(codec, c)
      ensures Parse(codec, Unterminated(ToLine(codec, c))) == Parse(codec, ToLine(codec, c))
      ensures OneChange(Parse(codec, ToLine(codec, c)))
    {
      LineHasNoNewline(codec, c);
      ScriptLineParses(codec, c);
    }
    ScriptSplits(codec, history);
  }

  lemma FedIsRead(codec: Codec, history: seq<Command>, parsed: seq<Reading>, i: nat)
    requires |parsed| == |history| && AllOneChange(parsed)
    requires Feed(codec, INITIAL, parsed) == Some(Rebuilt(codec, history))
    requires i < |history|
    ensures parsed[i] == Ok(Some(CommandLine(Normalized(codec, history[i]))))
  {
    FeedRecords(codec, INITIAL, parsed, Rebuilt(codec, history));
  }

  /** A history that is rebuilt is one of which every command is read from its line. */
  lemma RebuiltIsRead(codec: Codec, history: seq<Command>, i: nat)
    requires Faithful(codec) && forall c :: c in history ==> Recordable(codec, c)
    requires Replay(codec, INITIAL, LinesOf(ScriptOf(codec, history))) == Some(Rebuilt(codec, history))
    requires i < |history|
    ensures Parse(codec, ToLine(codec, history[i])) == Ok(Some(CommandLine(Normalized(codec, history[i]))))
  {
    ScriptReads(codec, history);
    FedIsRead(codec, history, ParseAll(codec, LinesOf(ScriptOf(codec, history))), i);
  }

  lemma ReadComesBack(codec: Codec, c: Command)
    requires Faithful(codec) && Recordable(codec, c)
    requires Parse(codec, ToLine(codec, c)) == Ok(Some(CommandLine(Normalized(codec, c))))
    ensures ComesBack(c)
  {
    if c.Add? {
      RoundTripExactly(codec, c);
    }
  }

  lemma RebuiltComesBack(codec: Codec, history: seq<Command>, i: nat)
    requires Faithful(codec) && forall c :: c in history ==> Recordable(codec, c)
    requires Replay(codec, INITIAL, LinesOf(ScriptOf(codec, history))) == Some(Rebuilt(codec, history))
    requires i < |history|
    ensures ComesBack(history[i])
  {
    RebuiltIsRead(codec, history, i);
    ReadComesBack(codec, history[i]);
  }

  /** Which sessions replay, when no best-by reference recorded holds a newline:
      exactly those of which every recorded command comes back. */
  lemma SessionReplaysExactly(codec: Codec, cs: seq<Command>)
    requires Faithful(codec)
    requires forall c :: c in Run(codec, INITIAL, cs).history ==> WellFormedCommand(codec, c) && OneLine(c)
    ensures var s := Run(codec, INITIAL, cs);
            Replay(codec, INITIAL, LinesOf(ScriptOf(codec, s.history))) ==
            Some(State(NormalizedAll(codec, s.history), s.document)) <==>
            forall c :: c in s.history ==> ComesBack(c)
  {
    var s := Run(codec, INITIAL, cs);
    ReachableIsConsistent(codec, cs);
    if forall c :: c in s.history ==> ComesBack(c) {
      SessionReplays(codec, cs);
    } else if Replay(codec, INITIAL, LinesOf(ScriptOf(codec, s.history))) == Some(Rebuilt(codec, s.history)) {
      RecordedAreRecordable(codec, s.history);
      var i :| 0 <= i < |s.history| && !ComesBack(s.history[i]);
      RebuiltComesBack(codec, s.history, i);
    }
  }

  lemma RecordedAreRecordable(codec: Codec, history: seq<Command>)
    requires Accepted(codec, history)
    requires forall c :: c in history ==> WellFormedCommand(codec, c) && OneLine(c)
    ensures forall c :: c in history ==> Recordable(codec, c)
  {
    forall c | c in history
      ensures Recordable(codec, c)
    {
      var i :| 0 <= i < |history| && history[i] == c;
      assert Check(codec, Derive(codec, history[..i]), c).Ok?;
    }
  }
}
