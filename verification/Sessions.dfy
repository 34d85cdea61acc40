/** A dumped script replays: fed back line by line, it is refused nowhere, needs
    no host, and rebuilds the same document and the same script. */
module Sessions {
  import opened Commands
  import opened Editing
  import opened Editor
  import opened Errors
  import opened Graph
  import opened Json
  import opened Parsed
  import opened Parser
  import opened Printer
  import opened RoundTrip
  import opened Text
  import opened Tokenizer

  // --- lines of a text ------------------------------------------------------

  function LineLength(s: string): (n: nat)
    ensures n <= |s|
    ensures '\n' !in s[..n]
    ensures n < |s| ==> s[n] == '\n'
  {
    if s == "" || s[0] == '\n' then 0 else 1 + LineLength(s[1..])
  }

  /** A terminated line loses its newline, and a carriage return before it. */
  function Unterminated(line: string): string {
    if line != "" && line[|line| - 1] == '\r' then line[..|line| - 1] else line
  }

  function LinesOf(s: string): seq<string>
    decreases |s|
  {
    var n := LineLength(s);
    if s == "" then []
    else if n == |s| then [s]
    else [Unterminated(s[..n])] + LinesOf(s[n + 1..])
  }

  lemma {:induction false} LineLengthIs(line: string, rest: string)
    requires '\n' !in line
    ensures LineLength(line + "\n" + rest) == |line|
    decreases |line|
  {
    var s := line + "\n" + rest;
    if line != "" {
      assert s[1..] == line[1..] + "\n" + rest;
      LineLengthIs(line[1..], rest);
    }
  }

  /** A line that a script can hold: no newline in it, no whitespace at its end. */
  predicate ScriptLine(line: string) {
    '\n' !in line && !EndsInWhitespace(line)
  }

  lemma FirstLine(line: string, rest: string)
    requires ScriptLine(line)
    ensures LinesOf(line + "\n" + rest) == [line] + LinesOf(rest)
  {
    var s := line + "\n" + rest;
    LineLengthIs(line, rest);
    assert s[..|line|] == line && s[|line| + 1..] == rest;
  }

  function LinesFor(codec: Codec, history: seq<Command>): (lines: seq<string>)
    ensures |lines| == |history|
    ensures forall i :: 0 <= i < |history| ==> lines[i] == ToLine(codec, history[i])
  {
    if history == [] then [] else [ToLine(codec, history[0])] + LinesFor(codec, history[1..])
  }

  /** A script splits into one line per recorded command. */
  lemma {:induction false} ScriptLines(codec: Codec, history: seq<Command>)
    requires forall c :: c in history ==> ScriptLine(ToLine(codec, c))
    ensures LinesOf(ScriptOf(codec, history)) == LinesFor(codec, history)
    decreases |history|
  {
    if history != [] {
      ScriptFirst(codec, history);
      FirstLine(ToLine(codec, history[0]), ScriptOf(codec, history[1..]));
      ScriptLines(codec, history[1..]);
    }
  }

  // --- dumped lines ---------------------------------------------------------

  lemma {:induction false} EscapedTextIsVisible(s: string)
    ensures forall c :: c in EscapeText(s) ==> c >= ' '
  {
    if s != "" {
      EscapedTextIsVisible(s[1..]);
    }
  }

  lemma {:induction false} PrintIsVisible(j: Json)
    requires LiteralNumbers(j)
    ensures forall c :: c in Print(j) ==> c >= ' '
    decreases j, 1
  {
    match j
    case Num(literal) =>
      forall c | c in literal
        ensures c >= ' '
      {
        var i :| 0 <= i < |literal| && literal[i] == c;
      }
    case Str(text) => EscapedTextIsVisible(text);
    case Arr(items) => PrintItemsIsVisible(items);
    case Obj(members) => PrintMembersIsVisible(members);
    case _ =>
  }

  lemma {:induction false} PrintItemsIsVisible(items: seq<Json>)
    requires forall i :: 0 <= i < |items| ==> LiteralNumbers(items[i])
    ensures forall c :: c in PrintItems(items) ==> c >= ' '
    decreases items, 0
  {
    if items != [] {
      PrintIsVisible(items[0]);
      PrintItemsIsVisible(items[1..]);
    }
  }

  lemma PrintMemberIsVisible(m: Member)
    requires forall c :: c in Print(m.value) ==> c >= ' '
    ensures forall c :: c in PrintMember(m) ==> c >= ' '
  {
    EscapedTextIsVisible(m.name);
  }

  lemma {:induction false} PrintMembersIsVisible(members: seq<Member>)
    requires forall i :: 0 <= i < |members| ==> LiteralNumbers(members[i].value)
    ensures forall c :: c in PrintMembers(members) ==> c >= ' '
    decreases members, 0
  {
    if members != [] {
      PrintIsVisible(members[0].value);
      PrintMemberIsVisible(members[0]);
      PrintMembersIsVisible(members[1..]);
    }
  }

  lemma PieceHasNoNewline(piece: Piece)
    requires Faithfully(piece)
    ensures '\n' !in piece.Written()
  {
    match piece
    case Literal(text) =>
      assert '\n' in text ==> HasWhitespace(text);
    case WordOf(word) => WordHasNoNewline(word);
    case JsonOf(value) => PrintIsVisible(value);
  }

  lemma PieceEndsPlain(piece: Piece)
    requires Faithfully(piece)
    ensures piece.Written() != "" && !EndsInWhitespace(piece.Written())
  {
    PieceReadsAs(piece);
    var s := piece.Written();
    assert AtBoundary("") && s + "" == s;
    assert NextToken(s + "") == Token(piece.Reading(), "");
    TokenEndsPlain(s);
  }

  lemma {:induction false} JoinEnds(pieces: seq<string>)
    requires pieces != [] && pieces[|pieces| - 1] != ""
    ensures EndsInWhitespace(Join(pieces)) == EndsInWhitespace(pieces[|pieces| - 1])
    decreases |pieces|
  {
    if |pieces| > 1 {
      JoinEnds(pieces[1..]);
      JoinNonempty(pieces[1..]);
      assert Join(pieces) == pieces[0] + " " + Join(pieces[1..]);
    }
  }

  lemma {:induction false} JoinNonempty(pieces: seq<string>)
    requires pieces != [] && pieces[|pieces| - 1] != ""
    ensures Join(pieces) != ""
  {
  }

  lemma FaithfulLine(codec: Codec, c: Command)
    requires AllFaithful(CommandPieces(codec, c))
    ensures ScriptLine(ToLine(codec, c))
  {
    var pieces := CommandPieces(codec, c);
    var written := Written(pieces);
    forall i | 0 <= i < |written|
      ensures '\n' !in written[i]
    {
      PieceHasNoNewline(pieces[i]);
    }
    JoinHasNo(written, '\n');
    PieceEndsPlain(pieces[|pieces| - 1]);
    JoinEnds(written);
  }

  // --- replaying ------------------------------------------------------------

  type Reading = Result<Option<Line>, ParseError>

  function ParseAll(codec: Codec, lines: seq<string>): (parsed: seq<Reading>)
    ensures |parsed| == |lines|
    ensures forall i :: 0 <= i < |lines| ==> parsed[i] == Parse(codec, lines[i])
  {
    if lines == [] then [] else [Parse(codec, lines[0])] + ParseAll(codec, lines[1..])
  }

  /** Applies parsed lines in turn. Nothing means that one of them did not parse,
      needed the host, or was refused. */
  function Feed(codec: Codec, s: State, parsed: seq<Reading>): Option<State>
    decreases |parsed|
  {
    if parsed == [] then Some(s)
    else match parsed[0]
      case Err(_) => None
      case Ok(None) => Feed(codec, s, parsed[1..])
      case Ok(Some(Host(_))) => None
      case Ok(Some(CommandLine(c))) =>
        var (after, outcome) := Next(codec, s, c);
        if outcome.status == Refusing then None else Feed(codec, after, parsed[1..])
  }

  /** Feeds lines to an editor. */
  function Replay(codec: Codec, s: State, lines: seq<string>): Option<State> {
    Feed(codec, s, ParseAll(codec, lines))
  }

  /** A recorded read comes back with its JSON normalised; every other command
      comes back as it was. */
  function Normalized(codec: Codec, c: Command): Command {
    if c.ReadDocument? then
      match codec.parse(c.json)
      case Some(graph) => ReadDocument(Print(codec.encode(graph)))
      case None => c
    else c
  }

  function NormalizedAll(codec: Codec, history: seq<Command>): (r: seq<Command>)
    ensures |r| == |history|
    ensures forall i :: 0 <= i < |history| ==> r[i] == Normalized(codec, history[i])
  {
    if history == [] then [] else [Normalized(codec, history[0])] + NormalizedAll(codec, history[1..])
  }

  /** A command that a session can record and a script can hold. */
  ghost predicate Dumpable(codec: Codec, c: Command) {
    && Changes(c)
    && WellFormedCommand(codec, c)
    && ComesBack(c)
    && (c.ReadDocument? ==> codec.parse(c.json).Some?)
  }

  lemma DumpedReadParses(codec: Codec, graph: Document)
    requires Faithful(codec) && Decoded(codec, graph)
    ensures ParseTokens(codec, ["read", "--json", Print(codec.encode(graph))]) ==
            Ok(CommandLine(ReadDocument(Print(codec.encode(graph)))))
  {
    var tokens := ["read", "--json", Print(codec.encode(graph))];
    assert tokens[1..] == ["--json", Print(codec.encode(graph))];
  }

  lemma DumpedReadLine(codec: Codec, json: string)
    requires Faithful(codec) && codec.parse(json).Some?
    requires AllFaithful(CommandPieces(codec, ReadDocument(json)))
    ensures Parse(codec, ToLine(codec, ReadDocument(json))) ==
            Ok(Some(CommandLine(Normalized(codec, ReadDocument(json)))))
  {
    var graph := codec.parse(json).value;
    assert Decoded(codec, graph);
    LineReads(codec, ReadDocument(json));
    DumpedReadParses(codec, graph);
    assert Readings(CommandPieces(codec, ReadDocument(json))) == ["read", "--json", Print(codec.encode(graph))];
  }

  lemma DumpedLineParses(codec: Codec, c: Command)
    requires Faithful(codec) && Dumpable(codec, c)
    ensures Parse(codec, ToLine(codec, c)) == Ok(Some(CommandLine(Normalized(codec, c))))
    ensures ScriptLine(ToLine(codec, c))
  {
    ChangesFaithful(codec, c);
    FaithfulLine(codec, c);
    if c.ReadDocument? {
      DumpedReadLine(codec, c.json);
    } else {
      PrintParse(codec, c);
    }
  }

  lemma NormalizedSame(codec: Codec, c: Command, graph: Document)
    requires Faithful(codec) && Dumpable(codec, c)
    ensures Changes(Normalized(codec, c))
    ensures ToLine(codec, Normalized(codec, c)) == ToLine(codec, c)
    ensures Editing.Step(codec, graph, Normalized(codec, c)) == Editing.Step(codec, graph, c)
    ensures Check(codec, graph, Normalized(codec, c)) == Check(codec, graph, c)
  {
    if c.ReadDocument? {
      assert Decoded(codec, codec.parse(c.json).value);
    }
  }

  lemma {:induction false} NormalizedDerivesSame(codec: Codec, history: seq<Command>)
    requires Faithful(codec) && forall c :: c in history ==> Dumpable(codec, c)
    ensures Derive(codec, NormalizedAll(codec, history)) == Derive(codec, history)
    ensures ScriptOf(codec, NormalizedAll(codec, history)) == ScriptOf(codec, history)
    decreases |history|
  {
    if history != [] {
      var n := |history| - 1;
      NormalizedDerivesSame(codec, history[..n]);
      assert NormalizedAll(codec, history)[..n] == NormalizedAll(codec, history[..n]);
      NormalizedSame(codec, history[n], Derive(codec, history[..n]));
      NormalizedDerivesSame(codec, history[1..]);
      assert NormalizedAll(codec, history)[1..] == NormalizedAll(codec, history[1..]);
      NormalizedSame(codec, history[0], EMPTY_DOCUMENT);
    }
  }

  /** What a dumped history is replayed to. */
  function Rebuilt(codec: Codec, history: seq<Command>): State {
    State(NormalizedAll(codec, history), Derive(codec, history))
  }

  lemma NextRecords(codec: Codec, s: State, c: Command)
    requires s.document == Derive(codec, s.history)
    requires Changes(c) && Check(codec, s.document, c).Ok?
    ensures Next(codec, s, c).1.status == Applied
    ensures Next(codec, s, c).0 == State(s.history + [c], Editing.Step(codec, s.document, c))
  {
    DeriveNext(codec, s.history, c);
  }

  lemma NormalizedAllNext(codec: Codec, past: seq<Command>, c: Command)
    ensures NormalizedAll(codec, past + [c]) == NormalizedAll(codec, past) + [Normalized(codec, c)]
  {
  }

  lemma RebuiltNext(codec: Codec, past: seq<Command>, c: Command)
    requires Faithful(codec) && Dumpable(codec, c)
    ensures Rebuilt(codec, past + [c]) ==
            State(NormalizedAll(codec, past) + [Normalized(codec, c)],
                  Editing.Step(codec, Derive(codec, past), Normalized(codec, c)))
  {
    DeriveNext(codec, past, c);
    NormalizedAllNext(codec, past, c);
    NormalizedSame(codec, c, Derive(codec, past));
  }

  lemma FeedStep(codec: Codec, s: State, parsed: seq<Reading>, c: Command)
    requires parsed != [] && parsed[0] == Ok(Some(CommandLine(c)))
    requires Next(codec, s, c).1.status == Applied
    ensures Feed(codec, s, parsed) == Feed(codec, Next(codec, s, c).0, parsed[1..])
  {
  }

  lemma ReplayedStep(codec: Codec, history: seq<Command>, at: nat)
    requires Faithful(codec) && at < |history|
    requires forall c :: c in history ==> Dumpable(codec, c)
    requires Changes(history[at]) && Check(codec, Derive(codec, history[..at]), history[at]).Ok?
    ensures var (after, outcome) := Next(codec, Rebuilt(codec, history[..at]), Normalized(codec, history[at]));
            after == Rebuilt(codec, history[..at + 1]) && outcome.status == Applied
  {
    var past, c := history[..at], history[at];
    assert history[..at + 1] == past + [c];
    NormalizedDerivesSame(codec, past);
    NormalizedSame(codec, c, Derive(codec, past));
    RebuiltNext(codec, past, c);
    NextRecords(codec, Rebuilt(codec, past), Normalized(codec, c));
  }

  lemma {:induction false} HistoryFeeds(codec: Codec, history: seq<Command>, parsed: seq<Reading>, at: nat)
    requires Faithful(codec) && Accepted(codec, history) && at <= |parsed| == |history|
    requires forall c :: c in history ==> Dumpable(codec, c)
    requires forall i :: 0 <= i < |history| ==> parsed[i] == Ok(Some(CommandLine(Normalized(codec, history[i]))))
    ensures Feed(codec, Rebuilt(codec, history[..at]), parsed[at..]) == Some(Rebuilt(codec, history))
    decreases |history| - at
  {
    if at == |history| {
      assert history[..at] == history;
    } else {
      ReplayedStep(codec, history, at);
      FeedStep(codec, Rebuilt(codec, history[..at]), parsed[at..], Normalized(codec, history[at]));
      assert parsed[at..][1..] == parsed[at + 1..];
      HistoryFeeds(codec, history, parsed, at + 1);
    }
  }

  lemma HistoryDumps(codec: Codec, history: seq<Command>)
    requires Faithful(codec) && forall c :: c in history ==> Dumpable(codec, c)
    ensures LinesOf(ScriptOf(codec, history)) == LinesFor(codec, history)
    ensures forall i :: 0 <= i < |history| ==>
              Parse(codec, LinesFor(codec, history)[i]) == Ok(Some(CommandLine(Normalized(codec, history[i]))))
  {
    forall c | c in history
      ensures ScriptLine(ToLine(codec, c)) &&
              Parse(codec, ToLine(codec, c)) == Ok(Some(CommandLine(Normalized(codec, c))))
    {
      DumpedLineParses(codec, c);
    }
    ScriptLines(codec, history);
  }

  lemma HistoryReplays(codec: Codec, history: seq<Command>)
    requires Faithful(codec) && Accepted(codec, history)
    requires forall c :: c in history ==> WellFormedCommand(codec, c) && ComesBack(c)
    ensures var lines := LinesOf(ScriptOf(codec, history));
            && |lines| == |history|
            && Replay(codec, INITIAL, lines) == Some(Rebuilt(codec, history))
    ensures ScriptOf(codec, NormalizedAll(codec, history)) == ScriptOf(codec, history)
  {
    forall c | c in history
      ensures Dumpable(codec, c)
    {
      var i :| 0 <= i < |history| && history[i] == c;
      assert Check(codec, Derive(codec, history[..i]), c).Ok?;
    }
    HistoryDumps(codec, history);
    assert Rebuilt(codec, history[..0]) == INITIAL;
    HistoryFeeds(codec, history, ParseAll(codec, LinesFor(codec, history)), 0);
    NormalizedDerivesSame(codec, history);
  }

  /** A whole session replays. Take any commands, queries and undos included,
      whose recorded survivors a script can hold. Feeding the dumped script line
      by line to an empty editor refuses nothing and asks the host nothing; it
      rebuilds the identical document, the history up to the form of reads, and
      the identical script. */
  lemma SessionReplays(codec: Codec, cs: seq<Command>)
    requires Faithful(codec)
    requires forall c :: c in Run(codec, INITIAL, cs).history ==> WellFormedCommand(codec, c) && ComesBack(c)
    ensures var s := Run(codec, INITIAL, cs);
            var replayed := Replay(codec, INITIAL, LinesOf(ScriptOf(codec, s.history)));
            && |LinesOf(ScriptOf(codec, s.history))| == |s.history|
            && replayed == Some(State(NormalizedAll(codec, s.history), s.document))
            && ScriptOf(codec, replayed.value.history) == ScriptOf(codec, s.history)
  {
    var s := Run(codec, INITIAL, cs);
    ReachableIsConsistent(codec, cs);
    HistoryReplays(codec, s.history);
  }

  // --- typed sessions -------------------------------------------------------

  /** A command as a session gets one: a line parsed to it, the host completed a
      draft to it, or the host read a document. */
  ghost predicate Typed(codec: Codec, c: Command) {
    || (exists line :: Parse(codec, line) == Ok(Some(CommandLine(c))))
    || (exists line, path, draft, hash ::
          Parse(codec, line) == Ok(Some(Host(AgentFile(path, draft)))) && c == WithHash(draft, hash))
    || c.ReadDocument?
  }

  lemma TypedIsWellFormed(codec: Codec, c: Command)
    requires Typed(codec, c)
    ensures WellFormedCommand(codec, c)
  {
    if line :| Parse(codec, line) == Ok(Some(CommandLine(c))) {
      ParsedWellFormed(codec, line);
    } else if line, path, draft, hash :|
        Parse(codec, line) == Ok(Some(Host(AgentFile(path, draft)))) && c == WithHash(draft, hash) {
      ParsedWellFormed(codec, line);
    }
  }

  lemma {:induction false} HistoryIsFromRun(codec: Codec, s: State, cs: seq<Command>)
    ensures forall c :: c in Run(codec, s, cs).history ==> c in s.history || c in cs
    decreases |cs|
  {
    if cs != [] {
      var after := Next(codec, s, cs[0]).0;
      HistoryIsFromRun(codec, after, cs[1..]);
      assert forall c :: c in after.history ==> c in s.history || c == cs[0];
    }
  }

  /** The same for a session of typed lines: it replays whenever no command that
      survives it has a bare string for a schema or whitespace in a best-by
      reference, whatever was typed and undone. */
  lemma TypedSessionReplays(codec: Codec, cs: seq<Command>)
    requires Faithful(codec)
    requires forall c :: c in cs ==> Typed(codec, c)
    requires forall c :: c in Run(codec, INITIAL, cs).history ==> ComesBack(c)
    ensures var s := Run(codec, INITIAL, cs);
            var replayed := Replay(codec, INITIAL, LinesOf(ScriptOf(codec, s.history)));
            && |LinesOf(ScriptOf(codec, s.history))| == |s.history|
            && replayed == Some(State(NormalizedAll(codec, s.history), s.document))
            && ScriptOf(codec, replayed.value.history) == ScriptOf(codec, s.history)
  {
    HistoryIsFromRun(codec, INITIAL, cs);
    forall c | c in Run(codec, INITIAL, cs).history
      ensures WellFormedCommand(codec, c)
    {
      TypedIsWellFormed(codec, c);
    }
    SessionReplays(codec, cs);
  }
}
