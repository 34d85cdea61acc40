/** Where one word finishes a line, every name that completion offers there
    finishes it too. */
module Finishing {
  import opened Commands
  import opened Completion
  import opened Editing
  import opened Editor
  import opened Errors
  import opened Graph
  import opened Parser
  import opened References
  import opened RoundTrip
  import opened Sequences
  import opened Text
  import opened Tokenizer

  // --- replacing the word at the end ----------------------------------------

  /** `piece` put where the cursor is gives the finished words and `token`. */
  ghost predicate CompletesTo(line: string, piece: string, token: string) {
    TokensOf(Front(line) + piece) == Scanned(PartialOf(line).done + [token], None)
  }

  lemma CompletesSpace(line: string, piece: string, token: string)
    requires line != "" && IsWhitespace(line[0]) && CompletesTo(line[1..], piece, token)
    ensures CompletesTo(line, piece, token)
  {
    var front := Front(line[1..]);
    PartialSpace(line);
    FrontSpace(line);
    SpaceScans(line[0], front + piece);
    Assoc([line[0]], front, piece);
  }

  lemma FrontBounded(rest: string, piece: string)
    requires rest != "" && AtBoundary(rest)
    ensures AtBoundary(Front(rest) + piece)
  {
    CurrentIsToken(rest);
    FrontStarts(rest, piece);
  }

  lemma TokenLeads(line: string, piece: string)
    requires line != "" && !IsWhitespace(line[0])
    requires NextToken(line).Token? && NextToken(line).rest != ""
    ensures var Token(text, rest) := NextToken(line);
            TokensOf(line[..|line| - |rest|] + (Front(rest) + piece)) == TokensOf(Front(rest) + piece).Prepend([text])
  {
    var rest := NextToken(line).rest;
    if AtBoundary(rest) {
      FrontBounded(rest, piece);
    }
    TokenKept(line, Front(rest) + piece);
  }

  lemma FrontMore(line: string, piece: string)
    requires line != "" && !IsWhitespace(line[0])
    requires NextToken(line).Token? && NextToken(line).rest != ""
    ensures var rest := NextToken(line).rest;
            Front(line) + piece == line[..|line| - |rest|] + (Front(rest) + piece)
  {
    var rest := NextToken(line).rest;
    FrontToken(line);
    Assoc(line[..|line| - |rest|], Front(rest), piece);
  }

  lemma DoneMore(line: string, token: string)
    requires line != "" && !IsWhitespace(line[0])
    requires NextToken(line).Token? && NextToken(line).rest != ""
    ensures var Token(text, rest) := NextToken(line);
            PartialOf(line).done + [token] == [text] + (PartialOf(rest).done + [token])
  {
    var Token(text, rest) := NextToken(line);
    PartialToken(line);
    Assoc([text], PartialOf(rest).done, [token]);
  }

  lemma CompletesToken(line: string, piece: string, token: string)
    requires line != "" && !IsWhitespace(line[0]) && piece != ""
    requires NextToken(line).Token? && NextToken(line).rest != ""
    requires CompletesTo(NextToken(line).rest, piece, token)
    ensures CompletesTo(line, piece, token)
  {
    TokenLeads(line, piece);
    FrontMore(line, piece);
    DoneMore(line, token);
  }

  /** Putting a word where the cursor is gives a line whose tokens are the
      finished words and that word. */
  lemma {:induction false} Completes(line: string, piece: string, token: string)
    requires ReadsAs(piece, token)
    ensures CompletesTo(line, piece, token)
    decreases |line|
  {
    if PartialOf(line).current == line {
      PieceScans(piece, token, "");
      assert Front(line) + piece == piece + "";
      assert [] + [token] == [token] + [];
    } else if IsWhitespace(line[0]) {
      Completes(line[1..], piece, token);
      CompletesSpace(line, piece, token);
    } else {
      Completes(NextToken(line).rest, piece, token);
      CompletesToken(line, piece, token);
    }
  }

  lemma {:induction false} TrimmedFirst(line: string)
    requires TokensOf(line).tokens != []
    ensures var trimmed := TrimStart(line);
            trimmed != "" && !IsWhitespace(trimmed[0]) &&
            NextToken(trimmed).Token? && NextToken(trimmed).text == TokensOf(line).tokens[0]
  {
    if IsWhitespace(line[0]) {
      TrimmedFirst(line[1..]);
    }
  }

  lemma TopicsPlain()
    ensures forall t :: t in TOPICS ==> t != "" && t[0] != '#'
  {
  }

  /** A completed line parses as its tokens. */
  lemma CompletedParses(codec: Codec, line: string, piece: string, token: string)
    requires ReadsAs(piece, token)
    requires PartialOf(line).done != [] && PartialOf(line).done[0] in TOPICS
    ensures Parse(codec, Front(line) + piece) == Lifted(ParseTokens(codec, PartialOf(line).done + [token]))
  {
    var full := Front(line) + piece;
    Completes(line, piece, token);
    TrimmedFirst(full);
    TopicsPlain();
    if TrimStart(full)[0] == '#' {
      UnquotedTakes(TrimStart(full));
    }
  }

  // --- the last token -------------------------------------------------------

  lemma {:induction false} SpelledIn(opts: seq<Opt>, token: string)
    ensures Spelled(opts, token).Some? ==> Spelled(opts, token).value in opts
  {
    if opts != [] && OptText(opts[0]) != token {
      SpelledIn(opts[1..], token);
    }
  }

  /** With `w` last the options end in `opt` with that value, and with `c` last
      they end in `opt` with that one. */
  ghost predicate EndsIn(codec: Codec, form: Form, tokens: seq<string>, w: string, c: string, o: Options, opt: Opt,
                         middle: Options) {
    && tokens != [] && opt in Allowed(form) && OptText(opt) == tokens[|tokens| - 1]
    && ReadOptions(codec, form, tokens + [w], o) == Store(codec, form, opt, w, middle)
    && ReadOptions(codec, form, tokens + [c], o) == Store(codec, form, opt, c, middle)
  }

  lemma OptionFound(form: Form, token: string)
    requires OptionOf(form, token).Some?
    ensures OptionOf(form, token).value in Allowed(form) && OptText(OptionOf(form, token).value) == token
  {
    SpelledIs(Allowed(form), token);
    SpelledIn(Allowed(form), token);
  }

  lemma EndsInOne(codec: Codec, form: Form, first: string, w: string, c: string, o: Options)
    requires OptionOf(form, first).Some? && OptionOf(form, first) != Some(Model)
    ensures EndsIn(codec, form, [first], w, c, o, OptionOf(form, first).value, o)
  {
    var opt := OptionOf(form, first).value;
    OptionFound(form, first);
    OptionReads(codec, form, opt, [first, w], o);
    OptionReads(codec, form, opt, [first, c], o);
    assert [first] + [w] == [first, w] && [first, w][2..] == [];
    assert [first] + [c] == [first, c] && [first, c][2..] == [];
  }

  lemma EndsInMore(codec: Codec, form: Form, tokens: seq<string>, w: string, c: string, o: Options, next: Options,
                   opt: Opt, middle: Options)
    requires |tokens| >= 2 && OptionOf(form, tokens[0]).Some? && OptionOf(form, tokens[0]) != Some(Model)
    requires Store(codec, form, OptionOf(form, tokens[0]).value, tokens[1], o) == Ok(next)
    requires EndsIn(codec, form, tokens[2..], w, c, next, opt, middle)
    ensures EndsIn(codec, form, tokens, w, c, o, opt, middle)
  {
    PairThenLast(codec, form, tokens, w, o, next);
    PairThenLast(codec, form, tokens, c, o, next);
  }

  lemma PairThenLast(codec: Codec, form: Form, tokens: seq<string>, x: string, o: Options, next: Options)
    requires |tokens| >= 2 && OptionOf(form, tokens[0]).Some? && OptionOf(form, tokens[0]) != Some(Model)
    requires Store(codec, form, OptionOf(form, tokens[0]).value, tokens[1], o) == Ok(next)
    ensures ReadOptions(codec, form, tokens + [x], o) == ReadOptions(codec, form, tokens[2..] + [x], next)
  {
    OptionFound(form, tokens[0]);
    OptionReads(codec, form, OptionOf(form, tokens[0]).value, tokens + [x], o);
    assert (tokens + [x])[2..] == tokens[2..] + [x];
  }

  lemma EndsInFlag(codec: Codec, form: Form, tokens: seq<string>, w: string, c: string, o: Options, opt: Opt,
                   middle: Options)
    requires tokens != [] && OptionOf(form, tokens[0]) == Some(Model)
    requires EndsIn(codec, form, tokens[1..], w, c, o.(model := true), opt, middle)
    ensures EndsIn(codec, form, tokens, w, c, o, opt, middle)
  {
    FlagReads(codec, form, tokens + [w], o);
    FlagReads(codec, form, tokens + [c], o);
    assert (tokens + [w])[1..] == tokens[1..] + [w] && (tokens + [c])[1..] == tokens[1..] + [c];
  }

  lemma PairReads(codec: Codec, form: Form, tokens: seq<string>, w: string, o: Options) returns (next: Options)
    requires |tokens| >= 2 && OptionOf(form, tokens[0]).Some? && OptionOf(form, tokens[0]) != Some(Model)
    requires ReadOptions(codec, form, tokens + [w], o).Ok?
    ensures Store(codec, form, OptionOf(form, tokens[0]).value, tokens[1], o) == Ok(next)
    ensures ReadOptions(codec, form, tokens[2..] + [w], next).Ok?
  {
    var all := tokens + [w];
    OptionFound(form, tokens[0]);
    var first := OptionOf(form, tokens[0]).value;
    OptionReads(codec, form, first, all, o);
    assert all[1] == tokens[1] && all[2..] == tokens[2..] + [w];
    next := Store(codec, form, first, tokens[1], o).value;
  }

  /** No command takes the word for an option that stands alone. */
  predicate NoFlag(form: Form, w: string) {
    form.CaseForm? ==> w != "--model"
  }

  lemma LoneToken(codec: Codec, form: Form, w: string, o: Options)
    requires NoFlag(form, w)
    ensures ReadOptions(codec, form, [w], o).Err?
  {
    if OptionOf(form, w).Some? {
      OptionFound(form, w);
    }
  }

  lemma FirstIsOption(codec: Codec, form: Form, tokens: seq<string>, w: string, o: Options)
    requires tokens != [] && ReadOptions(codec, form, tokens + [w], o).Ok?
    ensures OptionOf(form, tokens[0]).Some?
    ensures OptionOf(form, tokens[0]) == Some(Model) ==>
              ReadOptions(codec, form, tokens[1..] + [w], o.(model := true)).Ok?
  {
    var all := tokens + [w];
    assert all[0] == tokens[0] && all[1..] == tokens[1..] + [w];
  }

  /** Options that are read with a last token that is no option: it is the value
      of the option before it, and another token there is read the same way. */
  lemma {:induction false} LastValue(codec: Codec, form: Form, tokens: seq<string>, w: string, c: string, o: Options)
    returns (opt: Opt, middle: Options)
    requires NoFlag(form, w) && ReadOptions(codec, form, tokens + [w], o).Ok?
    ensures EndsIn(codec, form, tokens, w, c, o, opt, middle)
    decreases |tokens|
  {
    if tokens == [] {
      assert [] + [w] == [w];
      LoneToken(codec, form, w, o);
      opt, middle := Hash, o;
    } else {
      FirstIsOption(codec, form, tokens, w, o);
      if OptionOf(form, tokens[0]) == Some(Model) {
        opt, middle := LastValue(codec, form, tokens[1..], w, c, o.(model := true));
        EndsInFlag(codec, form, tokens, w, c, o, opt, middle);
      } else if |tokens| == 1 {
        opt, middle := OptionOf(form, tokens[0]).value, o;
        EndsInOne(codec, form, tokens[0], w, c, o);
        assert tokens == [tokens[0]];
      } else {
        var next := PairReads(codec, form, tokens, w, o);
        opt, middle := LastValue(codec, form, tokens[2..], w, c, next);
        EndsInMore(codec, form, tokens, w, c, o, next, opt, middle);
      }
    }
  }

  // --- one command at a time ------------------------------------------------

  lemma EdgeLast(codec: Codec, rest: seq<string>, w: string, c: string)
    requires ParseEdge(codec, rest + [w]).Ok?
    ensures ParseEdge(codec, rest + [c]).Ok?
  {
    if |rest| == 1 {
      assert (rest + [c])[2..] == [];
    } else {
      assert (rest + [w])[2..] == rest[2..] + [w] && (rest + [c])[2..] == rest[2..] + [c];
      var opt, middle := LastValue(codec, EdgeForm, rest[2..], w, c, NO_OPTIONS);
      assert opt == Tag;
    }
  }

  lemma RemoveEdgeParses(codec: Codec, rest: seq<string>, x: string)
    requires |rest| > 1
    ensures ParseRemoveEdge(codec, rest + [x]).Ok? == ReadOptions(codec, RemoveEdge, rest[2..] + [x], NO_OPTIONS).Ok?
  {
    assert (rest + [x])[2..] == rest[2..] + [x];
  }

  lemma RemoveEdgeLast(codec: Codec, rest: seq<string>, w: string, c: string)
    requires ParseRemoveEdge(codec, rest + [w]).Ok?
    ensures ParseRemoveEdge(codec, rest + [c]).Ok?
  {
    if |rest| == 1 {
      assert (rest + [c])[2..] == [];
    } else {
      RemoveEdgeParses(codec, rest, w);
      RemoveEdgeParses(codec, rest, c);
      var opt, middle := LastValue(codec, RemoveEdge, rest[2..], w, c, NO_OPTIONS);
      assert opt == Tag;
    }
  }

  lemma CaseParses(codec: Codec, rest: seq<string>, x: string)
    requires |rest| > 1
    ensures ParseCase(codec, rest + [x]) ==
            match ReadOptions(codec, CaseForm, rest[2..] + [x], NO_OPTIONS)
            case Ok(o) => BuildCase(rest[0], rest[1], o)
            case Err(error) => Err(error)
  {
    assert (rest + [x])[2..] == rest[2..] + [x];
  }

  lemma CaseTooShort(codec: Codec, rest: seq<string>, w: string)
    requires |rest| <= 1
    ensures ParseCase(codec, rest + [w]).Err?
  {
  }

  lemma CaseStores(codec: Codec, branch: string, name: string, opt: Opt, w: string, c: string, o: Options)
    requires opt in Allowed(CaseForm) && Store(codec, CaseForm, opt, w, o).Ok?
    requires BuildCase(branch, name, Store(codec, CaseForm, opt, w, o).value).Ok?
    ensures Store(codec, CaseForm, opt, c, o).Ok? &&
            BuildCase(branch, name, Store(codec, CaseForm, opt, c, o).value).Ok?
  {
    assert opt == When || opt == Model;
  }

  lemma CaseLast(codec: Codec, rest: seq<string>, w: string, c: string)
    requires w != "--model" && ParseCase(codec, rest + [w]).Ok?
    ensures ParseCase(codec, rest + [c]).Ok?
  {
    if |rest| <= 1 {
      CaseTooShort(codec, rest, w);
    } else {
      CaseParses(codec, rest, w);
      CaseParses(codec, rest, c);
      var opt, middle := LastValue(codec, CaseForm, rest[2..], w, c, NO_OPTIONS);
      CaseStores(codec, rest[0], rest[1], opt, w, c, middle);
    }
  }

  lemma MapParses(codec: Codec, rest: seq<string>, x: string)
    requires rest != []
    ensures ParseAddMap(codec, rest + [x]) ==
            match ReadOptions(codec, AddMap, rest[1..] + [x], NO_OPTIONS)
            case Ok(o) => BuildMap(rest[0], o)
            case Err(error) => Err(error)
  {
    assert (rest + [x])[1..] == rest[1..] + [x];
  }

  lemma BodyStores(codec: Codec, id: string, opt: Opt, w: string, c: string, o: Options)
    requires OptText(opt) == "--body" && Store(codec, AddMap, opt, w, o).Ok?
    requires BuildMap(id, Store(codec, AddMap, opt, w, o).value).Ok?
    ensures Store(codec, AddMap, opt, c, o).Ok? && BuildMap(id, Store(codec, AddMap, opt, c, o).value).Ok?
  {
    OptNamedText(opt);
    assert opt == BodyNode;
  }

  lemma MapLast(codec: Codec, rest: seq<string>, w: string, c: string)
    requires ParseAddMap(codec, rest + [w]).Ok?
    requires rest != [] && rest[|rest| - 1] == "--body"
    ensures ParseAddMap(codec, rest + [c]).Ok?
  {
    MapParses(codec, rest, w);
    MapParses(codec, rest, c);
    if |rest| == 1 {
      assert rest[1..] + [w] == [w];
      LoneToken(codec, AddMap, w, NO_OPTIONS);
    } else {
      var opt, middle := LastValue(codec, AddMap, rest[1..], w, c, NO_OPTIONS);
      assert rest[1..][|rest| - 2] == rest[|rest| - 1];
      BodyStores(codec, rest[0], opt, w, c, middle);
    }
  }

  /** Words that a fold option with a name or a fixed set takes. */
  predicate FoldValue(option: string, c: string) {
    || option == "--body"
    || (option == "--join" && (c == "last" || c == "all"))
    || (option == "--on-bound" && (c == "join" || c == "fail"))
  }

  lemma FoldStores(codec: Codec, opt: Opt, w: string, c: string, o: Options)
    requires FoldValue(OptText(opt), c) && Store(codec, AddFold, opt, w, o).Ok?
    ensures Store(codec, AddFold, opt, c, o).Ok?
    ensures BuildFold("", Store(codec, AddFold, opt, w, o).value).Ok? ==>
              BuildFold("", Store(codec, AddFold, opt, c, o).value).Ok?
  {
    OptNamedText(opt);
    FoldOptions(opt, c);
    match opt
    case JoinRule => JoinStores(codec, w, c, o);
    case Bound => BoundStores(codec, w, c, o);
    case BodyNode =>
  }

  lemma FoldOptions(opt: Opt, c: string)
    requires FoldValue(OptText(opt), c)
    ensures opt == BodyNode || (opt == JoinRule && (c == "last" || c == "all")) ||
            (opt == Bound && (c == "join" || c == "fail"))
  {
    OptNamedText(opt);
  }

  lemma JoinStores(codec: Codec, w: string, c: string, o: Options)
    requires (c == "last" || c == "all") && Store(codec, AddFold, JoinRule, w, o).Ok?
    ensures Store(codec, AddFold, JoinRule, c, o).Ok?
    ensures BuildFold("", Store(codec, AddFold, JoinRule, w, o).value).Ok? ==>
              BuildFold("", Store(codec, AddFold, JoinRule, c, o).value).Ok?
  {
  }

  lemma BoundStores(codec: Codec, w: string, c: string, o: Options)
    requires (c == "join" || c == "fail") && Store(codec, AddFold, Bound, w, o).Ok?
    ensures Store(codec, AddFold, Bound, c, o).Ok?
    ensures BuildFold("", Store(codec, AddFold, Bound, w, o).value).Ok? ==>
              BuildFold("", Store(codec, AddFold, Bound, c, o).value).Ok?
  {
  }

  lemma BuildFoldAny(id: string, o: Options)
    ensures BuildFold(id, o).Ok? == BuildFold("", o).Ok?
  {
  }

  lemma FoldParses(codec: Codec, rest: seq<string>, x: string)
    requires rest != []
    ensures ParseAddFold(codec, rest + [x]) ==
            match ReadOptions(codec, AddFold, rest[1..] + [x], NO_OPTIONS)
            case Ok(o) => BuildFold(rest[0], o)
            case Err(error) => Err(error)
  {
    assert (rest + [x])[1..] == rest[1..] + [x];
  }

  lemma FoldLast(codec: Codec, rest: seq<string>, w: string, c: string)
    requires ParseAddFold(codec, rest + [w]).Ok?
    requires rest != [] && FoldValue(rest[|rest| - 1], c)
    ensures ParseAddFold(codec, rest + [c]).Ok?
  {
    FoldParses(codec, rest, w);
    FoldParses(codec, rest, c);
    if |rest| == 1 {
      assert rest[1..] + [w] == [w];
      LoneToken(codec, AddFold, w, NO_OPTIONS);
    } else {
      var opt, middle := LastValue(codec, AddFold, rest[1..], w, c, NO_OPTIONS);
      assert rest[1..][|rest| - 2] == rest[|rest| - 1];
      FoldStores(codec, opt, w, c, middle);
      BuildFoldAny(rest[0], Store(codec, AddFold, opt, w, middle).value);
      BuildFoldAny(rest[0], Store(codec, AddFold, opt, c, middle).value);
    }
  }

  // --- the tokens of a line -------------------------------------------------

  predicate Commanded(r: Result<Line, ParseError>) {
    r.Ok? && r.value.CommandLine?
  }

  lemma RemoveLast(codec: Codec, rest: seq<string>, w: string, c: string)
    requires ParseRemove(codec, rest + [w]).Ok?
    ensures ParseRemove(codec, rest + [c]).Ok?
  {
    if rest != [] {
      var more := rest[1..];
      assert (rest + [w])[1..] == more + [w] && (rest + [c])[1..] == more + [c];
      assert (more + [w])[1..] == [] <==> more == [];
      if rest[0] == "edge" {
        RemoveEdgeLast(codec, more, w, c);
      }
    }
  }

  /** For these commands any word may stand where one does. */
  predicate TakesAnyName(topic: string) {
    topic == "show" || topic == "help" || topic == "rm" || topic == "edge" || topic == "case"
  }

  lemma AnyNameLast(codec: Codec, done: seq<string>, w: string, c: string)
    requires done != [] && TakesAnyName(done[0]) && (done[0] == "case" ==> w != "--model")
    requires Commanded(ParseTokens(codec, done + [w]))
    ensures Commanded(ParseTokens(codec, done + [c]))
  {
    var rest := done[1..];
    assert (done + [w])[1..] == rest + [w] && (done + [c])[1..] == rest + [c];
    assert (rest + [w])[1..] == [] <==> rest == [];
    if done[0] == "rm" {
      RemoveLast(codec, rest, w, c);
    } else if done[0] == "edge" {
      EdgeLast(codec, rest, w, c);
    } else if done[0] == "case" {
      CaseLast(codec, rest, w, c);
    }
  }

  // --- what completion offers -----------------------------------------------

  /** Text that the scanner reads as one word wherever it stands. */
  predicate OneWord(s: string) {
    s != "" && s[0] !in "\"{[" && forall i :: 0 <= i < |s| ==> !IsWhitespace(s[i])
  }

  /** Every node id and every case name is one word. */
  predicate PlainNames(graph: Document) {
    forall n :: n in graph.nodes ==>
      OneWord(n.id) && (n.BranchNode? ==> forall c :: c in n.cases ==> OneWord(c.name))
  }

  /** A position that names something: an argument, or the value of an option. */
  predicate NamesPlace(place: Place) {
    place.PositionalPlace? || place.ValuePlace?
  }

  /** An option whose values completion can name. */
  predicate Telling(o: FormOption) {
    match o.value
    case None => false
    case Some(OneOf(_)) => true
    case Some(Placeholder(text)) => text == "ID" || (text == "NAME" && o.name == "--label")
  }

  lemma {:induction false} ValueComes(options: seq<FormOption>, name: string)
    ensures ValueFor(options, name).Some? ==>
              exists o :: o in options && o.name == name && o.value == ValueFor(options, name)
  {
    if options != [] && options[0].name != name {
      ValueComes(options[1..], name);
    }
  }

  lemma {:induction false} OptionComes(shapes: seq<FormShape>, o: FormOption)
    requires o in EveryOption(shapes)
    ensures exists s :: s in shapes && o in Flatten(s.groups)
  {
    if o !in Flatten(shapes[0].groups) {
      OptionComes(shapes[1..], o);
    }
  }

  lemma GroupOf(groups: seq<seq<FormOption>>, o: FormOption) returns (i: nat)
    requires o in Flatten(groups)
    ensures i < |groups| && o in groups[i]
  {
    FlattenHolds(groups, o);
    i :| 0 <= i < |groups| && o in groups[i];
  }

  lemma QuietShapes(s: FormShape, o: FormOption)
    requires s in [GateShape(), DelayShape(), BranchShape()] && o in Flatten(s.groups)
    ensures !Telling(o)
  {
    var i := GroupOf(s.groups, o);
  }

  lemma QuietSchemas(s: FormShape, o: FormOption)
    requires s in [AgentShape(), ToolShape()] && o in Flatten(s.groups)
    ensures !Telling(o)
  {
    var i := GroupOf(s.groups, o);
  }

  lemma MapTelling(o: FormOption)
    requires o in Flatten(MapShape().groups) && Telling(o)
    ensures o == Valued("--body", "ID")
  {
    var i := GroupOf(MapShape().groups, o);
  }

  lemma FoldTelling(o: FormOption)
    requires o in Flatten(FoldShape().groups) && Telling(o)
    ensures o in [Valued("--body", "ID"), Choice("--join", ["last", "all", "best-by:"]),
                  Choice("--on-bound", ["join", "fail"])]
  {
    var i := GroupOf(FoldShape().groups, o);
  }

  /** The only options of an `add` whose values completion can name. */
  lemma AddTelling(s: FormShape, o: FormOption)
    requires s in Shapes("add") && o in Flatten(s.groups) && Telling(o)
    ensures (s == MapShape() && o == Valued("--body", "ID")) ||
            (s == FoldShape() && o in [Valued("--body", "ID"), Choice("--join", ["last", "all", "best-by:"]),
                                       Choice("--on-bound", ["join", "fail"])])
  {
    if s == MapShape() {
      MapTelling(o);
    } else if s == FoldShape() {
      FoldTelling(o);
    } else if s in [AgentShape(), ToolShape()] {
      QuietSchemas(s, o);
    } else {
      QuietShapes(s, o);
    }
  }

  lemma {:induction false} AwaitingIsLast(shapes: seq<FormShape>, words: seq<string>, w: Walk)
    ensures var end := WalkOver(shapes, words, w);
            words != [] && end.awaiting.Some? ==> end.awaiting.value == words[|words| - 1]
  {
    if words != [] {
      AwaitingIsLast(shapes, words[1..], WalkStep(shapes, w, words[0]));
    }
  }

  /** A value that is awaited is that of the option just before. */
  lemma ValueIsOfLast(topic: string, shapes: seq<FormShape>, words: seq<string>, current: string)
    requires PlaceIn(topic, shapes, words, current).ValuePlace?
    ensures var place := PlaceIn(topic, shapes, words, current);
            words != [] && place.option == words[|words| - 1] &&
            place.value == ValueFor(EveryOption(shapes), place.option)
  {
    AwaitingIsLast(shapes, words, UNREAD);
  }

  lemma AddPlace(done: seq<string>, current: string)
    requires done != [] && done[0] == "add" && NamesPlace(PlaceOf(done, current))
    ensures |done| > 1
    ensures PlaceOf(done, current) == PlaceIn("add", Retain(Shapes("add"), WithLiteral(done[1])), done[2..], current)
  {
    assert TOPICS[0] == "add";
  }

  lemma PlaceInTopic(topic: string, shapes: seq<FormShape>, words: seq<string>, current: string)
    ensures var place := PlaceIn(topic, shapes, words, current);
            place.PositionalPlace? ==> place.topic == topic
  {
  }

  /** A value with something to offer is a telling one. */
  lemma ValueTells(graph: Document, o: FormOption, positionals: seq<string>, c: string)
    requires var offered := ValueCandidates(graph, o.value, o.name, positionals);
             offered.Words? && c in offered.words
    ensures Telling(o)
    ensures o.value.value.OneOf? ==> c in o.value.value.words
  {
  }

  lemma OptionWithValue(shapes: seq<FormShape>, name: string) returns (s: FormShape, o: FormOption)
    requires ValueFor(EveryOption(shapes), name).Some?
    ensures s in shapes && o in Flatten(s.groups)
    ensures o.name == name && o.value == ValueFor(EveryOption(shapes), name)
  {
    ValueComes(EveryOption(shapes), name);
    o :| o in EveryOption(shapes) && o.name == name && o.value == ValueFor(EveryOption(shapes), name);
    OptionComes(shapes, o);
    s :| s in shapes && o in Flatten(s.groups);
  }

  /** The one offered value that is only the start of a word. */
  predicate Unfinished(option: string, c: string) {
    option == "--join" && c == BEST_BY
  }

  lemma FoldChoice(o: FormOption, c: string)
    requires o in [Valued("--body", "ID"), Choice("--join", ["last", "all", "best-by:"]),
                   Choice("--on-bound", ["join", "fail"])]
    requires o.value.value.OneOf? ==> c in o.value.value.words
    requires !Unfinished(o.name, c)
    ensures FoldValue(o.name, c)
  {
  }

  /** A kind of node whose option has this value offered for it. */
  lemma AddValue(kind: string, o: FormOption, s: FormShape, c: string)
    requires s in Shapes("add") && s.literal == Some(kind) && o in Flatten(s.groups) && Telling(o)
    requires o.value.value.OneOf? ==> c in o.value.value.words
    requires !Unfinished(o.name, c)
    ensures (kind == "map" && o.name == "--body") || (kind == "fold" && FoldValue(o.name, c))
  {
    AddTelling(s, o);
    if s != MapShape() {
      FoldChoice(o, c);
    }
  }

  /** A value on offer is that of an option of one of the forms, and the option is
      the last finished word. */
  lemma ValueOffered(graph: Document, topic: string, shapes: seq<FormShape>, words: seq<string>, current: string,
                     c: string)
    returns (s: FormShape, o: FormOption)
    requires var place := PlaceIn(topic, shapes, words, current);
             place.ValuePlace? && Offered(graph, place).Words? && c in Offered(graph, place).words
    ensures s in shapes && o in Flatten(s.groups) && Telling(o)
    ensures o.value.value.OneOf? ==> c in o.value.value.words
    ensures words != [] && o.name == words[|words| - 1]
  {
    ValueIsOfLast(topic, shapes, words, current);
    var place := PlaceIn(topic, shapes, words, current);
    s, o := OptionWithValue(shapes, place.option);
    ValueTells(graph, o, place.positionals, c);
  }

  /** Where an `add` line has a name to offer, it is the value of a map's or a
      fold's option, and one that the parser takes there. */
  lemma AddOffers(graph: Document, done: seq<string>, current: string, c: string)
    requires done != [] && done[0] == "add" && NamesPlace(PlaceOf(done, current))
    requires Offered(graph, PlaceOf(done, current)).Words? && c in Offered(graph, PlaceOf(done, current)).words
    requires !Unfinished(done[|done| - 1], c)
    ensures |done| > 2
    ensures (done[1] == "map" && done[|done| - 1] == "--body") ||
            (done[1] == "fold" && FoldValue(done[|done| - 1], c))
  {
    AddPlace(done, current);
    var words := done[2..];
    assert words != [] ==> words[|words| - 1] == done[|done| - 1];
    AddOffersIn(graph, done[1], Retain(Shapes("add"), WithLiteral(done[1])), words, current, c);
  }

  /** Forms of `add` for nodes of one kind. */
  predicate OfKind(kind: string, shapes: seq<FormShape>) {
    forall s :: s in shapes ==> s in Shapes("add") && s.literal == Some(kind)
  }

  lemma AddIsValue(graph: Document, shapes: seq<FormShape>, words: seq<string>, current: string, c: string)
    requires NamesPlace(PlaceIn("add", shapes, words, current))
    requires var offered := Offered(graph, PlaceIn("add", shapes, words, current));
             offered.Words? && c in offered.words
    ensures PlaceIn("add", shapes, words, current).ValuePlace?
  {
    PlaceInTopic("add", shapes, words, current);
  }

  lemma AddOffersIn(graph: Document, kind: string, shapes: seq<FormShape>, words: seq<string>, current: string,
                    c: string)
    requires OfKind(kind, shapes) && NamesPlace(PlaceIn("add", shapes, words, current))
    requires var offered := Offered(graph, PlaceIn("add", shapes, words, current));
             offered.Words? && c in offered.words
    requires words != [] ==> !Unfinished(words[|words| - 1], c)
    ensures words != []
    ensures (kind == "map" && words[|words| - 1] == "--body") ||
            (kind == "fold" && FoldValue(words[|words| - 1], c))
  {
    AddIsValue(graph, shapes, words, current, c);
    var s, o := ValueOffered(graph, "add", shapes, words, current, c);
    AddValue(kind, o, s, c);
  }

  // --- candidates are words -------------------------------------------------

  /** Where a position names something, it is found in forms of the command, from
      the words after what chose them. */
  lemma PlaceForms(done: seq<string>, current: string) returns (shapes: seq<FormShape>, words: seq<string>)
    requires NamesPlace(PlaceOf(done, current))
    ensures done != [] && done[0] in TOPICS
    ensures PlaceOf(done, current) == PlaceIn(done[0], shapes, words, current)
    ensures forall s :: s in shapes ==> s in Shapes(done[0])
    ensures words != [] ==> words[|words| - 1] == done[|done| - 1]
  {
    if AllLiteral(Shapes(done[0])) {
      shapes, words := Retain(Shapes(done[0]), WithLiteral(done[1])), done[2..];
    } else {
      shapes, words := Shapes(done[0]), done[1..];
    }
  }

  lemma FixedWords()
    ensures forall c :: c in ["last", "all", "best-by:", "join", "fail"] ==> OneWord(c)
  {
  }

  lemma TopicWords()
    ensures forall c :: c in TOPICS ==> OneWord(c)
  {
  }

  /** No option of the form has a fixed set of values. */
  predicate WithoutChoice(s: FormShape) {
    forall i, o :: 0 <= i < |s.groups| && o in s.groups[i] ==> !(o.value.Some? && o.value.value.OneOf?)
  }

  lemma OnlyAddHasChoices(topic: string, s: FormShape)
    requires topic != "add" && s in Shapes(topic)
    ensures WithoutChoice(s)
  {
  }

  lemma ChoiceWords(topic: string, s: FormShape, o: FormOption, c: string)
    requires s in Shapes(topic) && o in Flatten(s.groups)
    requires o.value.Some? && o.value.value.OneOf? && c in o.value.value.words
    ensures OneWord(c)
  {
    if topic == "add" {
      AddTelling(s, o);
      AddChoiceWords(o, c);
    } else {
      OnlyAddHasChoices(topic, s);
      NoChoice(s, o);
    }
  }

  lemma AddChoiceWords(o: FormOption, c: string)
    requires o in [Valued("--body", "ID"), Choice("--join", ["last", "all", "best-by:"]),
                   Choice("--on-bound", ["join", "fail"])]
    requires o.value.Some? && o.value.value.OneOf? && c in o.value.value.words
    ensures OneWord(c)
  {
    FixedWords();
  }

  lemma NoChoice(s: FormShape, o: FormOption)
    requires WithoutChoice(s) && o in Flatten(s.groups)
    ensures !(o.value.Some? && o.value.value.OneOf?)
  {
    var i := GroupOf(s.groups, o);
  }

  lemma {:induction false} NodeIdWords(nodes: seq<Node>)
    requires forall n :: n in nodes ==> OneWord(n.id)
    ensures forall c :: c in NodeIds(nodes) || c in BranchIds(nodes) ==> OneWord(c)
  {
  }

  lemma CaseNameWords(graph: Document, id: string)
    requires PlainNames(graph)
    ensures forall c :: c in CaseNames(graph, id) ==> OneWord(c)
  {
    var i := FindNode(graph.nodes, id);
    if i < |graph.nodes| {
      assert graph.nodes[i] in graph.nodes;
    }
  }

  lemma {:induction false} PlaceholdersAreWords(graph: Document, topic: string, placeholders: seq<string>,
                                                positionals: seq<string>)
    requires PlainNames(graph)
    ensures forall c :: c in PlaceholdersWords(graph, topic, placeholders, positionals) ==> OneWord(c)
  {
    NodeIdWords(graph.nodes);
    CaseNameWords(graph, FirstOr(positionals, ""));
    TopicWords();
    if placeholders != [] {
      PlaceholdersAreWords(graph, topic, placeholders[1..], positionals);
    }
  }

  lemma ValueIsOneWord(graph: Document, topic: string, shapes: seq<FormShape>, words: seq<string>, current: string,
                       c: string)
    requires PlainNames(graph) && forall s :: s in shapes ==> s in Shapes(topic)
    requires var place := PlaceIn(topic, shapes, words, current);
             place.ValuePlace? && Offered(graph, place).Words? && c in Offered(graph, place).words
    ensures OneWord(c)
  {
    var place := PlaceIn(topic, shapes, words, current);
    ValueIsOfLast(topic, shapes, words, current);
    var s, o := OptionWithValue(shapes, place.option);
    ValueWords(graph, topic, s, o, place.positionals, c);
  }

  lemma ValueWords(graph: Document, topic: string, s: FormShape, o: FormOption, positionals: seq<string>, c: string)
    requires PlainNames(graph) && s in Shapes(topic) && o in Flatten(s.groups)
    requires var offered := ValueCandidates(graph, o.value, o.name, positionals);
             offered.Words? && c in offered.words
    ensures OneWord(c)
  {
    NodeIdWords(graph.nodes);
    CaseNameWords(graph, FirstOr(positionals, ""));
    if o.value.value.OneOf? {
      ChoiceWords(topic, s, o, c);
    }
  }

  lemma PositionalIsOneWord(graph: Document, place: Place, c: string)
    requires PlainNames(graph) && place.PositionalPlace?
    requires Offered(graph, place).Words? && c in Offered(graph, place).words
    ensures OneWord(c)
  {
    PlaceholdersAreWords(graph, place.topic, place.placeholders, place.positionals);
  }

  /** In a document of plain names, every name on offer is one word. */
  lemma OfferedIsOneWord(graph: Document, done: seq<string>, current: string, c: string)
    requires PlainNames(graph) && NamesPlace(PlaceOf(done, current))
    requires Offered(graph, PlaceOf(done, current)).Words? && c in Offered(graph, PlaceOf(done, current)).words
    ensures OneWord(c)
  {
    var place := PlaceOf(done, current);
    if place.PositionalPlace? {
      PositionalIsOneWord(graph, place, c);
    } else {
      var shapes, words := PlaceForms(done, current);
      ValueIsOneWord(graph, done[0], shapes, words, current, c);
    }
  }

  // --- the theorem ----------------------------------------------------------

  lemma AddFinished(codec: Codec, graph: Document, done: seq<string>, current: string, w: string, c: string)
    requires done != [] && done[0] == "add" && NamesPlace(PlaceOf(done, current))
    requires Offered(graph, PlaceOf(done, current)).Words? && c in Offered(graph, PlaceOf(done, current)).words
    requires !Unfinished(done[|done| - 1], c)
    requires Commanded(ParseTokens(codec, done + [w]))
    ensures Commanded(ParseTokens(codec, done + [c]))
  {
    AddOffers(graph, done, current, c);
    if done[1] == "map" {
      MapTokens(codec, done, w);
      MapTokens(codec, done, c);
      MapLast(codec, done[2..], w, c);
    } else {
      FoldTokensAre(codec, done, w);
      FoldTokensAre(codec, done, c);
      FoldLast(codec, done[2..], w, c);
    }
  }

  lemma MapTokens(codec: Codec, done: seq<string>, x: string)
    requires |done| > 1 && done[0] == "add" && done[1] == "map"
    ensures ParseTokens(codec, done + [x]) == AsLine(ParseAddMap(codec, done[2..] + [x]))
  {
    assert (done + [x])[1..][1..] == done[2..] + [x];
  }

  lemma FoldTokensAre(codec: Codec, done: seq<string>, x: string)
    requires |done| > 1 && done[0] == "add" && done[1] == "fold"
    ensures ParseTokens(codec, done + [x]) == AsLine(ParseAddFold(codec, done[2..] + [x]))
  {
    assert (done + [x])[1..][1..] == done[2..] + [x];
  }

  lemma ReadFinished(codec: Codec, rest: seq<string>, w: string)
    requires Commanded(ParseRead(rest + [w]))
    ensures rest == ["--json"]
  {
    var all := rest + [w];
    assert all[2..] == [] ==> |rest| == 1;
  }

  lemma NeverFinished(codec: Codec, done: seq<string>, w: string)
    requires done != [] && done[0] in TOPICS && done[0] != "add" && done[0] != "read" && !TakesAnyName(done[0])
    ensures !Commanded(ParseTokens(codec, done + [w]))
  {
    assert (done + [w])[1..] == done[1..] + [w];
  }

  /** No other command is finished by a word where a name is on offer. */
  lemma OthersOfferNothing(codec: Codec, graph: Document, done: seq<string>, current: string, w: string)
    requires NamesPlace(PlaceOf(done, current)) && done[0] != "add" && !TakesAnyName(done[0])
    requires Commanded(ParseTokens(codec, done + [w]))
    ensures Offered(graph, PlaceOf(done, current)) == Words([])
  {
    var shapes, words := PlaceForms(done, current);
    if done[0] == "read" {
      ReadOffersNothing(codec, graph, done, current, w);
    } else {
      NeverFinished(codec, done, w);
    }
  }

  lemma ReadOffersNothing(codec: Codec, graph: Document, done: seq<string>, current: string, w: string)
    requires done != [] && done[0] == "read" && Commanded(ParseTokens(codec, done + [w]))
    ensures Offered(graph, PlaceOf(done, current)) == Words([])
  {
    ReadDone(codec, done, w);
    JsonOffersNothing(graph, current);
  }

  lemma ReadDone(codec: Codec, done: seq<string>, w: string)
    requires done != [] && done[0] == "read" && Commanded(ParseTokens(codec, done + [w]))
    ensures done == ["read", "--json"]
  {
    ReadTokens(codec, done, w);
    ReadFinished(codec, done[1..], w);
    assert done == [done[0]] + done[1..];
  }

  lemma JsonOffersNothing(graph: Document, current: string)
    ensures Offered(graph, PlaceOf(["read", "--json"], current)) == Words([])
  {
    ReadPlace(current);
  }

  lemma ReadTokens(codec: Codec, done: seq<string>, w: string)
    requires done != [] && done[0] == "read"
    ensures ParseTokens(codec, done + [w]) == ParseRead(done[1..] + [w])
  {
    assert (done + [w])[1..] == done[1..] + [w];
  }

  lemma ReadPlace(current: string)
    ensures PlaceOf(["read", "--json"], current) == ValuePlace(Some(Placeholder("<JSON>")), "--json", [])
  {
    var done, shapes := ["read", "--json"], Shapes("read");
    var json := Valued("--json", "<JSON>");
    assert TOPICS[6] == "read";
    assert EveryOption(shapes) == [json] by {
      assert shapes[1..] == [shapes[1]];
      assert shapes[1].groups == [[json]];
      FlattenOne(json);
    }
    assert done[1..] == ["--json"];
    assert TakesValue(shapes, "--json");
    assert WalkOver(shapes, ["--json"], UNREAD) == WalkOver(shapes, [], WalkStep(shapes, UNREAD, "--json"));
  }

  predicate IsCommand(r: Result<Option<Line>, ParseError>) {
    r.Ok? && r.value.Some? && r.value.value.CommandLine?
  }

  /** The word, put where the cursor is, makes the line a command. */
  predicate Finishes(codec: Codec, line: string, w: string) {
    IsCommand(Parse(codec, Front(line) + Word(w)))
  }

  lemma FinishesAs(codec: Codec, line: string, w: string)
    requires PartialOf(line).done != [] && PartialOf(line).done[0] in TOPICS
    ensures Finishes(codec, line, w) <==> Commanded(ParseTokens(codec, PartialOf(line).done + [w]))
    ensures OneWord(w) ==> (Finishes(codec, line, w) <==> IsCommand(Parse(codec, Front(line) + w)))
  {
    WordReadsAs(w);
    CompletedParses(codec, line, Word(w), w);
    if OneWord(w) {
      BareReadsAs(w);
      CompletedParses(codec, line, w, w);
    }
  }

  lemma PlaceStarts(done: seq<string>, current: string)
    requires NamesPlace(PlaceOf(done, current))
    ensures done != [] && done[0] in TOPICS
  {
  }

  lemma OfferedAll(graph: Document, line: string, c: string)
    requires CandidatesOf(graph, line).Words? && c in CandidatesOf(graph, line).words
    ensures var offered := Offered(graph, PlaceOf(PartialOf(line).done, PartialOf(line).current));
            offered.Words? && c in offered.words
  {
  }

  lemma TokensFinish(codec: Codec, graph: Document, done: seq<string>, current: string, w: string, c: string)
    requires NamesPlace(PlaceOf(done, current)) && done != [] && (done[0] == "case" ==> w != "--model")
    requires Offered(graph, PlaceOf(done, current)).Words? && c in Offered(graph, PlaceOf(done, current)).words
    requires !Unfinished(done[|done| - 1], c)
    requires Commanded(ParseTokens(codec, done + [w]))
    ensures Commanded(ParseTokens(codec, done + [c]))
  {
    if done[0] == "add" {
      AddFinished(codec, graph, done, current, w, c);
    } else if TakesAnyName(done[0]) {
      AnyNameLast(codec, done, w, c);
    } else {
      OthersOfferNothing(codec, graph, done, current, w);
    }
  }

  /** Nothing but the flag is given after a case's branch and name. */
  predicate AllFlags(tokens: seq<string>) {
    forall i :: 0 <= i < |tokens| ==> tokens[i] == "--model"
  }

  /** A `case` with its branch and its name and no option that takes a value. */
  predicate OnlyModel(done: seq<string>) {
    |done| >= 3 && done[0] == "case" && AllFlags(done[3..])
  }

  /** The flag is last: it is one of nothing but flags, or a second way to decide, or
      the value of `--when`, in whose place another word would do. */
  ghost predicate FlagEnds(codec: Codec, tokens: seq<string>, c: string, o: Options, middle: Options) {
    var read := ReadOptions(codec, CaseForm, tokens + ["--model"], o);
    || (AllFlags(tokens) && read == Ok(o.(model := true)))
    || (read.Ok? && read.value.when.Some? && read.value.model)
    || EndsIn(codec, CaseForm, tokens, "--model", c, o, When, middle)
  }

  lemma {:induction false} FlagLast(codec: Codec, tokens: seq<string>, c: string, o: Options)
    returns (middle: Options)
    requires ReadOptions(codec, CaseForm, tokens + ["--model"], o).Ok?
    ensures FlagEnds(codec, tokens, c, o, middle)
    decreases |tokens|, 1
  {
    if tokens == [] {
      middle := o;
      FlagAlone(codec, c, o);
    } else {
      FirstIsOption(codec, CaseForm, tokens, "--model", o);
      CaseOption(tokens[0]);
      if tokens[0] == "--model" {
        middle := FlagThenFlag(codec, tokens, c, o);
      } else if |tokens| == 1 {
        middle := o;
        WhenIsLast(codec, tokens, c, o);
      } else {
        middle := WhenThenFlag(codec, tokens, c, o);
      }
    }
  }

  lemma CaseOption(token: string)
    requires OptionOf(CaseForm, token).Some?
    ensures OptionOf(CaseForm, token) == Some(if token == "--model" then Model else When)
  {
    OptionFound(CaseForm, token);
  }

  lemma FlagAlone(codec: Codec, c: string, o: Options)
    ensures FlagEnds(codec, [], c, o, o)
  {
    assert [] + ["--model"] == ["--model"];
    LoneOption(codec, "--model", o);
  }

  lemma WhenIsLast(codec: Codec, tokens: seq<string>, c: string, o: Options)
    requires |tokens| == 1 && OptionOf(CaseForm, tokens[0]) == Some(When)
    ensures FlagEnds(codec, tokens, c, o, o)
  {
    EndsInOne(codec, CaseForm, tokens[0], "--model", c, o);
    assert tokens == [tokens[0]];
  }

  lemma {:induction false} FlagThenFlag(codec: Codec, tokens: seq<string>, c: string, o: Options)
    returns (middle: Options)
    requires tokens != [] && tokens[0] == "--model" && OptionOf(CaseForm, tokens[0]) == Some(Model)
    requires ReadOptions(codec, CaseForm, tokens + ["--model"], o).Ok?
    ensures FlagEnds(codec, tokens, c, o, middle)
    decreases |tokens|, 0
  {
    var flagged := o.(model := true);
    FlagReads(codec, CaseForm, tokens + ["--model"], o);
    assert (tokens + ["--model"])[1..] == tokens[1..] + ["--model"];
    middle := FlagLast(codec, tokens[1..], c, flagged);
    if EndsIn(codec, CaseForm, tokens[1..], "--model", c, flagged, When, middle) {
      EndsInFlag(codec, CaseForm, tokens, "--model", c, o, When, middle);
    }
    assert tokens == [tokens[0]] + tokens[1..];
  }

  lemma {:induction false} WhenThenFlag(codec: Codec, tokens: seq<string>, c: string, o: Options)
    returns (middle: Options)
    requires |tokens| >= 2 && OptionOf(CaseForm, tokens[0]) == Some(When)
    requires ReadOptions(codec, CaseForm, tokens + ["--model"], o).Ok?
    ensures FlagEnds(codec, tokens, c, o, middle)
    decreases |tokens|, 0
  {
    var next := PairReads(codec, CaseForm, tokens, "--model", o);
    OptionFound(CaseForm, tokens[0]);
    OptionReads(codec, CaseForm, When, tokens + ["--model"], o);
    assert (tokens + ["--model"])[2..] == tokens[2..] + ["--model"];
    middle := FlagLast(codec, tokens[2..], c, next);
    if EndsIn(codec, CaseForm, tokens[2..], "--model", c, next, When, middle) {
      EndsInMore(codec, CaseForm, tokens, "--model", c, o, next, When, middle);
    }
  }

  /** Where only the flag can finish a case, another word does not. */
  lemma OnlyFlagFinishes(codec: Codec, rest: seq<string>, c: string)
    requires |rest| >= 2 && AllFlags(rest[2..]) && c != "--model"
    ensures ParseCase(codec, rest + [c]).Err?
  {
    CaseParses(codec, rest, c);
    FlagsThenName(codec, rest[2..], c, NO_OPTIONS);
  }

  lemma {:induction false} FlagsThenName(codec: Codec, tokens: seq<string>, c: string, o: Options)
    requires AllFlags(tokens) && c != "--model"
    ensures ReadOptions(codec, CaseForm, tokens + [c], o).Err?
    decreases |tokens|
  {
    if tokens == [] {
      assert [] + [c] == [c];
      LoneToken(codec, CaseForm, c, o);
    } else {
      SpelledFinds(Allowed(CaseForm), Model);
      FlagReads(codec, CaseForm, tokens + [c], o);
      assert (tokens + [c])[1..] == tokens[1..] + [c];
      FlagsThenName(codec, tokens[1..], c, o.(model := true));
    }
  }

  /** Where the flag finishes a case and more than flags is given, any word does. */
  lemma FlagFinishesOther(codec: Codec, rest: seq<string>, c: string)
    requires ParseCase(codec, rest + ["--model"]).Ok?
    ensures |rest| >= 2
    ensures AllFlags(rest[2..]) || ParseCase(codec, rest + [c]).Ok?
  {
    if |rest| <= 1 {
      CaseTooShort(codec, rest, "--model");
    } else {
      CaseParses(codec, rest, "--model");
      CaseParses(codec, rest, c);
      var middle := FlagLast(codec, rest[2..], c, NO_OPTIONS);
      if EndsIn(codec, CaseForm, rest[2..], "--model", c, NO_OPTIONS, When, middle) {
        CaseStores(codec, rest[0], rest[1], When, "--model", c, middle);
      }
    }
  }

  lemma CaseTokens(codec: Codec, done: seq<string>, w: string)
    requires done != [] && done[0] == "case"
    ensures Commanded(ParseTokens(codec, done + [w])) <==> ParseCase(codec, done[1..] + [w]).Ok?
  {
    assert (done + [w])[1..] == done[1..] + [w];
  }

  /** The flag finishes a case: then a word does unless only the flag can. */
  lemma CaseFinishedByFlag(codec: Codec, done: seq<string>, c: string)
    requires done != [] && done[0] == "case" && Commanded(ParseTokens(codec, done + ["--model"]))
    ensures Commanded(ParseTokens(codec, done + [c])) <==> (OnlyModel(done) ==> c == "--model")
  {
    CaseTokens(codec, done, "--model");
    CaseTokens(codec, done, c);
    FlagFinishesOther(codec, done[1..], c);
    assert done[1..][2..] == done[3..];
    if OnlyModel(done) && c != "--model" {
      OnlyFlagFinishes(codec, done[1..], c);
    }
  }

  /** A name finishes a case only where more than the flag can. */
  lemma NameFinishesCase(codec: Codec, done: seq<string>, w: string)
    requires done != [] && done[0] == "case" && w != "--model" && Commanded(ParseTokens(codec, done + [w]))
    ensures !OnlyModel(done)
  {
    CaseTokens(codec, done, w);
    if OnlyModel(done) {
      assert done[1..][2..] == done[3..];
      OnlyFlagFinishes(codec, done[1..], w);
    }
  }

  lemma OneFinishesOther(codec: Codec, graph: Document, done: seq<string>, current: string, w: string, c: string)
    requires NamesPlace(PlaceOf(done, current)) && done != []
    requires Offered(graph, PlaceOf(done, current)).Words? && c in Offered(graph, PlaceOf(done, current)).words
    requires !Unfinished(done[|done| - 1], c)
    requires Commanded(ParseTokens(codec, done + [w]))
    ensures Commanded(ParseTokens(codec, done + [c])) <==> (OnlyModel(done) ==> c == "--model")
  {
    if done[0] == "case" && w == "--model" {
      CaseFinishedByFlag(codec, done, c);
    } else {
      TokensFinish(codec, graph, done, current, w, c);
      if done[0] == "case" {
        NameFinishesCase(codec, done, w);
      }
    }
  }

  lemma OfferedFinishes(codec: Codec, graph: Document, done: seq<string>, current: string, w: string, c: string)
    requires PlainNames(graph) && NamesPlace(PlaceOf(done, current)) && done != []
    requires Offered(graph, PlaceOf(done, current)).Words? && c in Offered(graph, PlaceOf(done, current)).words
    requires !Unfinished(done[|done| - 1], c)
    requires Commanded(ParseTokens(codec, done + [w]))
    ensures OneWord(c)
    ensures Commanded(ParseTokens(codec, done + [c])) <==> (OnlyModel(done) ==> c == "--model")
  {
    OfferedIsOneWord(graph, done, current, c);
    OneFinishesOther(codec, graph, done, current, w, c);
  }

  lemma QuotedFinishes(codec: Codec, line: string, w: string)
    requires PartialOf(line).done != [] && PartialOf(line).done[0] in TOPICS
    requires Finishes(codec, line, w)
    ensures Commanded(ParseTokens(codec, PartialOf(line).done + [w]))
  {
    FinishesAs(codec, line, w);
  }

  lemma BareFinishes(codec: Codec, line: string, c: string)
    requires PartialOf(line).done != [] && PartialOf(line).done[0] in TOPICS && OneWord(c)
    ensures IsCommand(Parse(codec, Front(line) + c)) <==> Commanded(ParseTokens(codec, PartialOf(line).done + [c]))
  {
    FinishesAs(codec, line, c);
  }

  lemma LineFinishes(codec: Codec, graph: Document, line: string, w: string, c: string)
    requires PlainNames(graph) && NamesPlace(PlaceOf(PartialOf(line).done, PartialOf(line).current))
    requires PartialOf(line).done != []
    requires CandidatesOf(graph, line).Words? && c in CandidatesOf(graph, line).words
    requires !Unfinished(PartialOf(line).done[|PartialOf(line).done| - 1], c)
    requires Commanded(ParseTokens(codec, PartialOf(line).done + [w]))
    ensures OneWord(c)
    ensures Commanded(ParseTokens(codec, PartialOf(line).done + [c])) <==>
            (OnlyModel(PartialOf(line).done) ==> c == "--model")
  {
    OfferedAll(graph, line, c);
    OfferedFinishes(codec, graph, PartialOf(line).done, PartialOf(line).current, w, c);
  }

  /** In a document whose names are each one word: wherever some word, plain or
      quoted, finishes the line as a command, a name that completion offers there
      finishes it too, unless the line is a `case` that lacks only how it is decided.
      What is offered for a fold's `--join` includes one value that is only the start
      of a word. */
  lemma OfferedNamesFinish(codec: Codec, graph: Document, line: string, w: string, c: string)
    requires PlainNames(graph) && NamesPlace(PlaceOf(PartialOf(line).done, PartialOf(line).current))
    requires CandidatesOf(graph, line).Words? && c in CandidatesOf(graph, line).words
    requires var done := PartialOf(line).done;
             done != [] ==> !Unfinished(done[|done| - 1], c)
    requires Finishes(codec, line, w)
    ensures IsCommand(Parse(codec, Front(line) + c)) <==> (OnlyModel(PartialOf(line).done) ==> c == "--model")
  {
    PlaceStarts(PartialOf(line).done, PartialOf(line).current);
    QuotedFinishes(codec, line, w);
    LineFinishes(codec, graph, line, w, c);
    BareFinishes(codec, line, c);
  }

  // --- the positions where any word will do ---------------------------------

  /** One word is all the line needs: an edge's endpoint or label, what is to be
      removed, a node to show, or a topic. */
  predicate NeedsOneWord(done: seq<string>) {
    || done == ["show"] || done == ["help"] || done == ["rm", "node"]
    || (|done| == 2 && done[0] == "edge")
    || (|done| == 3 && done[..2] == ["rm", "edge"])
    || (|done| == 3 && done[..2] == ["rm", "case"])
    || (|done| == 4 && done[0] == "edge" && done[3] == "--label")
    || (|done| == 5 && done[..2] == ["rm", "edge"] && done[4] == "--label")
  }

  /** The command that such a line is with the word `c`. */
  function Meant(done: seq<string>, c: string): Command
    requires NeedsOneWord(done)
  {
    if done[0] == "show" then Show(Some(c))
    else if done[0] == "help" then Help(Some(c))
    else if done == ["rm", "node"] then Remove(NodeTarget(c))
    else if |done| == 2 then Connect(Edge(done[1], c, None))
    else if |done| == 3 && done[1] == "edge" then Remove(EdgeTarget(done[2], c, None))
    else if |done| == 3 then Remove(CaseTarget(done[2], c))
    else if |done| == 4 then Connect(Edge(done[1], done[2], Some(c)))
    else Remove(EdgeTarget(done[2], done[3], Some(c)))
  }

  lemma LabelReads(codec: Codec, form: Form, c: string)
    requires form.EdgeForm? || form.RemoveEdge?
    ensures ReadOptions(codec, form, ["--label", c], NO_OPTIONS) == Ok(NO_OPTIONS.(tag := Some(c)))
  {
    OptionReads(codec, form, Tag, ["--label", c], NO_OPTIONS);
    assert ["--label", c][2..] == [];
  }

  lemma EdgeMeant(codec: Codec, done: seq<string>, c: string)
    requires NeedsOneWord(done) && done[0] == "edge"
    ensures ParseTokens(codec, done + [c]) == Ok(CommandLine(Meant(done, c)))
  {
    var rest := done[1..] + [c];
    assert (done + [c])[1..] == rest;
    if |done| == 2 {
      assert rest[2..] == [];
    } else {
      assert rest[2..] == ["--label", c];
      LabelReads(codec, EdgeForm, c);
    }
  }

  lemma RemoveMeant(codec: Codec, done: seq<string>, c: string)
    requires NeedsOneWord(done) && |done| > 2 && done[..2] == ["rm", "edge"]
    ensures ParseTokens(codec, done + [c]) == Ok(CommandLine(Meant(done, c)))
  {
    assert done[0] == done[..2][0] == "rm" && done[1] == done[..2][1] == "edge";
    var rest := done[2..] + [c];
    assert (done + [c])[1..][1..] == rest;
    if |done| == 3 {
      assert rest[2..] == [];
    } else {
      assert rest[2..] == ["--label", c];
      LabelReads(codec, RemoveEdge, c);
    }
  }

  lemma RestMeant(codec: Codec, done: seq<string>, c: string)
    requires NeedsOneWord(done) && done[0] != "edge" && !(|done| > 2 && done[1] == "edge")
    ensures ParseTokens(codec, done + [c]) == Ok(CommandLine(Meant(done, c)))
  {
    if |done| == 3 {
      assert done[0] == done[..2][0] == "rm" && done[1] == done[..2][1] == "case";
      assert (done + [c])[1..][1..] == [done[2], c];
    } else if |done| == 2 {
      assert (done + [c])[1..][1..] == [c];
    } else {
      assert (done + [c])[1..] == [c];
    }
  }

  /** At each of those positions, every candidate that names something completes
      the line to exactly the command that names it. */
  lemma CandidateCompletes(codec: Codec, graph: Document, line: string, c: string)
    requires PlainNames(graph) && NeedsOneWord(PartialOf(line).done)
    requires NamesPlace(PlaceOf(PartialOf(line).done, PartialOf(line).current))
    requires CandidatesOf(graph, line).Words? && c in CandidatesOf(graph, line).words
    ensures Parse(codec, Front(line) + c) == Ok(Some(CommandLine(Meant(PartialOf(line).done, c))))
  {
    var Partial(done, current) := PartialOf(line);
    var shapes, words := PlaceForms(done, current);
    OfferedIsOneWord(graph, done, current, c);
    BareReadsAs(c);
    CompletedParses(codec, line, c, c);
    if done[0] == "edge" {
      EdgeMeant(codec, done, c);
    } else if |done| > 2 && done[1] == "edge" {
      RemoveMeant(codec, done, c);
    } else {
      RestMeant(codec, done, c);
    }
  }

  // --- where only an option finishes the line -------------------------------

  lemma CaseOptions()
    ensures EveryOption(Shapes("case")) == [Valued("--when", "EXPR"), FormOption("--model", None, false)]
  {
    var shapes := Shapes("case");
    assert shapes[1..] == [ModelShape()] && shapes[1..][1..] == [];
    FlattenOne(Valued("--when", "EXPR"));
    FlattenOne(FormOption("--model", None, false));
  }

  lemma DashedWalk()
    ensures WalkOver(Shapes("case"), ["--a", "--b"], UNREAD) == Walk(["--a", "--b"], [], None)
  {
    var shapes := Shapes("case");
    CaseOptions();
    assert !TakesValue(shapes, "--a") && !TakesValue(shapes, "--b");
    assert ["--a", "--b"][1..] == ["--b"] && ["--b"][1..] == [];
    assert WalkStep(shapes, UNREAD, "--a") == Walk(["--a"], [], None);
    assert WalkStep(shapes, Walk(["--a"], [], None), "--b") == Walk(["--a", "--b"], [], None);
    assert WalkOver(shapes, ["--b"], Walk(["--a"], [], None)) == WalkOver(shapes, [], Walk(["--a", "--b"], [], None));
  }

  lemma DashedPlace()
    ensures PlaceOf(["case", "--a", "--b"], "") == PositionalPlace("case", ["<BRANCH-ID>", "<BRANCH-ID>"], [])
  {
    DashedWalk();
    CasePlaceholders();
    CaseIsPlain();
  }

  lemma CaseIsPlain()
    ensures "case" in TOPICS && Shapes("case") != [] && Shapes("case")[0].literal.None?
  {
    assert TOPICS[2] == "case";
  }

  lemma CasePlaceholders()
    ensures PlaceholdersAt(Shapes("case"), 0) == ["<BRANCH-ID>", "<BRANCH-ID>"]
  {
    assert Shapes("case")[1..] == [ModelShape()];
    assert PlaceholdersAt([ModelShape()], 0) == ["<BRANCH-ID>"] + [];
  }

  const DASHED_LINE := "case --a --b "

  /** After words and a space, the words are finished and no other is begun. */
  lemma AfterWords(words: seq<string>)
    requires words != [] && forall i :: 0 <= i < |words| ==> OneWord(words[i])
    ensures PartialOf(Join(words) + " ") == Partial(words, "")
  {
    forall i | 0 <= i < |words|
      ensures ReadsAs(words[i], words[i])
    {
      BareReadsAs(words[i]);
    }
    JoinScansOn(words, words, " ");
    SpaceScans(' ', "");
    assert " " + "" == " " && words + [] == words;
    ScannersFit(Join(words) + " ");
  }

  lemma DashedLine()
    ensures PartialOf(DASHED_LINE) == Partial(["case", "--a", "--b"], "")
    ensures Front(DASHED_LINE) == DASHED_LINE
  {
    var words := ["case", "--a", "--b"];
    assert words[1..] == ["--a", "--b"] && ["--a", "--b"][1..] == ["--b"];
    assert Join(words) + " " == DASHED_LINE;
    AfterWords(words);
  }

  lemma BranchNamed(graph: Document, n: Node)
    requires n in graph.nodes && n.BranchNode?
    ensures var place := PositionalPlace("case", ["<BRANCH-ID>", "<BRANCH-ID>"], []);
            Offered(graph, place).Words? && n.id in Offered(graph, place).words
  {
    assert n.id in PlaceholderWords(graph, "case", "<BRANCH-ID>", []);
  }

  lemma DashedOffers(graph: Document, n: Node)
    requires n in graph.nodes && n.BranchNode?
    ensures CandidatesOf(graph, DASHED_LINE).Words? && n.id in CandidatesOf(graph, DASHED_LINE).words
  {
    DashedLine();
    DashedPlace();
    BranchNamed(graph, n);
    assert Beginning("")(n.id);
  }

  /** A line where names are on offer and only an option finishes it: after a `case`
      whose two names look like options, every branch of the document is offered, and
      the parser takes nothing but `--model`. */
  lemma OptionOnlyPosition(codec: Codec, graph: Document, n: Node, word: string)
    requires n in graph.nodes && n.BranchNode?
    ensures CandidatesOf(graph, DASHED_LINE).Words? && n.id in CandidatesOf(graph, DASHED_LINE).words
    ensures IsCommand(Parse(codec, DASHED_LINE + Word(word))) <==> word == "--model"
  {
    DashedOffers(graph, n);
    DashedLine();
    FinishesAs(codec, DASHED_LINE, word);
    DashedParses(codec, word);
  }

  lemma DashedParses(codec: Codec, word: string)
    ensures Commanded(ParseTokens(codec, ["case", "--a", "--b"] + [word])) <==> word == "--model"
  {
    var done := ["case", "--a", "--b"];
    assert done[3..] == [] && done[1..] == ["--a", "--b"];
    CaseTokens(codec, done, "--model");
    CaseParses(codec, ["--a", "--b"], "--model");
    LoneOption(codec, "--model", NO_OPTIONS);
    assert ["--a", "--b"][2..] + ["--model"] == ["--model"];
    CaseFinishedByFlag(codec, done, word);
  }

  lemma LoneOption(codec: Codec, word: string, o: Options)
    ensures word == "--model" ==> ReadOptions(codec, CaseForm, [word], o) == Ok(o.(model := true))
    ensures word != "--model" ==> ReadOptions(codec, CaseForm, [word], o).Err?
  {
    SpelledFinds(Allowed(CaseForm), Model);
    if OptionOf(CaseForm, word).Some? {
      OptionFound(CaseForm, word);
    }
    assert [word][1..] == [];
  }
}
