/** The two shapes of command that a line can say but that their own dump does
    not say back, each with a line that produces it. */
module Lost {
  import opened Commands
  import opened Errors
  import opened Graph
  import opened Json
  import opened JsonTokens
  import opened Parsed
  import opened Parser
  import opened Printer
  import opened References
  import opened RoundTrip
  import opened Text
  import opened Tokenizer

  /** The line gives this command, on its own or once the host has resolved the
      hash it asks for. */
  predicate Gives(codec: Codec, line: string, hash: string, c: Command) {
    match Parse(codec, line)
    case Ok(Some(CommandLine(command))) => command == c
    case Ok(Some(Host(AgentFile(_, draft)))) => WithHash(draft, hash) == c
    case _ => false
  }

  /** Every document-changing command but a read that a line gives is dumped to a
      line that parses back to it exactly when it has neither shape. */
  lemma GivenComesBack(codec: Codec, line: string, hash: string, c: Command)
    requires Faithful(codec) && Changes(c) && !c.ReadDocument?
    requires Gives(codec, line, hash, c)
    ensures Parse(codec, ToLine(codec, c)) == Ok(Some(CommandLine(c))) <==> ComesBack(c)
  {
    ParsedWellFormed(codec, line);
    RoundTripExactly(codec, c);
  }

  lemma AddLineParses(codec: Codec, pieces: seq<Piece>, more: string, tokens: seq<string>)
    requires pieces != [] && pieces[0] == Literal("add") && AllFaithful(pieces)
    requires AtBoundary(more) && TokensOf(more) == Scanned(tokens, None)
    ensures Parse(codec, Join(Written(pieces)) + more) == Lifted(ParseTokens(codec, Readings(pieces) + tokens))
  {
    PiecesScanOn(pieces, more);
    var line := Join(Written(pieces)) + more;
    assert Written(pieces)[0] == "add";
    assert line[0] == "add"[0];
  }

  lemma WholeLineParses(codec: Codec, pieces: seq<Piece>)
    requires pieces != [] && pieces[0] == Literal("add") && AllFaithful(pieces)
    ensures Parse(codec, Join(Written(pieces))) == Lifted(ParseTokens(codec, Readings(pieces)))
  {
    AddLineParses(codec, pieces, "", []);
    assert Join(Written(pieces)) + "" == Join(Written(pieces));
    assert Readings(pieces) + [] == Readings(pieces);
  }

  // --- a bare string as a schema --------------------------------------------

  /** `add gate` with this piece for its schema. */
  function GatePieces(id: string, schema: Piece): seq<Piece> {
    [Literal("add"), Literal("gate"), WordOf(id), Literal("--approval-schema"), schema]
  }

  function Gate(id: string, schema: Json): Command {
    Add(GateNode(id, None, None, schema))
  }

  lemma GateParses(codec: Codec, id: string, piece: Piece, schema: Json)
    requires Faithfully(piece) && Read(piece.Reading()) == Some(schema)
    ensures Parse(codec, Join(Written(GatePieces(id, piece)))) == Ok(Some(CommandLine(Gate(id, schema))))
  {
    GateFaithful(id, piece);
    WholeLineParses(codec, GatePieces(id, piece));
    GateReads(codec, id, piece.Reading(), schema);
  }

  lemma GateFaithful(id: string, piece: Piece)
    requires Faithfully(piece)
    ensures AllFaithful(GatePieces(id, piece))
    ensures Readings(GatePieces(id, piece)) == ["add", "gate", id, "--approval-schema", piece.Reading()]
  {
    KeywordsFaithful();
    KindsFaithful(GateNode(id, None, None, Null));
    OptTextFaithful(ApprovalSchema);
  }

  lemma GateReads(codec: Codec, id: string, raw: string, schema: Json)
    requires Read(raw) == Some(schema)
    ensures ParseTokens(codec, ["add", "gate", id, "--approval-schema", raw]) == Ok(CommandLine(Gate(id, schema)))
  {
    var tokens := ["add", "gate", id, "--approval-schema", raw];
    var options := ["--approval-schema", raw];
    assert tokens[1..][1..] == [id] + options;
    assert ([id] + options)[1..] == options;
    OptionReads(codec, AddGate, ApprovalSchema, options, NO_OPTIONS);
    assert options[2..] == [];
  }

  lemma FiveReads()
    ensures Read(Print(Str("5"))) == Some(Str("5"))
    ensures Read(JsonToken(Str("5"))) == Some(Num("5"))
  {
    ReadPrint(Str("5"));
    FiveIsNumber();
    assert JsonToken(Str("5")) == "5" by {
      assert "5"[1..] == "";
    }
  }

  lemma FiveIsNumber()
    ensures Read("5") == Some(Num("5"))
  {
    assert "5"[1..] == "";
    ReadPrint(Num("5"));
  }

  lemma GateDumped(codec: Codec, id: string, schema: Json)
    ensures ToLine(codec, Gate(id, schema)) == Join(Written(GatePieces(id, JsonOf(schema))))
  {
    assert CommandPieces(codec, Gate(id, schema)) == GatePieces(id, JsonOf(schema));
  }

  /** A gate whose schema is the string `5` can be typed, and it is dumped to a
      line that gives the number 5 instead. */
  lemma BareStringIsLost(codec: Codec)
    ensures Parse(codec, Join(Written(GatePieces("g", WordOf(Print(Str("5"))))))) ==
            Ok(Some(CommandLine(Gate("g", Str("5")))))
    ensures Parse(codec, ToLine(codec, Gate("g", Str("5")))) == Ok(Some(CommandLine(Gate("g", Num("5")))))
  {
    FiveReads();
    GateParses(codec, "g", WordOf(Print(Str("5"))), Str("5"));
    GateParses(codec, "g", JsonOf(Str("5")), Num("5"));
    GateDumped(codec, "g", Str("5"));
  }

  // --- whitespace in a best-by reference ------------------------------------

  const SPACED_FOLD := FoldNode("f", None, NodeBody("b"), 1, "done", BestBy("a b"), None, None)

  lemma RuleReads(codec: Codec, reference: string, more: seq<string>, o: Options)
    requires reference != ""
    ensures ReadOptions(codec, AddFold, ["--join", BEST_BY + reference] + more, o) ==
            ReadOptions(codec, AddFold, more, o.(join := Some(BestBy(reference))))
  {
    var tokens := ["--join", BEST_BY + reference] + more;
    JoinBack(BestBy(reference));
    OptionReads(codec, AddFold, JoinRule, tokens, o);
    assert tokens[2..] == more;
  }

  lemma FoldTokens(codec: Codec, node: Node, reference: string, more: seq<string>)
    requires node.FoldNode?
    ensures Readings(UpToRule(codec, node)) + ([BEST_BY + reference] + more) ==
            ["add", "fold", node.id] + Readings(FoldFront(codec, node)) + (["--join", BEST_BY + reference] + more)
  {
    UpToRuleReads(codec, node);
    assert ["--join"] + ([BEST_BY + reference] + more) == ["--join", BEST_BY + reference] + more;
  }

  /** What the line of this fold gives with a rule in one token, and whatever
      tokens come after it. */
  lemma FoldGives(codec: Codec, reference: string, more: seq<string>)
    requires Faithful(codec) && reference != ""
    ensures ParseTokens(codec, Readings(UpToRule(codec, SPACED_FOLD)) + ([BEST_BY + reference] + more)) ==
            match ReadOptions(codec, AddFold, more, FoldFrontOptions(SPACED_FOLD).(join := Some(BestBy(reference))))
            case Ok(o) => AsLine(BuildFold("f", o))
            case Err(error) => Err(error)
  {
    FoldTokens(codec, SPACED_FOLD, reference, more);
    FoldReadsOn(codec, SPACED_FOLD, ["--join", BEST_BY + reference] + more);
    RuleReads(codec, reference, more, FoldFrontOptions(SPACED_FOLD));
  }

  lemma StrayB(codec: Codec, o: Options)
    ensures ReadOptions(codec, AddFold, ["b"], o) == Err(UnexpectedArgument("add fold", "b"))
  {
    SpelledIs(Allowed(AddFold), "b");
    OptTextFirst();
  }

  lemma OptTextFirst()
    ensures forall opt :: OptText(opt)[0..1] == "-"
  {
  }

  lemma RuleFaithful(codec: Codec, piece: Piece)
    requires Faithful(codec) && Faithfully(piece)
    ensures AllFaithful(UpToRule(codec, SPACED_FOLD) + [piece])
    ensures Readings(UpToRule(codec, SPACED_FOLD) + [piece]) ==
            Readings(UpToRule(codec, SPACED_FOLD)) + [piece.Reading()]
  {
    UpToRuleFaithful(codec, SPACED_FOLD);
  }

  lemma SpacedFoldTyped(codec: Codec)
    requires Faithful(codec)
    ensures Parse(codec, Join(Written(UpToRule(codec, SPACED_FOLD) + [WordOf(BEST_BY + "a b")]))) ==
            Ok(Some(CommandLine(Add(SPACED_FOLD))))
  {
    var piece := WordOf(BEST_BY + "a b");
    RuleFaithful(codec, piece);
    WholeLineParses(codec, UpToRule(codec, SPACED_FOLD) + [piece]);
    FoldGives(codec, "a b", []);
    assert [BEST_BY + "a b"] + [] == [BEST_BY + "a b"];
  }

  /** The line of this fold: everything up to the reference's space, and the rest. */
  lemma SpacedFoldLine(codec: Codec)
    ensures ToLine(codec, Add(SPACED_FOLD)) ==
            Join(Written(UpToRule(codec, SPACED_FOLD) + [Literal(BEST_BY + "a")])) + " b"
  {
    FoldLine(codec, SPACED_FOLD, 1);
    assert "a b"[..1] == "a" && "a b"[1..] == " b" && " b" + RestText(SPACED_FOLD) == " b";
  }

  lemma SpacedFoldParses(codec: Codec)
    requires Faithful(codec)
    ensures Parse(codec, Join(Written(UpToRule(codec, SPACED_FOLD) + [Literal(BEST_BY + "a")])) + " b") ==
            Lifted(ParseTokens(codec, Readings(UpToRule(codec, SPACED_FOLD)) + ([BEST_BY + "a"] + ["b"])))
  {
    var piece := Literal(BEST_BY + "a");
    JoinTextFaithful(BestBy("a"));
    RuleFaithful(codec, piece);
    OneBareToken();
    AddLineParses(codec, UpToRule(codec, SPACED_FOLD) + [piece], " b", ["b"]);
    Assoc(Readings(UpToRule(codec, SPACED_FOLD)), [BEST_BY + "a"], ["b"]);
  }

  lemma SpacedFoldDumped(codec: Codec)
    requires Faithful(codec)
    ensures Parse(codec, ToLine(codec, Add(SPACED_FOLD))) == Err(UnexpectedArgument("add fold", "b"))
  {
    SpacedFoldLine(codec);
    SpacedFoldParses(codec);
    FoldGives(codec, "a", ["b"]);
    StrayB(codec, FoldFrontOptions(SPACED_FOLD).(join := Some(BestBy("a"))));
  }

  lemma OneBareToken()
    ensures TokensOf(" b") == Scanned(["b"], None)
  {
    BareReadsAs("b");
    PieceScans("b", "b", "");
    assert "b" + "" == "b" && " b"[1..] == "b";
  }

  /** A reference with a space can be typed in quotes, and its dump is refused at
      what comes after the space. */
  lemma SpacedReferenceIsRefused(codec: Codec)
    requires Faithful(codec)
    ensures Parse(codec, Join(Written(UpToRule(codec, SPACED_FOLD) + [WordOf(BEST_BY + "a b")]))) ==
            Ok(Some(CommandLine(Add(SPACED_FOLD))))
    ensures Parse(codec, ToLine(codec, Add(SPACED_FOLD))) == Err(UnexpectedArgument("add fold", "b"))
  {
    SpacedFoldTyped(codec);
    SpacedFoldDumped(codec);
  }
}
