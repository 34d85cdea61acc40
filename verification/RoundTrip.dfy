/** Printing a command and parsing the line gives the command back: for which
    commands, and for no others. */
module RoundTrip {
  import opened Commands
  import opened Errors
  import opened Graph
  import opened Json
  import opened JsonTokens
  import opened Ordered
  import opened Parser
  import opened Printer
  import opened Text
  import opened Tokenizer

  // --- the commands a line can hold -----------------------------------------

  predicate WellFormedSchema(value: Option<Json>) {
    value.Some? ==> WellFormed(value.value)
  }

  ghost predicate WellFormedBody(codec: Codec, body: Body) {
    body.Subgraph? ==> Decoded(codec, body.graph)
  }

  predicate WellFormedInput(input: seq<Entry<string>>) {
    Sorted(input) && forall i :: 0 <= i < |input| ==> '=' !in input[i].name
  }

  /** What holds of every node that an `add` line describes. */
  ghost predicate WellFormedNode(codec: Codec, node: Node) {
    match node
    case AgentNode(_, _, _, inputSchema, outputSchema) =>
      WellFormedSchema(inputSchema) && WellFormedSchema(outputSchema)
    case ToolNode(_, _, _, input, inputSchema, outputSchema) =>
      WellFormedInput(input) && WellFormedSchema(inputSchema) && WellFormedSchema(outputSchema)
    case GateNode(_, _, _, approvalSchema) => WellFormed(approvalSchema)
    case BranchNode(_, _, _, _, cases) => cases == []
    case MapNode(_, _, _, _, body, outputSchema) =>
      WellFormedBody(codec, body) && WellFormedSchema(outputSchema)
    case FoldNode(_, _, body, _, _, join, _, accumulatorSchema) =>
      && WellFormedBody(codec, body)
      && WellFormedSchema(accumulatorSchema)
      && (join.BestBy? ==> join.reference != "")
    case DelayNode(_, _, _) => true
  }

  ghost predicate WellFormedCommand(codec: Codec, c: Command) {
    c.Add? ==> WellFormedNode(codec, c.node)
  }

  // --- the two shapes that do not come back ---------------------------------

  predicate BareString(value: Option<Json>) {
    value.Some? && value.value.Str?
  }

  predicate HasWhitespace(s: string) {
    exists i :: 0 <= i < |s| && IsWhitespace(s[i])
  }

  /** No schema is a bare JSON string. */
  predicate PlainSchemas(node: Node) {
    match node
    case AgentNode(_, _, _, inputSchema, outputSchema) => !BareString(inputSchema) && !BareString(outputSchema)
    case ToolNode(_, _, _, _, inputSchema, outputSchema) => !BareString(inputSchema) && !BareString(outputSchema)
    case GateNode(_, _, _, approvalSchema) => !approvalSchema.Str?
    case MapNode(_, _, _, _, _, outputSchema) => !BareString(outputSchema)
    case FoldNode(_, _, _, _, _, _, _, accumulatorSchema) => !BareString(accumulatorSchema)
    case _ => true
  }

  /** No best-by reference holds whitespace. */
  predicate PlainJoin(node: Node) {
    node.FoldNode? && node.join.BestBy? ==> !HasWhitespace(node.join.reference)
  }

  predicate ComesBack(c: Command) {
    c.Add? ==> PlainSchemas(c.node) && PlainJoin(c.node)
  }

  // --- the pieces scan to their readings ------------------------------------

  /** A piece that the scanner reads as what it means. */
  ghost predicate Faithfully(piece: Piece) {
    match piece
    case Literal(text) => text != "" && text[0] !in "\"{[" && !HasWhitespace(text)
    case WordOf(_) => true
    case JsonOf(value) => LiteralNumbers(value)
  }

  lemma PieceReadsAs(piece: Piece)
    requires Faithfully(piece)
    ensures ReadsAs(piece.Written(), piece.Reading())
  {
    match piece
    case Literal(text) => BareReadsAs(text);
    case WordOf(word) => WordReadsAs(word);
    case JsonOf(value) => PrintReadsAs(value);
  }

  ghost predicate AllFaithful(pieces: seq<Piece>) {
    forall i :: 0 <= i < |pieces| ==> Faithfully(pieces[i])
  }

  lemma PiecesScan(pieces: seq<Piece>)
    requires AllFaithful(pieces)
    ensures TokensOf(Join(Written(pieces))) == Scanned(Readings(pieces), None)
  {
    forall i | 0 <= i < |pieces|
      ensures ReadsAs(Written(pieces)[i], Readings(pieces)[i])
    {
      PieceReadsAs(pieces[i]);
    }
    JoinScans(Written(pieces), Readings(pieces));
  }

  lemma DecimalIsLiteral(n: nat)
    ensures Faithfully(Literal(Decimal(n)))
  {
    var s := Decimal(n);
    forall i | 0 <= i < |s|
      ensures !IsWhitespace(s[i]) && s[i] !in "\"{["
    {
      assert s[i] in s;
    }
  }

  lemma JoinTextFaithful(join: FoldJoin)
    requires join.BestBy? ==> !HasWhitespace(join.reference)
    ensures Faithfully(Literal(JoinText(join)))
  {
    if join.BestBy? {
      var s := JoinText(join);
      assert s[0] == 'b';
      forall i | 0 <= i < |s|
        ensures !IsWhitespace(s[i])
      {
        if i >= |BEST_BY| {
          assert s[i] == join.reference[i - |BEST_BY|];
        }
      }
    }
  }

  lemma LongOptTextFaithful(opt: Opt)
    requires opt.AccumulatorSchema? || opt.ApprovalSchema? || opt.MaxIterations? || opt.BodySubgraph?
    ensures Faithfully(Literal(OptText(opt)))
  {
  }

  lemma SchemaOptTextFaithful(opt: Opt)
    requires opt.InputSchema? || opt.OutputSchema? || opt.Concurrency? || opt.StopWhen? || opt.Bound?
    ensures Faithfully(Literal(OptText(opt)))
  {
  }

  lemma OptTextFaithful(opt: Opt)
    ensures Faithfully(Literal(OptText(opt)))
  {
    match opt
    case AccumulatorSchema => LongOptTextFaithful(opt);
    case ApprovalSchema => LongOptTextFaithful(opt);
    case MaxIterations => LongOptTextFaithful(opt);
    case BodySubgraph => LongOptTextFaithful(opt);
    case InputSchema => SchemaOptTextFaithful(opt);
    case OutputSchema => SchemaOptTextFaithful(opt);
    case Concurrency => SchemaOptTextFaithful(opt);
    case StopWhen => SchemaOptTextFaithful(opt);
    case Bound => SchemaOptTextFaithful(opt);
    case _ =>
  }

  lemma Option1Faithful(opt: Opt, piece: Piece)
    requires Faithfully(piece)
    ensures AllFaithful(Option1(opt, piece))
  {
    OptTextFaithful(opt);
  }

  lemma WordOptionFaithful(opt: Opt, value: Option<string>)
    ensures AllFaithful(WordOption(opt, value))
  {
    OptTextFaithful(opt);
  }

  lemma JsonOptionFaithful(opt: Opt, value: Option<Json>)
    requires WellFormedSchema(value)
    ensures AllFaithful(JsonOption(opt, value))
  {
    OptTextFaithful(opt);
  }

  lemma BodyOptionFaithful(codec: Codec, body: Body)
    requires Faithful(codec) && WellFormedBody(codec, body)
    ensures AllFaithful(BodyOption(codec, body))
  {
    OptTextFaithful(BodyNode);
    OptTextFaithful(BodySubgraph);
  }

  lemma {:induction false} InputOptionsFaithful(input: seq<Entry<string>>)
    ensures AllFaithful(InputOptions(input))
  {
    if input != [] {
      var piece := WordOf(input[0].name + "=" + input[0].value);
      Option1Faithful(Input, piece);
      InputOptionsFaithful(input[1..]);
      assert InputOptions(input) == Option1(Input, piece) + InputOptions(input[1..]);
    }
  }

  lemma SchemasFaithful(inputSchema: Option<Json>, outputSchema: Option<Json>)
    requires WellFormedSchema(inputSchema) && WellFormedSchema(outputSchema)
    ensures AllFaithful(JsonOption(InputSchema, inputSchema) + JsonOption(OutputSchema, outputSchema))
  {
    JsonOptionFaithful(InputSchema, inputSchema);
    JsonOptionFaithful(OutputSchema, outputSchema);
  }

  lemma NodeOptionsFaithful(codec: Codec, node: Node)
    requires Faithful(codec) && WellFormedNode(codec, node) && PlainJoin(node)
    ensures AllFaithful(NodeOptions(codec, node))
  {
    match node
    case AgentNode(_, agentHash, name, inputSchema, outputSchema) =>
      Option1Faithful(Hash, WordOf(agentHash));
      WordOptionFaithful(Name, name);
      SchemasFaithful(inputSchema, outputSchema);
    case ToolNode(_, tool, name, input, inputSchema, outputSchema) =>
      InputOptionsFaithful(input);
      WordOptionFaithful(Name, name);
      SchemasFaithful(inputSchema, outputSchema);
    case GateNode(_, name, prompt, approvalSchema) =>
      Option1Faithful(ApprovalSchema, JsonOf(approvalSchema));
      WordOptionFaithful(Prompt, prompt);
      WordOptionFaithful(Name, name);
    case BranchNode(_, name, on, branchHash, _) =>
      WordOptionFaithful(On, on);
      WordOptionFaithful(Hash, branchHash);
      WordOptionFaithful(Name, name);
    case MapNode(_, _, _, _, _, _) => MapFaithful(codec, node);
    case FoldNode(_, _, _, _, _, _, _, _) => FoldFaithful(codec, node);
    case DelayNode(_, name, seconds) =>
      DecimalIsLiteral(seconds);
      Option1Faithful(Seconds, Literal(Decimal(seconds)));
      WordOptionFaithful(Name, name);
  }

  lemma MapFaithful(codec: Codec, node: Node)
    requires Faithful(codec) && node.MapNode? && WellFormedNode(codec, node)
    ensures AllFaithful(NodeOptions(codec, node))
  {
    DecimalIsLiteral(node.concurrency);
    Option1Faithful(Over, WordOf(node.over));
    Option1Faithful(Concurrency, Literal(Decimal(node.concurrency)));
    BodyOptionFaithful(codec, node.body);
    WordOptionFaithful(Name, node.name);
    JsonOptionFaithful(OutputSchema, node.outputSchema);
  }

  lemma FoldFaithful(codec: Codec, node: Node)
    requires Faithful(codec) && node.FoldNode? && WellFormedNode(codec, node) && PlainJoin(node)
    ensures AllFaithful(NodeOptions(codec, node))
  {
    FoldFrontFaithful(codec, node);
    JoinTextFaithful(node.join);
    Option1Faithful(JoinRule, Literal(JoinText(node.join)));
    FoldBackFaithful(node);
    FoldParts(codec, node);
  }

  lemma FoldFrontFaithful(codec: Codec, node: Node)
    requires Faithful(codec) && node.FoldNode? && WellFormedBody(codec, node.body)
    ensures AllFaithful(FoldFront(codec, node))
  {
    DecimalIsLiteral(node.maxIterations);
    BodyOptionFaithful(codec, node.body);
    Option1Faithful(MaxIterations, Literal(Decimal(node.maxIterations)));
    Option1Faithful(StopWhen, WordOf(node.stopWhen));
  }

  lemma FoldBackFaithful(node: Node)
    requires node.FoldNode? && WellFormedSchema(node.accumulatorSchema)
    ensures AllFaithful(FoldBack(node))
  {
    OptTextFaithful(Bound);
    JsonOptionFaithful(AccumulatorSchema, node.accumulatorSchema);
    WordOptionFaithful(Name, node.name);
  }

  lemma KeywordsFaithful()
    ensures forall word :: word in ["add", "edge", "case", "rm", "read", "--json", "node"] ==> Faithfully(Literal(word))
  {
  }

  lemma KindsFaithful(node: Node)
    ensures Faithfully(Literal(KindName(node)))
  {
  }

  lemma ChangesFaithful(codec: Codec, c: Command)
    requires Changes(c)
    requires Faithful(codec) && WellFormedCommand(codec, c)
    requires c.Add? ==> PlainJoin(c.node)
    requires c.ReadDocument? ==> codec.parse(c.json).Some?
    ensures AllFaithful(CommandPieces(codec, c))
  {
    KeywordsFaithful();
    match c
    case Add(node) =>
      KindsFaithful(node);
      NodeOptionsFaithful(codec, node);
    case Connect(edge) => WordOptionFaithful(Tag, edge.tag);
    case AddCase(_, branchCase) =>
      OptTextFaithful(When);
      OptTextFaithful(Model);
    case Remove(EdgeTarget(_, _, tag)) => WordOptionFaithful(Tag, tag);
    case Remove(_) =>
    case ReadDocument(json) => assert Decoded(codec, codec.parse(json).value);
  }

  /** The options of a fold before its join rule. */
  function FoldFront(codec: Codec, node: Node): seq<Piece>
    requires node.FoldNode?
  {
    BodyOption(codec, node.body) + (Option1(MaxIterations, Literal(Decimal(node.maxIterations))) +
    Option1(StopWhen, WordOf(node.stopWhen)))
  }

  /** The options of a fold after its join rule. */
  function FoldBack(node: Node): seq<Piece>
    requires node.FoldNode?
  {
    OnBoundOption(node.onBound) + (JsonOption(AccumulatorSchema, node.accumulatorSchema) + WordOption(Name, node.name))
  }

  lemma FoldParts(codec: Codec, node: Node)
    requires node.FoldNode?
    ensures NodeOptions(codec, node) ==
            FoldFront(codec, node) + (Option1(JoinRule, Literal(JoinText(node.join))) + FoldBack(node))
  {
  }

  // --- the readings parse, option by option ---------------------------------

  /** Reading these pieces first turns the options `o` into `next`, whatever
      options follow; nothing means that reading them fails. */
  ghost predicate Leads(codec: Codec, form: Form, pieces: seq<Piece>, o: Options, next: Option<Options>) {
    forall rest: seq<Piece> {:trigger ReadOptions(codec, form, Readings(pieces + rest), o)} ::
      var r := ReadOptions(codec, form, Readings(pieces + rest), o);
      if next.None? then r.Err? else r == ReadOptions(codec, form, Readings(rest), next.value)
  }

  lemma LeadsNowhere(codec: Codec, form: Form, o: Options)
    ensures Leads(codec, form, [], o, Some(o))
  {
    forall rest: seq<Piece>
      ensures ReadOptions(codec, form, Readings([] + rest), o) == ReadOptions(codec, form, Readings(rest), o)
    {
      assert [] + rest == rest;
    }
  }

  lemma LeadsBoth(codec: Codec, form: Form, a: seq<Piece>, b: seq<Piece>, o: Options, middle: Option<Options>,
                  next: Option<Options>)
    requires Leads(codec, form, a, o, middle)
    requires if middle.None? then next.None? else Leads(codec, form, b, middle.value, next)
    ensures Leads(codec, form, a + b, o, next)
  {
    forall rest: seq<Piece>
      ensures var r := ReadOptions(codec, form, Readings(a + b + rest), o);
              if next.None? then r.Err? else r == ReadOptions(codec, form, Readings(rest), next.value)
    {
      assert a + b + rest == a + (b + rest);
    }
  }

  lemma LeadsThree(codec: Codec, form: Form, a: seq<Piece>, b: seq<Piece>, c: seq<Piece>, o: Options, second: Options,
                   third: Option<Options>, next: Option<Options>)
    requires Leads(codec, form, a, o, Some(second)) && Leads(codec, form, b, second, third)
    requires if third.None? then next.None? else Leads(codec, form, c, third.value, next)
    ensures Leads(codec, form, a + (b + c), o, next)
  {
    LeadsBoth(codec, form, b, c, second, third, next);
    LeadsBoth(codec, form, a, b + c, o, Some(second), next);
  }

  lemma LeadsToEnd(codec: Codec, form: Form, pieces: seq<Piece>, o: Options, next: Option<Options>)
    requires Leads(codec, form, pieces, o, next)
    ensures var r := ReadOptions(codec, form, Readings(pieces), o);
            if next.None? then r.Err? else r == Ok(next.value)
  {
    assert pieces + [] == pieces;
    assert Readings([]) == [];
    assert next.Some? ==> ReadOptions(codec, form, Readings([]), next.value) == Ok(next.value);
  }

  function OkOption<T, E>(r: Result<T, E>): Option<T> {
    match r case Ok(value) => Some(value) case Err(_) => None
  }

  /** The option a spelling names: `OptText` has an inverse. */
  ghost function OptNamed(token: string): Option<Opt> {
    if token == "--hash" then Some(Hash)
    else if token == "--file" then Some(File)
    else if token == "--name" then Some(Name)
    else if token == "--input" then Some(Input)
    else if token == "--input-schema" then Some(InputSchema)
    else if token == "--output-schema" then Some(OutputSchema)
    else if token == "--prompt" then Some(Prompt)
    else if token == "--approval-schema" then Some(ApprovalSchema)
    else if token == "--on" then Some(On)
    else if token == "--over" then Some(Over)
    else if token == "--concurrency" then Some(Concurrency)
    else if token == "--body" then Some(BodyNode)
    else if token == "--body-subgraph" then Some(BodySubgraph)
    else if token == "--max-iterations" then Some(MaxIterations)
    else if token == "--stop-when" then Some(StopWhen)
    else if token == "--join" then Some(JoinRule)
    else if token == "--on-bound" then Some(Bound)
    else if token == "--accumulator-schema" then Some(AccumulatorSchema)
    else if token == "--seconds" then Some(Seconds)
    else if token == "--label" then Some(Tag)
    else if token == "--when" then Some(When)
    else if token == "--model" then Some(Model)
    else None
  }

  lemma OptNamedText(opt: Opt)
    ensures OptNamed(OptText(opt)) == Some(opt)
  {
  }

  lemma {:induction false} SpelledFinds(opts: seq<Opt>, opt: Opt)
    requires opt in opts
    ensures Spelled(opts, OptText(opt)) == Some(opt)
  {
    OptNamedText(opt);
    OptNamedText(opts[0]);
    if opts[0] != opt {
      SpelledFinds(opts[1..], opt);
    }
  }

  lemma OptionReads(codec: Codec, form: Form, opt: Opt, tokens: seq<string>, o: Options)
    requires opt in Allowed(form) && opt != Model
    requires |tokens| >= 2 && tokens[0] == OptText(opt)
    ensures ReadOptions(codec, form, tokens, o) ==
            match Store(codec, form, opt, tokens[1], o)
            case Err(error) => Err(error)
            case Ok(next) => ReadOptions(codec, form, tokens[2..], next)
  {
    SpelledFinds(Allowed(form), opt);
    assert OptionOf(form, tokens[0]) == Some(opt);
  }

  lemma FlagReads(codec: Codec, form: Form, tokens: seq<string>, o: Options)
    requires tokens != [] && OptionOf(form, tokens[0]) == Some(Model)
    ensures ReadOptions(codec, form, tokens, o) == ReadOptions(codec, form, tokens[1..], o.(model := true))
  {
  }

  /** One option with its value. */
  lemma OptionLeads(codec: Codec, form: Form, opt: Opt, piece: Piece, o: Options, next: Option<Options>)
    requires opt in Allowed(form) && opt != Model
    requires OkOption(Store(codec, form, opt, piece.Reading(), o)) == next
    ensures Leads(codec, form, Option1(opt, piece), o, next)
  {
    forall rest: seq<Piece>
      ensures var r := ReadOptions(codec, form, Readings(Option1(opt, piece) + rest), o);
              if next.None? then r.Err? else r == ReadOptions(codec, form, Readings(rest), next.value)
    {
      var tokens := Readings(Option1(opt, piece) + rest);
      assert tokens[0] == OptText(opt) && tokens[1] == piece.Reading();
      assert tokens[2..] == Readings(rest);
      OptionReads(codec, form, opt, tokens, o);
    }
  }

  lemma WordLeads(codec: Codec, form: Form, opt: Opt, value: Option<string>, o: Options, next: Options)
    requires opt in Allowed(form) && opt != Model
    requires match value case None => next == o case Some(text) => Store(codec, form, opt, text, o) == Ok(next)
    ensures Leads(codec, form, WordOption(opt, value), o, Some(next))
  {
    if value.None? {
      LeadsNowhere(codec, form, o);
    } else {
      OptionLeads(codec, form, opt, WordOf(value.value), o, Some(next));
    }
  }

  /** What a schema reads back as: nothing for a missing one, and no value at all
      for a token that is not JSON. */
  function SchemaBack(value: Option<Json>): Option<Option<Json>> {
    match value
    case None => Some(None)
    case Some(j) =>
      var back :- Read(JsonToken(j));
      Some(Some(back))
  }

  predicate SchemaOption(opt: Opt) {
    opt == InputSchema || opt == OutputSchema || opt == ApprovalSchema || opt == AccumulatorSchema
  }

  function WithSchema(o: Options, opt: Opt, value: Option<Json>): Options
    requires SchemaOption(opt)
  {
    match opt
    case InputSchema => o.(inputSchema := value)
    case OutputSchema => o.(outputSchema := value)
    case ApprovalSchema => o.(approvalSchema := value)
    case AccumulatorSchema => o.(accumulatorSchema := value)
  }

  function WithSchemaBack(o: Options, opt: Opt, value: Option<Json>): Option<Options>
    requires SchemaOption(opt)
  {
    var back :- SchemaBack(value);
    Some(WithSchema(o, opt, back))
  }

  lemma SchemaLeads(codec: Codec, form: Form, opt: Opt, value: Option<Json>, o: Options)
    requires opt in Allowed(form) && SchemaOption(opt)
    requires WithSchema(o, opt, None) == o
    ensures Leads(codec, form, JsonOption(opt, value), o, WithSchemaBack(o, opt, value))
  {
    if value.None? {
      LeadsNowhere(codec, form, o);
    } else {
      SchemaGives(codec, form, opt, value.value, o);
      OptionLeads(codec, form, opt, JsonOf(value.value), o, WithSchemaBack(o, opt, value));
    }
  }

  lemma SchemaGives(codec: Codec, form: Form, opt: Opt, value: Json, o: Options)
    requires SchemaOption(opt)
    ensures OkOption(Store(codec, form, opt, JsonOf(value).Reading(), o)) == WithSchemaBack(o, opt, Some(value))
  {
    SchemaStored(codec, form, opt, JsonToken(value), o);
  }

  lemma SchemaStored(codec: Codec, form: Form, opt: Opt, raw: string, o: Options)
    requires SchemaOption(opt)
    ensures Store(codec, form, opt, raw, o) ==
            match Read(raw)
            case None => Err(MalformedJson(CommandName(form), OptText(opt)))
            case Some(j) => Ok(WithSchema(o, opt, Some(j)))
  {
  }

  lemma SubgraphLeads(codec: Codec, form: Form, graph: Document, o: Options)
    requires form.AddMap? || form.AddFold?
    requires Faithful(codec) && Decoded(codec, graph)
    ensures Leads(codec, form, BodyOption(codec, Subgraph(graph)), o, Some(o.(body := Some(Subgraph(graph)))))
  {
    OptionLeads(codec, form, BodySubgraph, JsonOf(codec.encode(graph)), o, Some(o.(body := Some(Subgraph(graph)))));
  }

  lemma BodyLeads(codec: Codec, form: Form, body: Body, o: Options)
    requires form.AddMap? || form.AddFold?
    requires Faithful(codec) && WellFormedBody(codec, body)
    ensures Leads(codec, form, BodyOption(codec, body), o, Some(o.(body := Some(body))))
  {
    match body
    case NodeBody(id) => OptionLeads(codec, form, BodyNode, WordOf(id), o, Some(o.(body := Some(body))));
    case Subgraph(graph) => SubgraphLeads(codec, form, graph, o);
  }

  lemma EqualsAtFirst(name: string, value: string)
    requires '=' !in name
    ensures EqualsAt(name + "=" + value) == |name|
  {
    var s := name + "=" + value;
    if name != "" {
      assert s[1..] == name[1..] + "=" + value;
      EqualsAtFirst(name[1..], value);
    }
  }

  lemma MappingBack(e: Entry<string>)
    requires '=' !in e.name
    ensures Mapping(e.name + "=" + e.value) == Ok(e)
  {
    EqualsAtFirst(e.name, e.value);
    var s := e.name + "=" + e.value;
    assert s[..|e.name|] == e.name && s[|e.name| + 1..] == e.value;
  }

  lemma {:induction false} InputLeads(codec: Codec, input: seq<Entry<string>>, o: Options)
    requires Sorted(o.input + input) && forall i :: 0 <= i < |input| ==> '=' !in input[i].name
    ensures Leads(codec, AddTool, InputOptions(input), o, Some(o.(input := o.input + input)))
    decreases |input|
  {
    if input == [] {
      assert o.input + input == o.input;
      LeadsNowhere(codec, AddTool, o);
    } else {
      var e := input[0];
      var next := o.(input := o.input + [e]);
      MappingBack(e);
      PutNext(o.input, input);
      var piece := WordOf(e.name + "=" + e.value);
      OptionLeads(codec, AddTool, Input, piece, o, Some(next));
      InputLeads(codec, input[1..], next);
      LeadsBoth(codec, AddTool, Option1(Input, piece), InputOptions(input[1..]), o, Some(next),
                Some(o.(input := o.input + input)));
    }
  }

  // --- one node kind at a time ----------------------------------------------

  /** The node that the readings of `node` describe: the same node but for its
      schemas, or nothing when one of them is not JSON. */
  function NodeBack(node: Node): Option<Node> {
    match node
    case AgentNode(id, agentHash, name, inputSchema, outputSchema) =>
      var i :- SchemaBack(inputSchema);
      var o :- SchemaBack(outputSchema);
      Some(AgentNode(id, agentHash, name, i, o))
    case ToolNode(id, tool, name, input, inputSchema, outputSchema) =>
      var i :- SchemaBack(inputSchema);
      var o :- SchemaBack(outputSchema);
      Some(ToolNode(id, tool, name, input, i, o))
    case GateNode(id, name, prompt, approvalSchema) =>
      var j :- Read(JsonToken(approvalSchema));
      Some(GateNode(id, name, prompt, j))
    case MapNode(id, name, over, concurrency, body, outputSchema) =>
      var o :- SchemaBack(outputSchema);
      Some(MapNode(id, name, over, concurrency, body, o))
    case FoldNode(id, name, body, maxIterations, stopWhen, join, onBound, accumulatorSchema) =>
      var a :- SchemaBack(accumulatorSchema);
      Some(FoldNode(id, name, body, maxIterations, stopWhen, join, onBound, a))
    case _ => Some(node)
  }

  /** `r` is the command adding `back`, or some error when there is none. */
  ghost predicate Adds(r: Result<Line, ParseError>, back: Option<Node>) {
    match back
    case None => r.Err?
    case Some(node) => r == Ok(CommandLine(Add(node)))
  }

  /** Both schemas of an agent or a tool read into the options. */
  function WithSchemas(o: Options, inputSchema: Option<Json>, outputSchema: Option<Json>): Option<Options> {
    var i :- SchemaBack(inputSchema);
    var u :- SchemaBack(outputSchema);
    Some(o.(inputSchema := i, outputSchema := u))
  }

  /** The options that an `add` line for this node leaves its parser with. */
  function FinalOptions(node: Node): Option<Options> {
    match node
    case AgentNode(_, agentHash, name, inputSchema, outputSchema) =>
      WithSchemas(NO_OPTIONS.(hash := Some(agentHash), name := name), inputSchema, outputSchema)
    case ToolNode(_, _, name, input, inputSchema, outputSchema) =>
      WithSchemas(NO_OPTIONS.(input := input, name := name), inputSchema, outputSchema)
    case GateNode(_, name, prompt, approvalSchema) =>
      WithSchemaBack(NO_OPTIONS.(prompt := prompt, name := name), ApprovalSchema, Some(approvalSchema))
    case BranchNode(_, name, on, branchHash, _) =>
      Some(NO_OPTIONS.(on := on, hash := branchHash, name := name))
    case MapNode(_, name, over, concurrency, body, outputSchema) =>
      WithSchemaBack(NO_OPTIONS.(over := Some(over), concurrency := Some(concurrency), body := Some(body),
                                 name := name),
                     OutputSchema, outputSchema)
    case FoldNode(_, name, body, maxIterations, stopWhen, join, onBound, accumulatorSchema) =>
      WithSchemaBack(NO_OPTIONS.(body := Some(body), maxIterations := Some(maxIterations), stopWhen := Some(stopWhen),
                                join := Some(join), onBound := onBound, name := name),
                     AccumulatorSchema, accumulatorSchema)
    case DelayNode(_, name, seconds) => Some(NO_OPTIONS.(seconds := Some(seconds), name := name))
  }

  lemma SchemasLead(codec: Codec, form: Form, inputSchema: Option<Json>, outputSchema: Option<Json>, o: Options)
    requires form.AddAgent? || form.AddTool?
    requires o.inputSchema.None? && o.outputSchema.None?
    ensures Leads(codec, form, JsonOption(InputSchema, inputSchema) + JsonOption(OutputSchema, outputSchema), o,
                  WithSchemas(o, inputSchema, outputSchema))
  {
    SchemaLeads(codec, form, InputSchema, inputSchema, o);
    var first, second := JsonOption(InputSchema, inputSchema), JsonOption(OutputSchema, outputSchema);
    match SchemaBack(inputSchema)
    case None => LeadsBoth(codec, form, first, second, o, None, None);
    case Some(i) =>
      var middle := o.(inputSchema := i);
      SchemaLeads(codec, form, OutputSchema, outputSchema, middle);
      LeadsBoth(codec, form, first, second, o, Some(middle), WithSchemas(o, inputSchema, outputSchema));
  }

  lemma NameAndSchemasLead(codec: Codec, form: Form, name: Option<string>, inputSchema: Option<Json>,
                           outputSchema: Option<Json>, o: Options)
    requires form.AddAgent? || form.AddTool?
    requires o.name.None? && o.inputSchema.None? && o.outputSchema.None?
    ensures Leads(codec, form,
                  WordOption(Name, name) +
                  (JsonOption(InputSchema, inputSchema) + JsonOption(OutputSchema, outputSchema)),
                  o, WithSchemas(o.(name := name), inputSchema, outputSchema))
  {
    var named := o.(name := name);
    WordLeads(codec, form, Name, name, o, named);
    SchemasLead(codec, form, inputSchema, outputSchema, named);
    LeadsBoth(codec, form, WordOption(Name, name),
              JsonOption(InputSchema, inputSchema) + JsonOption(OutputSchema, outputSchema),
              o, Some(named), WithSchemas(named, inputSchema, outputSchema));
  }

  lemma AgentLeads(codec: Codec, node: Node)
    requires node.AgentNode?
    ensures Leads(codec, AddAgent, NodeOptions(codec, node), NO_OPTIONS, FinalOptions(node))
  {
    var AgentNode(id, agentHash, name, inputSchema, outputSchema) := node;
    var o1 := NO_OPTIONS.(hash := Some(agentHash));
    var back := WordOption(Name, name) +
                (JsonOption(InputSchema, inputSchema) + JsonOption(OutputSchema, outputSchema));
    var hash := Option1(Hash, WordOf(agentHash));
    OptionLeads(codec, AddAgent, Hash, WordOf(agentHash), NO_OPTIONS, Some(o1));
    NameAndSchemasLead(codec, AddAgent, name, inputSchema, outputSchema, o1);
    LeadsBoth(codec, AddAgent, hash, back, NO_OPTIONS, Some(o1),
              WithSchemas(o1.(name := name), inputSchema, outputSchema));
  }

  lemma AgentReads(codec: Codec, node: Node)
    requires node.AgentNode?
    ensures Adds(ParseAddAgent(codec, [node.id] + Readings(NodeOptions(codec, node))), NodeBack(node))
  {
    AgentLeads(codec, node);
    LeadsToEnd(codec, AddAgent, NodeOptions(codec, node), NO_OPTIONS, FinalOptions(node));
    assert ([node.id] + Readings(NodeOptions(codec, node)))[1..] == Readings(NodeOptions(codec, node));
  }

  lemma ToolLeads(codec: Codec, node: Node)
    requires node.ToolNode? && WellFormedInput(node.input)
    ensures Leads(codec, AddTool, NodeOptions(codec, node)[1..], NO_OPTIONS, FinalOptions(node))
  {
    var ToolNode(id, tool, name, input, inputSchema, outputSchema) := node;
    assert NO_OPTIONS.input + input == input;
    var o1 := NO_OPTIONS.(input := input);
    var back := WordOption(Name, name) +
                (JsonOption(InputSchema, inputSchema) + JsonOption(OutputSchema, outputSchema));
    InputLeads(codec, input, NO_OPTIONS);
    NameAndSchemasLead(codec, AddTool, name, inputSchema, outputSchema, o1);
    LeadsBoth(codec, AddTool, InputOptions(input), back, NO_OPTIONS, Some(o1),
              WithSchemas(o1.(name := name), inputSchema, outputSchema));
    assert NodeOptions(codec, node)[1..] == InputOptions(input) + back;
  }

  lemma ToolReads(codec: Codec, node: Node)
    requires node.ToolNode? && WellFormedInput(node.input)
    ensures Adds(AsLine(ParseAddTool(codec, [node.id] + Readings(NodeOptions(codec, node)))), NodeBack(node))
  {
    var options := NodeOptions(codec, node)[1..];
    ToolLeads(codec, node);
    LeadsToEnd(codec, AddTool, options, NO_OPTIONS, FinalOptions(node));
    ToolTokens(codec, node);
  }

  lemma ToolTokens(codec: Codec, node: Node)
    requires node.ToolNode?
    ensures var tokens := [node.id] + Readings(NodeOptions(codec, node));
            |tokens| > 1 && tokens[1] == node.tool && tokens[2..] == Readings(NodeOptions(codec, node)[1..])
  {
  }

  lemma TwoWordsLead(codec: Codec, form: Form, first: Opt, a: Option<string>, second: Opt, b: Option<string>,
                     o: Options, middle: Options, next: Options)
    requires first in Allowed(form) && first != Model && second in Allowed(form) && second != Model
    requires match a case None => middle == o case Some(text) => Store(codec, form, first, text, o) == Ok(middle)
    requires match b case None => next == middle case Some(text) => Store(codec, form, second, text, middle) == Ok(next)
    ensures Leads(codec, form, WordOption(first, a) + WordOption(second, b), o, Some(next))
  {
    WordLeads(codec, form, first, a, o, middle);
    WordLeads(codec, form, second, b, middle, next);
    LeadsBoth(codec, form, WordOption(first, a), WordOption(second, b), o, Some(middle), Some(next));
  }

  lemma GatePartsLead(codec: Codec, words: seq<Piece>, schema: Json, middle: Option<Options>, next: Option<Options>)
    requires middle == WithSchemaBack(NO_OPTIONS, ApprovalSchema, Some(schema))
    requires if middle.None? then next.None? else Leads(codec, AddGate, words, middle.value, next)
    ensures Leads(codec, AddGate, Option1(ApprovalSchema, JsonOf(schema)) + words, NO_OPTIONS, next)
  {
    SchemaLeads(codec, AddGate, ApprovalSchema, Some(schema), NO_OPTIONS);
    LeadsBoth(codec, AddGate, Option1(ApprovalSchema, JsonOf(schema)), words, NO_OPTIONS, middle, next);
  }

  lemma GateWordsLead(codec: Codec, prompt: Option<string>, name: Option<string>, o: Options)
    requires o.prompt.None? && o.name.None?
    ensures Leads(codec, AddGate, WordOption(Prompt, prompt) + WordOption(Name, name), o,
                  Some(o.(prompt := prompt, name := name)))
  {
    TwoWordsLead(codec, AddGate, Prompt, prompt, Name, name, o, o.(prompt := prompt),
                 o.(prompt := prompt, name := name));
  }

  lemma GateParts(codec: Codec, node: Node)
    requires node.GateNode?
    ensures NodeOptions(codec, node) ==
            Option1(ApprovalSchema, JsonOf(node.approvalSchema)) +
            (WordOption(Prompt, node.prompt) + WordOption(Name, node.name))
  {
  }

  lemma GateLeads(codec: Codec, node: Node)
    requires node.GateNode?
    ensures Leads(codec, AddGate, NodeOptions(codec, node), NO_OPTIONS, FinalOptions(node))
  {
    var words := WordOption(Prompt, node.prompt) + WordOption(Name, node.name);
    var middle := WithSchemaBack(NO_OPTIONS, ApprovalSchema, Some(node.approvalSchema));
    if middle.Some? {
      GateWordsLead(codec, node.prompt, node.name, middle.value);
    }
    GateFinal(node);
    GateParts(codec, node);
    GatePartsLead(codec, words, node.approvalSchema, middle, FinalOptions(node));
  }

  lemma GateFinal(node: Node)
    requires node.GateNode?
    ensures var middle := WithSchemaBack(NO_OPTIONS, ApprovalSchema, Some(node.approvalSchema));
            FinalOptions(node) ==
            if middle.Some? then Some(middle.value.(prompt := node.prompt, name := node.name)) else None
  {
  }

  lemma GateReads(codec: Codec, node: Node)
    requires node.GateNode?
    ensures Adds(AsLine(ParseAddGate(codec, [node.id] + Readings(NodeOptions(codec, node)))), NodeBack(node))
  {
    GateLeads(codec, node);
    LeadsToEnd(codec, AddGate, NodeOptions(codec, node), NO_OPTIONS, FinalOptions(node));
    assert ([node.id] + Readings(NodeOptions(codec, node)))[1..] == Readings(NodeOptions(codec, node));
  }

  lemma BranchLeads(codec: Codec, node: Node)
    requires node.BranchNode? && node.cases == []
    ensures Leads(codec, AddBranch, NodeOptions(codec, node), NO_OPTIONS, FinalOptions(node))
  {
    var BranchNode(id, name, on, branchHash, _) := node;
    var o1 := NO_OPTIONS.(on := on);
    var o2 := o1.(hash := branchHash);
    var o3 := o2.(name := name);
    WordLeads(codec, AddBranch, On, on, NO_OPTIONS, o1);
    WordLeads(codec, AddBranch, Hash, branchHash, o1, o2);
    WordLeads(codec, AddBranch, Name, name, o2, o3);
    LeadsBoth(codec, AddBranch, WordOption(Hash, branchHash), WordOption(Name, name), o1, Some(o2), Some(o3));
    LeadsBoth(codec, AddBranch, WordOption(On, on), WordOption(Hash, branchHash) + WordOption(Name, name), NO_OPTIONS,
              Some(o1), Some(o3));
  }

  lemma BranchReads(codec: Codec, node: Node)
    requires node.BranchNode? && node.cases == []
    ensures Adds(ParseAddBranch(codec, [node.id] + Readings(NodeOptions(codec, node))), NodeBack(node))
  {
    BranchLeads(codec, node);
    LeadsToEnd(codec, AddBranch, NodeOptions(codec, node), NO_OPTIONS, FinalOptions(node));
    assert ([node.id] + Readings(NodeOptions(codec, node)))[1..] == Readings(NodeOptions(codec, node));
  }

  lemma MapFrontLeads(codec: Codec, over: string, concurrency: U32, body: Body)
    requires Faithful(codec) && WellFormedBody(codec, body)
    ensures Leads(codec, AddMap,
                  Option1(Over, WordOf(over)) +
                  (Option1(Concurrency, Literal(Decimal(concurrency))) + BodyOption(codec, body)),
                  NO_OPTIONS,
                  Some(NO_OPTIONS.(over := Some(over), concurrency := Some(concurrency), body := Some(body))))
  {
    var numeral := Literal(Decimal(concurrency));
    var o1 := NO_OPTIONS.(over := Some(over));
    var o2 := o1.(concurrency := Some(concurrency));
    var o3 := o2.(body := Some(body));
    OptionLeads(codec, AddMap, Over, WordOf(over), NO_OPTIONS, Some(o1));
    ParseUnsignedPrinted(concurrency, 0xFFFF_FFFF);
    OptionLeads(codec, AddMap, Concurrency, numeral, o1, Some(o2));
    BodyLeads(codec, AddMap, body, o2);
    LeadsBoth(codec, AddMap, Option1(Concurrency, numeral), BodyOption(codec, body), o1, Some(o2), Some(o3));
    LeadsBoth(codec, AddMap, Option1(Over, WordOf(over)), Option1(Concurrency, numeral) + BodyOption(codec, body),
              NO_OPTIONS, Some(o1), Some(o3));
  }

  lemma MapBackLeads(codec: Codec, name: Option<string>, outputSchema: Option<Json>, o: Options)
    requires o.name.None? && o.outputSchema.None?
    ensures Leads(codec, AddMap, WordOption(Name, name) + JsonOption(OutputSchema, outputSchema), o,
                  WithSchemaBack(o.(name := name), OutputSchema, outputSchema))
  {
    var o1 := o.(name := name);
    WordLeads(codec, AddMap, Name, name, o, o1);
    SchemaLeads(codec, AddMap, OutputSchema, outputSchema, o1);
    LeadsBoth(codec, AddMap, WordOption(Name, name), JsonOption(OutputSchema, outputSchema), o, Some(o1),
              WithSchemaBack(o1, OutputSchema, outputSchema));
  }

  lemma MapLeads(codec: Codec, node: Node)
    requires Faithful(codec) && node.MapNode? && WellFormedBody(codec, node.body)
    ensures Leads(codec, AddMap, NodeOptions(codec, node), NO_OPTIONS, FinalOptions(node))
  {
    var MapNode(id, name, over, concurrency, body, outputSchema) := node;
    var o := NO_OPTIONS.(over := Some(over), concurrency := Some(concurrency), body := Some(body));
    var front := Option1(Over, WordOf(over)) +
                 (Option1(Concurrency, Literal(Decimal(concurrency))) + BodyOption(codec, body));
    var back := WordOption(Name, name) + JsonOption(OutputSchema, outputSchema);
    MapFrontLeads(codec, over, concurrency, body);
    MapBackLeads(codec, name, outputSchema, o);
    LeadsBoth(codec, AddMap, front, back, NO_OPTIONS, Some(o), FinalOptions(node));
    assert NodeOptions(codec, node) == front + back;
  }

  lemma MapReads(codec: Codec, node: Node)
    requires Faithful(codec) && node.MapNode? && WellFormedBody(codec, node.body)
    ensures Adds(AsLine(ParseAddMap(codec, [node.id] + Readings(NodeOptions(codec, node)))), NodeBack(node))
  {
    MapLeads(codec, node);
    LeadsToEnd(codec, AddMap, NodeOptions(codec, node), NO_OPTIONS, FinalOptions(node));
    assert ([node.id] + Readings(NodeOptions(codec, node)))[1..] == Readings(NodeOptions(codec, node));
  }

  lemma JoinBack(join: FoldJoin)
    requires join.BestBy? ==> join.reference != ""
    ensures ParseJoin(JoinText(join)) == Ok(join)
  {
    if join.BestBy? {
      assert JoinText(join)[|BEST_BY|..] == join.reference;
      assert JoinText(join)[0] == 'b';
    }
  }

  lemma OnBoundBack(bound: OnBound)
    ensures ParseOnBound(OnBoundText(bound)) == Ok(bound)
  {
  }

  lemma OnBoundLeads(codec: Codec, bound: Option<OnBound>, o: Options)
    requires o.onBound.None?
    ensures Leads(codec, AddFold, OnBoundOption(bound), o, Some(o.(onBound := bound)))
  {
    if bound.None? {
      LeadsNowhere(codec, AddFold, o);
    } else {
      OnBoundBack(bound.value);
      OptionLeads(codec, AddFold, Bound, Literal(OnBoundText(bound.value)), o, Some(o.(onBound := bound)));
    }
  }

  function FoldFrontOptions(node: Node): Options
    requires node.FoldNode?
  {
    NO_OPTIONS.(body := Some(node.body), maxIterations := Some(node.maxIterations), stopWhen := Some(node.stopWhen))
  }

  lemma FoldFrontLeads(codec: Codec, node: Node)
    requires Faithful(codec) && node.FoldNode? && WellFormedBody(codec, node.body)
    ensures Leads(codec, AddFold, FoldFront(codec, node), NO_OPTIONS, Some(FoldFrontOptions(node)))
  {
    var bound := Option1(MaxIterations, Literal(Decimal(node.maxIterations)));
    var stop := Option1(StopWhen, WordOf(node.stopWhen));
    var o1 := NO_OPTIONS.(body := Some(node.body));
    var o2 := o1.(maxIterations := Some(node.maxIterations));
    var end := Some(FoldFrontOptions(node));
    BodyLeads(codec, AddFold, node.body, NO_OPTIONS);
    ParseUnsignedPrinted(node.maxIterations, 0xFFFF_FFFF);
    OptionLeads(codec, AddFold, MaxIterations, Literal(Decimal(node.maxIterations)), o1, Some(o2));
    OptionLeads(codec, AddFold, StopWhen, WordOf(node.stopWhen), o2, end);
    LeadsBoth(codec, AddFold, bound, stop, o1, Some(o2), end);
    LeadsBoth(codec, AddFold, BodyOption(codec, node.body), bound + stop, NO_OPTIONS, Some(o1), end);
  }

  lemma FoldNameLeads(codec: Codec, name: Option<string>, middle: Option<Options>, next: Option<Options>)
    requires middle.Some? ==> middle.value.name.None?
    requires next == if middle.Some? then Some(middle.value.(name := name)) else None
    ensures if middle.None? then next.None? else Leads(codec, AddFold, WordOption(Name, name), middle.value, next)
  {
    if middle.Some? {
      WordLeads(codec, AddFold, Name, name, middle.value, middle.value.(name := name));
    }
  }

  lemma FoldBackPartsLead(codec: Codec, bound: Option<OnBound>, schema: Option<Json>, name: Option<string>, o: Options,
                          middle: Option<Options>, next: Option<Options>)
    requires o.onBound.None? && o.accumulatorSchema.None? && o.name.None?
    requires middle == WithSchemaBack(o.(onBound := bound), AccumulatorSchema, schema)
    requires next == if middle.Some? then Some(middle.value.(name := name)) else None
    ensures Leads(codec, AddFold,
                  OnBoundOption(bound) + (JsonOption(AccumulatorSchema, schema) + WordOption(Name, name)), o, next)
  {
    OnBoundLeads(codec, bound, o);
    SchemaLeads(codec, AddFold, AccumulatorSchema, schema, o.(onBound := bound));
    FoldNameLeads(codec, name, middle, next);
    LeadsThree(codec, AddFold, OnBoundOption(bound), JsonOption(AccumulatorSchema, schema), WordOption(Name, name), o,
               o.(onBound := bound), middle, next);
  }

  lemma FoldBackLeads(codec: Codec, node: Node, o: Options)
    requires node.FoldNode? && o.onBound.None? && o.accumulatorSchema.None? && o.name.None?
    ensures Leads(codec, AddFold, FoldBack(node), o,
                  WithSchemaBack(o.(onBound := node.onBound, name := node.name), AccumulatorSchema,
                                 node.accumulatorSchema))
  {
    FoldBackFinal(o, node);
    FoldBackPartsLead(codec, node.onBound, node.accumulatorSchema, node.name, o,
                      WithSchemaBack(o.(onBound := node.onBound), AccumulatorSchema, node.accumulatorSchema),
                      WithSchemaBack(o.(onBound := node.onBound, name := node.name), AccumulatorSchema,
                                     node.accumulatorSchema));
  }

  lemma FoldBackFinal(o: Options, node: Node)
    requires node.FoldNode?
    ensures var middle := WithSchemaBack(o.(onBound := node.onBound), AccumulatorSchema, node.accumulatorSchema);
            WithSchemaBack(o.(onBound := node.onBound, name := node.name), AccumulatorSchema, node.accumulatorSchema) ==
            if middle.Some? then Some(middle.value.(name := node.name)) else None
  {
  }

  lemma RuleLeads(codec: Codec, join: FoldJoin, o: Options)
    requires join.BestBy? ==> join.reference != ""
    ensures Leads(codec, AddFold, Option1(JoinRule, Literal(JoinText(join))), o, Some(o.(join := Some(join))))
  {
    JoinBack(join);
    OptionLeads(codec, AddFold, JoinRule, Literal(JoinText(join)), o, Some(o.(join := Some(join))));
  }

  lemma FoldLeads(codec: Codec, node: Node)
    requires Faithful(codec) && node.FoldNode? && WellFormedNode(codec, node)
    ensures Leads(codec, AddFold, NodeOptions(codec, node), NO_OPTIONS, FinalOptions(node))
  {
    var o1 := FoldFrontOptions(node);
    var o2 := o1.(join := Some(node.join));
    var rule := Option1(JoinRule, Literal(JoinText(node.join)));
    FoldFrontLeads(codec, node);
    RuleLeads(codec, node.join, o1);
    FoldBackLeads(codec, node, o2);
    FoldFinal(node);
    LeadsThree(codec, AddFold, FoldFront(codec, node), rule, FoldBack(node), NO_OPTIONS, o1, Some(o2),
               FinalOptions(node));
    FoldParts(codec, node);
  }

  lemma FoldFinal(node: Node)
    requires node.FoldNode?
    ensures FinalOptions(node) ==
            WithSchemaBack(FoldFrontOptions(node).(join := Some(node.join), onBound := node.onBound, name := node.name),
                           AccumulatorSchema, node.accumulatorSchema)
  {
  }

  lemma FoldReads(codec: Codec, node: Node)
    requires Faithful(codec) && node.FoldNode? && WellFormedNode(codec, node)
    ensures Adds(AsLine(ParseAddFold(codec, [node.id] + Readings(NodeOptions(codec, node)))), NodeBack(node))
  {
    FoldLeads(codec, node);
    LeadsToEnd(codec, AddFold, NodeOptions(codec, node), NO_OPTIONS, FinalOptions(node));
    assert ([node.id] + Readings(NodeOptions(codec, node)))[1..] == Readings(NodeOptions(codec, node));
  }

  lemma DelayLeads(codec: Codec, node: Node)
    requires node.DelayNode?
    ensures Leads(codec, AddDelay, NodeOptions(codec, node), NO_OPTIONS, FinalOptions(node))
  {
    var DelayNode(id, name, seconds) := node;
    var numeral := Literal(Decimal(seconds));
    var o1 := NO_OPTIONS.(seconds := Some(seconds));
    var o2 := o1.(name := name);
    ParseUnsignedPrinted(seconds, 0xFFFF_FFFF_FFFF_FFFF);
    OptionLeads(codec, AddDelay, Seconds, numeral, NO_OPTIONS, Some(o1));
    WordLeads(codec, AddDelay, Name, name, o1, o2);
    LeadsBoth(codec, AddDelay, Option1(Seconds, numeral), WordOption(Name, name), NO_OPTIONS, Some(o1), Some(o2));
  }

  lemma DelayReads(codec: Codec, node: Node)
    requires node.DelayNode?
    ensures Adds(AsLine(ParseAddDelay(codec, [node.id] + Readings(NodeOptions(codec, node)))), NodeBack(node))
  {
    DelayLeads(codec, node);
    LeadsToEnd(codec, AddDelay, NodeOptions(codec, node), NO_OPTIONS, FinalOptions(node));
    assert ([node.id] + Readings(NodeOptions(codec, node)))[1..] == Readings(NodeOptions(codec, node));
  }

  /** The parser that `add` hands a node of this kind to. */
  function KindParser(codec: Codec, node: Node, rest: seq<string>): Result<Line, ParseError> {
    match node
    case AgentNode(_, _, _, _, _) => ParseAddAgent(codec, rest)
    case ToolNode(_, _, _, _, _, _) => AsLine(ParseAddTool(codec, rest))
    case GateNode(_, _, _, _) => AsLine(ParseAddGate(codec, rest))
    case BranchNode(_, _, _, _, _) => ParseAddBranch(codec, rest)
    case MapNode(_, _, _, _, _, _) => AsLine(ParseAddMap(codec, rest))
    case FoldNode(_, _, _, _, _, _, _, _) => AsLine(ParseAddFold(codec, rest))
    case DelayNode(_, _, _) => AsLine(ParseAddDelay(codec, rest))
  }

  lemma AddDispatches(codec: Codec, node: Node, rest: seq<string>)
    ensures ParseTokens(codec, ["add", KindName(node)] + rest) == KindParser(codec, node, rest)
  {
    var tokens := ["add", KindName(node)] + rest;
    assert tokens[1..][1..] == rest;
  }

  lemma KindReads(codec: Codec, node: Node)
    requires Faithful(codec) && WellFormedNode(codec, node)
    ensures Adds(KindParser(codec, node, [node.id] + Readings(NodeOptions(codec, node))), NodeBack(node))
  {
    match node
    case AgentNode(_, _, _, _, _) => AgentReads(codec, node);
    case ToolNode(_, _, _, _, _, _) => ToolReads(codec, node);
    case GateNode(_, _, _, _) => GateReads(codec, node);
    case BranchNode(_, _, _, _, _) => BranchReads(codec, node);
    case MapNode(_, _, _, _, _, _) => MapReads(codec, node);
    case FoldNode(_, _, _, _, _, _, _, _) => FoldReads(codec, node);
    case DelayNode(_, _, _) => DelayReads(codec, node);
  }

  lemma AddReads(codec: Codec, node: Node)
    requires Faithful(codec) && WellFormedNode(codec, node)
    ensures Adds(ParseTokens(codec, Readings(CommandPieces(codec, Add(node)))), NodeBack(node))
  {
    var rest := [node.id] + Readings(NodeOptions(codec, node));
    KindReads(codec, node);
    AddDispatches(codec, node, rest);
    AddReadings(codec, node);
  }

  lemma AddReadings(codec: Codec, node: Node)
    ensures Readings(CommandPieces(codec, Add(node))) ==
            ["add", KindName(node)] + ([node.id] + Readings(NodeOptions(codec, node)))
  {
  }

  lemma ConnectReads(codec: Codec, edge: Edge)
    ensures ParseTokens(codec, Readings(CommandPieces(codec, Connect(edge)))) == Ok(CommandLine(Connect(edge)))
  {
    TagLeads(codec, EdgeForm, edge.tag);
    assert Readings(CommandPieces(codec, Connect(edge)))[1..][2..] == Readings(WordOption(Tag, edge.tag));
  }

  lemma RemoveEdgeReads(codec: Codec, source: string, target: string, tag: Option<string>)
    ensures var c := Remove(EdgeTarget(source, target, tag));
            ParseTokens(codec, Readings(CommandPieces(codec, c))) == Ok(CommandLine(c))
  {
    var c := Remove(EdgeTarget(source, target, tag));
    TagLeads(codec, RemoveEdge, tag);
    assert Readings(CommandPieces(codec, c))[1..][1..][2..] == Readings(WordOption(Tag, tag));
  }

  lemma RestReads(codec: Codec, c: Command)
    requires Faithful(codec)
    requires c.Connect? || c.AddCase? || c.Remove?
    ensures ParseTokens(codec, Readings(CommandPieces(codec, c))) == Ok(CommandLine(c))
  {
    var tokens := Readings(CommandPieces(codec, c));
    match c
    case Connect(edge) => ConnectReads(codec, edge);
    case AddCase(branch, branchCase) => CaseReads(codec, branch, branchCase);
    case Remove(NodeTarget(id)) => assert tokens == ["rm", "node", id];
    case Remove(EdgeTarget(source, target, tag)) => RemoveEdgeReads(codec, source, target, tag);
    case Remove(CaseTarget(branch, name)) => assert tokens == ["rm", "case", branch, name];
  }

  lemma TagLeads(codec: Codec, form: Form, tag: Option<string>)
    requires form.EdgeForm? || form.RemoveEdge?
    ensures ReadOptions(codec, form, Readings(WordOption(Tag, tag)), NO_OPTIONS) == Ok(NO_OPTIONS.(tag := tag))
  {
    WordLeads(codec, form, Tag, tag, NO_OPTIONS, NO_OPTIONS.(tag := tag));
    LeadsToEnd(codec, form, WordOption(Tag, tag), NO_OPTIONS, Some(NO_OPTIONS.(tag := tag)));
  }

  lemma CaseReads(codec: Codec, branch: string, branchCase: BranchCase)
    ensures ParseTokens(codec, Readings(CommandPieces(codec, AddCase(branch, branchCase)))) ==
            Ok(CommandLine(AddCase(branch, branchCase)))
  {
    var tokens := Readings(CommandPieces(codec, AddCase(branch, branchCase)));
    match branchCase.when
    case Expression(text) =>
      WhenReads(codec, text);
      assert tokens[1..][2..] == Readings(Option1(When, WordOf(text)));
    case ModelDecision =>
      ModelReads(codec);
      assert tokens[1..][2..] == [OptText(Model)];
  }

  lemma WhenReads(codec: Codec, text: string)
    ensures ReadOptions(codec, CaseForm, Readings(Option1(When, WordOf(text))), NO_OPTIONS) ==
            Ok(NO_OPTIONS.(when := Some(text)))
  {
    OptionLeads(codec, CaseForm, When, WordOf(text), NO_OPTIONS, Some(NO_OPTIONS.(when := Some(text))));
    LeadsToEnd(codec, CaseForm, Option1(When, WordOf(text)), NO_OPTIONS, Some(NO_OPTIONS.(when := Some(text))));
  }

  lemma ModelReads(codec: Codec)
    ensures ReadOptions(codec, CaseForm, [OptText(Model)], NO_OPTIONS) == Ok(NO_OPTIONS.(model := true))
  {
    var option := [OptText(Model)];
    SpelledFinds(Allowed(CaseForm), Model);
    assert OptionOf(CaseForm, option[0]) == Some(Model);
    assert option[1..] == [];
  }

  // --- from pieces to lines -------------------------------------------------

  lemma HeadIsWord(codec: Codec, c: Command)
    requires Changes(c)
    ensures var line := ToLine(codec, c);
            line != "" && !IsWhitespace(line[0]) && line[0] != '#'
  {
    var pieces := Written(CommandPieces(codec, c));
    assert pieces[0] == CommandPieces(codec, c)[0].Written();
    assert Join(pieces)[0] == pieces[0][0];
  }

  function Lifted(r: Result<Line, ParseError>): Result<Option<Line>, ParseError> {
    match r case Ok(parsed) => Ok(Some(parsed)) case Err(error) => Err(error)
  }

  /** The line of a command whose pieces the scanner reads faithfully parses as
      its readings. */
  lemma LineReads(codec: Codec, c: Command)
    requires Changes(c) && AllFaithful(CommandPieces(codec, c))
    ensures Parse(codec, ToLine(codec, c)) ==
            Lifted(ParseTokens(codec, Readings(CommandPieces(codec, c))))
  {
    HeadIsWord(codec, c);
    PiecesScan(CommandPieces(codec, c));
  }

  lemma SchemaComesBack(value: Option<Json>)
    requires WellFormedSchema(value)
    ensures SchemaBack(value) == Some(value) <==> !BareString(value)
  {
    if value.Some? {
      JsonTokenReadsBack(value.value);
    }
  }

  lemma NodeComesBack(codec: Codec, node: Node)
    requires WellFormedNode(codec, node)
    ensures NodeBack(node) == Some(node) <==> PlainSchemas(node)
  {
    match node
    case AgentNode(_, _, _, inputSchema, outputSchema) =>
      SchemaComesBack(inputSchema);
      SchemaComesBack(outputSchema);
    case ToolNode(_, _, _, _, inputSchema, outputSchema) =>
      SchemaComesBack(inputSchema);
      SchemaComesBack(outputSchema);
    case GateNode(_, _, _, approvalSchema) => JsonTokenReadsBack(approvalSchema);
    case MapNode(_, _, _, _, _, outputSchema) => SchemaComesBack(outputSchema);
    case FoldNode(_, _, _, _, _, _, _, accumulatorSchema) => SchemaComesBack(accumulatorSchema);
    case _ =>
  }

  /** Printing and parsing are inverse on every document-changing command but a
      read, when no best-by reference holds whitespace: exactly those commands
      come back in which no schema is a bare string. */
  lemma PrintParse(codec: Codec, c: Command)
    requires Faithful(codec) && WellFormedCommand(codec, c)
    requires Changes(c) && !c.ReadDocument?
    requires c.Add? ==> PlainJoin(c.node)
    ensures Parse(codec, ToLine(codec, c)) == Ok(Some(CommandLine(c))) <==> ComesBack(c)
  {
    ChangesFaithful(codec, c);
    LineReads(codec, c);
    if c.Add? {
      AddReads(codec, c.node);
      NodeComesBack(codec, c.node);
    } else {
      RestReads(codec, c);
    }
  }
}
