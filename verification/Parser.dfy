/** What a line means: the grammar as functions of its tokens. */
module Parser {
  import opened Commands
  import opened Errors
  import opened Graph
  import opened Json
  import opened Ordered
  import opened Text
  import opened Tokenizer

  // --- options --------------------------------------------------------------

  /** The commands that take options. */
  datatype Form =
    | AddAgent | AddTool | AddGate | AddBranch | AddMap | AddFold | AddDelay
    | EdgeForm | CaseForm | RemoveEdge

  function CommandName(form: Form): string {
    match form
    case AddAgent => "add agent"
    case AddTool => "add tool"
    case AddGate => "add gate"
    case AddBranch => "add branch"
    case AddMap => "add map"
    case AddFold => "add fold"
    case AddDelay => "add delay"
    case EdgeForm => "edge"
    case CaseForm => "case"
    case RemoveEdge => "rm edge"
  }

  datatype Opt =
    | Hash | File | Name | Input | InputSchema | OutputSchema | Prompt | ApprovalSchema | On
    | Over | Concurrency | BodyNode | BodySubgraph | MaxIterations | StopWhen | JoinRule | Bound
    | AccumulatorSchema | Seconds | Tag | When | Model

  function OptText(opt: Opt): string {
    match opt
    case Hash => "--hash"
    case File => "--file"
    case Name => "--name"
    case Input => "--input"
    case InputSchema => "--input-schema"
    case OutputSchema => "--output-schema"
    case Prompt => "--prompt"
    case ApprovalSchema => "--approval-schema"
    case On => "--on"
    case Over => "--over"
    case Concurrency => "--concurrency"
    case BodyNode => "--body"
    case BodySubgraph => "--body-subgraph"
    case MaxIterations => "--max-iterations"
    case StopWhen => "--stop-when"
    case JoinRule => "--join"
    case Bound => "--on-bound"
    case AccumulatorSchema => "--accumulator-schema"
    case Seconds => "--seconds"
    case Tag => "--label"
    case When => "--when"
    case Model => "--model"
  }

  /** The options each command has, in the order its loop tries them. */
  function Allowed(form: Form): seq<Opt> {
    match form
    case AddAgent => [Hash, File, Name, InputSchema, OutputSchema]
    case AddTool => [Name, Input, InputSchema, OutputSchema]
    case AddGate => [Name, Prompt, ApprovalSchema]
    case AddBranch => [Name, On, Hash, File]
    case AddMap => [Name, Over, Concurrency, BodyNode, BodySubgraph, OutputSchema]
    case AddFold => [Name, BodyNode, BodySubgraph, MaxIterations, StopWhen, JoinRule, Bound, AccumulatorSchema]
    case AddDelay => [Name, Seconds]
    case EdgeForm => [Tag]
    case CaseForm => [When, Model]
    case RemoveEdge => [Tag]
  }

  /** The first option of the list that the token spells. */
  function Spelled(opts: seq<Opt>, token: string): Option<Opt> {
    if opts == [] then None
    else if OptText(opts[0]) == token then Some(opts[0])
    else Spelled(opts[1..], token)
  }

  function OptionOf(form: Form, token: string): Option<Opt> {
    Spelled(Allowed(form), token)
  }

  /** Everything the options of a line can set; a command's own are a few of them. */
  datatype Options = Options(
    hash: Option<string>, file: Option<string>, name: Option<string>, input: seq<Entry<string>>,
    inputSchema: Option<Json>, outputSchema: Option<Json>, prompt: Option<string>,
    approvalSchema: Option<Json>, on: Option<string>, over: Option<string>,
    concurrency: Option<U32>, body: Option<Body>, maxIterations: Option<U32>,
    stopWhen: Option<string>, join: Option<FoldJoin>, onBound: Option<OnBound>,
    accumulatorSchema: Option<Json>, seconds: Option<U64>, tag: Option<string>,
    when: Option<string>, model: bool)

  const NO_OPTIONS := Options(None, None, None, [], None, None, None, None, None, None, None, None,
                             None, None, None, None, None, None, None, None, false)

  function JsonValue(form: Form, opt: Opt, raw: string): Result<Json, ParseError> {
    match Read(raw)
    case Some(j) => Ok(j)
    case None => Err(MalformedJson(CommandName(form), OptText(opt)))
  }

  function Number(form: Form, opt: Opt, raw: string): Result<U32, ParseError> {
    match ParseUnsigned(raw, 0xFFFF_FFFF)
    case Some(n) => Ok(n as U32)
    case None => Err(MalformedNumber(CommandName(form), OptText(opt), raw))
  }

  function LongNumber(form: Form, opt: Opt, raw: string): Result<U64, ParseError> {
    match ParseUnsigned(raw, 0xFFFF_FFFF_FFFF_FFFF)
    case Some(n) => Ok(n as U64)
    case None => Err(MalformedNumber(CommandName(form), OptText(opt), raw))
  }

  function SubgraphValue(codec: Codec, form: Form, opt: Opt, raw: string): Result<Body, ParseError> {
    match codec.parse(raw)
    case Some(graph) => Ok(Subgraph(graph))
    case None => Err(MalformedJson(CommandName(form), OptText(opt)))
  }

  /** Where the first `=` is, or the length when there is none. */
  function EqualsAt(s: string): (n: nat)
    ensures n <= |s|
    ensures '=' !in s[..n]
    ensures n < |s| ==> s[n] == '='
  {
    if s == "" || s[0] == '=' then 0 else 1 + EqualsAt(s[1..])
  }

  function Mapping(raw: string): Result<Entry<string>, ParseError> {
    var n := EqualsAt(raw);
    if n < |raw| then Ok(Entry(raw[..n], raw[n + 1..])) else Err(MalformedInputMapping(raw))
  }

  const BEST_BY := "best-by:"

  function ParseJoin(raw: string): Result<FoldJoin, ParseError> {
    if raw == "last" then Ok(Last)
    else if raw == "all" then Ok(All)
    else if StartsWith(raw, BEST_BY) && raw != BEST_BY then Ok(BestBy(raw[|BEST_BY|..]))
    else Err(MalformedJoin(raw))
  }

  function ParseOnBound(raw: string): Result<OnBound, ParseError> {
    if raw == "join" then Ok(JoinResults)
    else if raw == "fail" then Ok(FailRun)
    else Err(MalformedOnBound(raw))
  }

  /** What giving an option a value does to the options read so far. */
  function Store(codec: Codec, form: Form, opt: Opt, raw: string, o: Options): Result<Options, ParseError> {
    match opt
    case Hash => Ok(o.(hash := Some(raw)))
    case File => Ok(o.(file := Some(raw)))
    case Name => Ok(o.(name := Some(raw)))
    case Input =>
      var mapping :- Mapping(raw);
      Ok(o.(input := Put(o.input, mapping)))
    case InputSchema =>
      var j :- JsonValue(form, opt, raw);
      Ok(o.(inputSchema := Some(j)))
    case OutputSchema =>
      var j :- JsonValue(form, opt, raw);
      Ok(o.(outputSchema := Some(j)))
    case Prompt => Ok(o.(prompt := Some(raw)))
    case ApprovalSchema =>
      var j :- JsonValue(form, opt, raw);
      Ok(o.(approvalSchema := Some(j)))
    case On => Ok(o.(on := Some(raw)))
    case Over => Ok(o.(over := Some(raw)))
    case Concurrency =>
      var n :- Number(form, opt, raw);
      Ok(o.(concurrency := Some(n)))
    case BodyNode => Ok(o.(body := Some(NodeBody(raw))))
    case BodySubgraph =>
      var body :- SubgraphValue(codec, form, opt, raw);
      Ok(o.(body := Some(body)))
    case MaxIterations =>
      var n :- Number(form, opt, raw);
      Ok(o.(maxIterations := Some(n)))
    case StopWhen => Ok(o.(stopWhen := Some(raw)))
    case JoinRule =>
      var join :- ParseJoin(raw);
      Ok(o.(join := Some(join)))
    case Bound =>
      var bound :- ParseOnBound(raw);
      Ok(o.(onBound := Some(bound)))
    case AccumulatorSchema =>
      var j :- JsonValue(form, opt, raw);
      Ok(o.(accumulatorSchema := Some(j)))
    case Seconds =>
      var n :- LongNumber(form, opt, raw);
      Ok(o.(seconds := Some(n)))
    case Tag => Ok(o.(tag := Some(raw)))
    case When => Ok(o.(when := Some(raw)))
    case Model => Ok(o.(model := true))
  }

  /** The error of a token that is neither an option of the command nor an
      expected argument. */
  function Stray(command: string, found: string): ParseError {
    if StartsWith(found, "--") then UnknownOption(command, found) else UnexpectedArgument(command, found)
  }

  /** Reads options to the end of the line. */
  function ReadOptions(codec: Codec, form: Form, tokens: seq<string>, o: Options): Result<Options, ParseError>
    decreases |tokens|
  {
    if tokens == [] then Ok(o)
    else match OptionOf(form, tokens[0])
      case None => Err(Stray(CommandName(form), tokens[0]))
      case Some(Model) => ReadOptions(codec, form, tokens[1..], o.(model := true))
      case Some(opt) =>
        if |tokens| == 1 then Err(MissingOptionValue(CommandName(form), tokens[0])) else
        var next :- Store(codec, form, opt, tokens[1], o);
        ReadOptions(codec, form, tokens[2..], next)
  }

  // --- commands -------------------------------------------------------------

  function Positional(command: string, what: string, tokens: seq<string>, index: nat): Result<string, ParseError> {
    if index < |tokens| then Ok(tokens[index]) else Err(MissingArgument(command, what))
  }

  function Required<T>(form: Form, option: string, value: Option<T>): Result<T, ParseError> {
    match value
    case Some(v) => Ok(v)
    case None => Err(MissingOption(CommandName(form), option))
  }

  function NothingMore(command: string, tokens: seq<string>): Result<(), ParseError> {
    if tokens == [] then Ok(()) else Err(Stray(command, tokens[0]))
  }

  const NODE_ID := "a node id"

  function BuildAgent(id: string, o: Options): Result<Line, ParseError> {
    var hash := if o.hash.Some? then o.hash.value else "";
    var node := AgentNode(id, hash, o.name, o.inputSchema, o.outputSchema);
    if o.hash.Some? && o.file.Some? then Err(ConflictingOptions("add agent", "--hash", "--file"))
    else if o.hash.Some? then Ok(CommandLine(Add(node)))
    else if o.file.Some? then Ok(Host(AgentFile(o.file.value, node)))
    else Err(MissingOption("add agent", "--hash or --file"))
  }

  function ParseAddAgent(codec: Codec, tokens: seq<string>): Result<Line, ParseError> {
    var id :- Positional("add agent", NODE_ID, tokens, 0);
    var o :- ReadOptions(codec, AddAgent, tokens[1..], NO_OPTIONS);
    BuildAgent(id, o)
  }

  function ParseAddTool(codec: Codec, tokens: seq<string>): Result<Command, ParseError> {
    var id :- Positional("add tool", NODE_ID, tokens, 0);
    var tool :- Positional("add tool", "a tool name", tokens, 1);
    var o :- ReadOptions(codec, AddTool, tokens[2..], NO_OPTIONS);
    Ok(Add(ToolNode(id, tool, o.name, o.input, o.inputSchema, o.outputSchema)))
  }

  function ParseAddGate(codec: Codec, tokens: seq<string>): Result<Command, ParseError> {
    var id :- Positional("add gate", NODE_ID, tokens, 0);
    var o :- ReadOptions(codec, AddGate, tokens[1..], NO_OPTIONS);
    var approvalSchema :- Required(AddGate, "--approval-schema", o.approvalSchema);
    Ok(Add(GateNode(id, o.name, o.prompt, approvalSchema)))
  }

  function BuildBranch(id: string, o: Options): Result<Line, ParseError> {
    var node := BranchNode(id, o.name, o.on, o.hash, []);
    if o.hash.Some? && o.file.Some? then Err(ConflictingOptions("add branch", "--hash", "--file"))
    else if o.file.Some? then Ok(Host(AgentFile(o.file.value, node)))
    else Ok(CommandLine(Add(node)))
  }

  function ParseAddBranch(codec: Codec, tokens: seq<string>): Result<Line, ParseError> {
    var id :- Positional("add branch", NODE_ID, tokens, 0);
    var o :- ReadOptions(codec, AddBranch, tokens[1..], NO_OPTIONS);
    BuildBranch(id, o)
  }

  function BuildMap(id: string, o: Options): Result<Command, ParseError> {
    var over :- Required(AddMap, "--over", o.over);
    var concurrency :- Required(AddMap, "--concurrency", o.concurrency);
    var body :- Required(AddMap, "--body or --body-subgraph", o.body);
    Ok(Add(MapNode(id, o.name, over, concurrency, body, o.outputSchema)))
  }

  function ParseAddMap(codec: Codec, tokens: seq<string>): Result<Command, ParseError> {
    var id :- Positional("add map", NODE_ID, tokens, 0);
    var o :- ReadOptions(codec, AddMap, tokens[1..], NO_OPTIONS);
    BuildMap(id, o)
  }

  function BuildFold(id: string, o: Options): Result<Command, ParseError> {
    var body :- Required(AddFold, "--body or --body-subgraph", o.body);
    var maxIterations :- Required(AddFold, "--max-iterations", o.maxIterations);
    var stopWhen :- Required(AddFold, "--stop-when", o.stopWhen);
    var join :- Required(AddFold, "--join", o.join);
    Ok(Add(FoldNode(id, o.name, body, maxIterations, stopWhen, join, o.onBound, o.accumulatorSchema)))
  }

  function ParseAddFold(codec: Codec, tokens: seq<string>): Result<Command, ParseError> {
    var id :- Positional("add fold", NODE_ID, tokens, 0);
    var o :- ReadOptions(codec, AddFold, tokens[1..], NO_OPTIONS);
    BuildFold(id, o)
  }

  function ParseAddDelay(codec: Codec, tokens: seq<string>): Result<Command, ParseError> {
    var id :- Positional("add delay", NODE_ID, tokens, 0);
    var o :- ReadOptions(codec, AddDelay, tokens[1..], NO_OPTIONS);
    var seconds :- Required(AddDelay, "--seconds", o.seconds);
    Ok(Add(DelayNode(id, o.name, seconds)))
  }

  function AsLine(r: Result<Command, ParseError>): Result<Line, ParseError> {
    var command :- r;
    Ok(CommandLine(command))
  }

  function ParseAdd(codec: Codec, tokens: seq<string>): Result<Line, ParseError> {
    var kind :- Positional("add", "a node kind", tokens, 0);
    var rest := tokens[1..];
    if kind == "agent" then ParseAddAgent(codec, rest)
    else if kind == "tool" then AsLine(ParseAddTool(codec, rest))
    else if kind == "gate" then AsLine(ParseAddGate(codec, rest))
    else if kind == "branch" then ParseAddBranch(codec, rest)
    else if kind == "map" then AsLine(ParseAddMap(codec, rest))
    else if kind == "fold" then AsLine(ParseAddFold(codec, rest))
    else if kind == "delay" then AsLine(ParseAddDelay(codec, rest))
    else Err(UnknownNodeKind(kind))
  }

  const SOURCE_ID := "a source node id"
  const TARGET_ID := "a destination node id"

  function ParseEdge(codec: Codec, tokens: seq<string>): Result<Command, ParseError> {
    var source :- Positional("edge", SOURCE_ID, tokens, 0);
    var target :- Positional("edge", TARGET_ID, tokens, 1);
    var o :- ReadOptions(codec, EdgeForm, tokens[2..], NO_OPTIONS);
    Ok(Connect(Edge(source, target, o.tag)))
  }

  function BuildCase(branch: string, name: string, o: Options): Result<Command, ParseError> {
    if o.when.Some? && o.model then Err(ConflictingOptions("case", "--when", "--model"))
    else if o.when.Some? then Ok(AddCase(branch, BranchCase(name, Expression(o.when.value))))
    else if o.model then Ok(AddCase(branch, BranchCase(name, ModelDecision)))
    else Err(MissingOption("case", "--when or --model"))
  }

  function ParseCase(codec: Codec, tokens: seq<string>): Result<Command, ParseError> {
    var branch :- Positional("case", "a branch node id", tokens, 0);
    var name :- Positional("case", "a case name", tokens, 1);
    var o :- ReadOptions(codec, CaseForm, tokens[2..], NO_OPTIONS);
    BuildCase(branch, name, o)
  }

  function ParseRemoveNode(tokens: seq<string>): Result<Command, ParseError> {
    var id :- Positional("rm node", NODE_ID, tokens, 0);
    var _ :- NothingMore("rm node", tokens[1..]);
    Ok(Remove(NodeTarget(id)))
  }

  function ParseRemoveEdge(codec: Codec, tokens: seq<string>): Result<Command, ParseError> {
    var source :- Positional("rm edge", SOURCE_ID, tokens, 0);
    var target :- Positional("rm edge", TARGET_ID, tokens, 1);
    var o :- ReadOptions(codec, RemoveEdge, tokens[2..], NO_OPTIONS);
    Ok(Remove(EdgeTarget(source, target, o.tag)))
  }

  function ParseRemoveCase(tokens: seq<string>): Result<Command, ParseError> {
    var branch :- Positional("rm case", "a branch node id", tokens, 0);
    var name :- Positional("rm case", "a case name", tokens, 1);
    var _ :- NothingMore("rm case", tokens[2..]);
    Ok(Remove(CaseTarget(branch, name)))
  }

  function ParseRemove(codec: Codec, tokens: seq<string>): Result<Command, ParseError> {
    var what :- Positional("rm", "node, edge, or case", tokens, 0);
    var rest := tokens[1..];
    if what == "node" then ParseRemoveNode(rest)
    else if what == "edge" then ParseRemoveEdge(codec, rest)
    else if what == "case" then ParseRemoveCase(rest)
    else Err(UnexpectedArgument("rm", what))
  }

  /** At most one argument, which is what `show`, `write` and `help` take. */
  function Optional(command: string, tokens: seq<string>): Result<Option<string>, ParseError> {
    if tokens == [] then Ok(None)
    else
      var _ :- NothingMore(command, tokens[1..]);
      Ok(Some(tokens[0]))
  }

  function ParseShow(tokens: seq<string>): Result<Command, ParseError> {
    var node :- Optional("show", tokens);
    Ok(Show(node))
  }

  function ParseRead(tokens: seq<string>): Result<Line, ParseError> {
    var first :- Positional("read", "a path, or --json with a document", tokens, 0);
    if first == "--json" then
      if |tokens| == 1 then Err(MissingOptionValue("read", "--json")) else
      var _ :- NothingMore("read", tokens[2..]);
      Ok(CommandLine(ReadDocument(tokens[1])))
    else if StartsWith(first, "--") then Err(Stray("read", first))
    else
      var _ :- NothingMore("read", tokens[1..]);
      Ok(Host(ReadFile(first)))
  }

  function ParseWrite(tokens: seq<string>): Result<Line, ParseError> {
    var path :- Optional("write", tokens);
    match path
    case None => Ok(CommandLine(Write))
    case Some(p) => if StartsWith(p, "--") then Err(Stray("write", p)) else Ok(Host(WriteFile(p)))
  }

  function ParseHelp(tokens: seq<string>): Result<Command, ParseError> {
    var topic :- Optional("help", tokens);
    Ok(Help(topic))
  }

  function ParseBare(command: string, tokens: seq<string>, value: Command): Result<Command, ParseError> {
    var _ :- NothingMore(command, tokens);
    Ok(value)
  }

  function ParseTokens(codec: Codec, tokens: seq<string>): Result<Line, ParseError>
    requires tokens != []
  {
    var head, rest := tokens[0], tokens[1..];
    if head == "add" then ParseAdd(codec, rest)
    else if head == "edge" then AsLine(ParseEdge(codec, rest))
    else if head == "case" then AsLine(ParseCase(codec, rest))
    else if head == "rm" then AsLine(ParseRemove(codec, rest))
    else if head == "show" then AsLine(ParseShow(rest))
    else if head == "validate" then AsLine(ParseBare("validate", rest, Validate))
    else if head == "read" then ParseRead(rest)
    else if head == "write" then ParseWrite(rest)
    else if head == "undo" then AsLine(ParseBare("undo", rest, Undo))
    else if head == "history" then AsLine(ParseBare("history", rest, History))
    else if head == "help" then AsLine(ParseHelp(rest))
    else if head == "exit" then AsLine(ParseBare("exit", rest, Quit))
    else if head == "quit" then AsLine(ParseBare("quit", rest, Quit))
    else Err(UnknownCommand(head))
  }

  function TrimStart(s: string): string {
    if s != "" && IsWhitespace(s[0]) then TrimStart(s[1..]) else s
  }

  predicate BlankOrComment(line: string) {
    var trimmed := TrimStart(line);
    trimmed == "" || trimmed[0] == '#'
  }

  /** One line of input: nothing, something to apply, or something for the host. */
  function Parse(codec: Codec, line: string): Result<Option<Line>, ParseError> {
    if BlankOrComment(line) then Ok(None)
    else
      var tokens :- Strict(line);
      if tokens == [] then Ok(None)
      else
        var parsed :- ParseTokens(codec, tokens);
        Ok(Some(parsed))
  }
}
