/** A command dumped back to a line. A line is its pieces with one space between
    neighbours, and a piece is literal text, a word, or a JSON value. */
module Printer {
  import opened Commands
  import opened Graph
  import opened Json
  import opened JsonTokens
  import opened Ordered
  import opened Parser
  import opened Text
  import opened Tokenizer

  datatype Piece = Literal(text: string) | WordOf(word: string) | JsonOf(value: Json) {
    /** What is written. */
    function Written(): string {
      match this
      case Literal(text) => text
      case WordOf(word) => Word(word)
      case JsonOf(value) => Print(value)
    }

    /** The token that is meant, and that the scanner should read back. */
    function Reading(): string {
      match this
      case Literal(text) => text
      case WordOf(word) => word
      case JsonOf(value) => JsonToken(value)
    }
  }

  function Written(pieces: seq<Piece>): seq<string> {
    seq(|pieces|, i requires 0 <= i < |pieces| => pieces[i].Written())
  }

  function Readings(pieces: seq<Piece>): seq<string> {
    seq(|pieces|, i requires 0 <= i < |pieces| => pieces[i].Reading())
  }

  // --- options --------------------------------------------------------------

  function Option1(opt: Opt, piece: Piece): seq<Piece> {
    [Literal(OptText(opt)), piece]
  }

  function WordOption(opt: Opt, value: Option<string>): seq<Piece> {
    match value
    case None => []
    case Some(text) => Option1(opt, WordOf(text))
  }

  function JsonOption(opt: Opt, value: Option<Json>): seq<Piece> {
    match value
    case None => []
    case Some(j) => Option1(opt, JsonOf(j))
  }

  function InputOptions(input: seq<Entry<string>>): seq<Piece> {
    if input == [] then []
    else Option1(Input, WordOf(input[0].name + "=" + input[0].value)) + InputOptions(input[1..])
  }

  function BodyOption(codec: Codec, body: Body): seq<Piece> {
    match body
    case NodeBody(id) => Option1(BodyNode, WordOf(id))
    case Subgraph(graph) => Option1(BodySubgraph, JsonOf(codec.encode(graph)))
  }

  /** The reference of a best-by rule is written as it stands, without quoting. */
  function JoinText(join: FoldJoin): string {
    match join
    case BestBy(reference) => BEST_BY + reference
    case Last => "last"
    case All => "all"
  }

  function OnBoundText(bound: OnBound): string {
    match bound
    case JoinResults => "join"
    case FailRun => "fail"
  }

  function OnBoundOption(bound: Option<OnBound>): seq<Piece> {
    match bound
    case None => []
    case Some(b) => Option1(Bound, Literal(OnBoundText(b)))
  }

  // --- commands -------------------------------------------------------------

  function KindName(node: Node): string {
    match node
    case AgentNode(_, _, _, _, _) => "agent"
    case ToolNode(_, _, _, _, _, _) => "tool"
    case GateNode(_, _, _, _) => "gate"
    case BranchNode(_, _, _, _, _) => "branch"
    case MapNode(_, _, _, _, _, _) => "map"
    case FoldNode(_, _, _, _, _, _, _, _) => "fold"
    case DelayNode(_, _, _) => "delay"
  }

  function NodeOptions(codec: Codec, node: Node): seq<Piece> {
    match node
    case AgentNode(_, agentHash, name, inputSchema, outputSchema) =>
      Option1(Hash, WordOf(agentHash)) + (WordOption(Name, name) +
      (JsonOption(InputSchema, inputSchema) + JsonOption(OutputSchema, outputSchema)))
    case ToolNode(_, tool, name, input, inputSchema, outputSchema) =>
      [WordOf(tool)] + (InputOptions(input) + (WordOption(Name, name) +
      (JsonOption(InputSchema, inputSchema) + JsonOption(OutputSchema, outputSchema))))
    case GateNode(_, name, prompt, approvalSchema) =>
      Option1(ApprovalSchema, JsonOf(approvalSchema)) + (WordOption(Prompt, prompt) + WordOption(Name, name))
    case BranchNode(_, name, on, branchHash, _) =>
      WordOption(On, on) + (WordOption(Hash, branchHash) + WordOption(Name, name))
    case MapNode(_, name, over, concurrency, body, outputSchema) =>
      Option1(Over, WordOf(over)) + (Option1(Concurrency, Literal(Decimal(concurrency))) +
      (BodyOption(codec, body) + (WordOption(Name, name) + JsonOption(OutputSchema, outputSchema))))
    case FoldNode(_, name, body, maxIterations, stopWhen, join, onBound, accumulatorSchema) =>
      BodyOption(codec, body) + (Option1(MaxIterations, Literal(Decimal(maxIterations))) +
      (Option1(StopWhen, WordOf(stopWhen)) + (Option1(JoinRule, Literal(JoinText(join))) +
      (OnBoundOption(onBound) + (JsonOption(AccumulatorSchema, accumulatorSchema) + WordOption(Name, name))))))
    case DelayNode(_, name, seconds) =>
      Option1(Seconds, Literal(Decimal(seconds))) + WordOption(Name, name)
  }

  function CommandPieces(codec: Codec, c: Command): seq<Piece> {
    match c
    case Add(node) =>
      [Literal("add"), Literal(KindName(node)), WordOf(node.id)] + NodeOptions(codec, node)
    case Connect(edge) =>
      [Literal("edge"), WordOf(edge.source), WordOf(edge.target)] + WordOption(Tag, edge.tag)
    case AddCase(branch, branchCase) =>
      [Literal("case"), WordOf(branch), WordOf(branchCase.name)] +
      (match branchCase.when
       case Expression(text) => Option1(When, WordOf(text))
       case ModelDecision => [Literal(OptText(Model))])
    case Remove(NodeTarget(id)) => [Literal("rm"), Literal("node"), WordOf(id)]
    case Remove(EdgeTarget(source, target, tag)) =>
      [Literal("rm"), Literal("edge"), WordOf(source), WordOf(target)] + WordOption(Tag, tag)
    case Remove(CaseTarget(branch, name)) =>
      [Literal("rm"), Literal("case"), WordOf(branch), WordOf(name)]
    case ReadDocument(json) =>
      [Literal("read"), Literal("--json"),
       match codec.parse(json)
       case Some(graph) => JsonOf(codec.encode(graph))
       case None => Literal(json)]
    case Show(None) => [Literal("show")]
    case Show(Some(id)) => [Literal("show"), WordOf(id)]
    case Validate => [Literal("validate")]
    case Write => [Literal("write")]
    case Undo => [Literal("undo")]
    case History => [Literal("history")]
    case Help(None) => [Literal("help")]
    case Help(Some(topic)) => [Literal("help"), WordOf(topic)]
    case Quit => [Literal("exit")]
  }

  /** The line that reproduces a command. */
  function ToLine(codec: Codec, c: Command): string {
    Join(Written(CommandPieces(codec, c)))
  }
}
