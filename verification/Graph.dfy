/** The graph document the editor builds, and its JSON form as a parameter. */
module Graph {
  import opened Json
  import opened Ordered
  import opened Text

  type U32 = n: nat | n < 0x1_0000_0000
  type U64 = n: nat | n < 0x1_0000_0000_0000_0000

  datatype Document = Document(schemaVersion: U32, nodes: seq<Node>, edges: seq<Edge>)

  datatype Edge = Edge(source: string, target: string, tag: Option<string>)

  datatype Node =
    | AgentNode(id: string, agentHash: string, name: Option<string>,
                inputSchema: Option<Json>, outputSchema: Option<Json>)
    | ToolNode(id: string, tool: string, name: Option<string>, input: seq<Entry<string>>,
               inputSchema: Option<Json>, outputSchema: Option<Json>)
    | GateNode(id: string, name: Option<string>, prompt: Option<string>, approvalSchema: Json)
    | BranchNode(id: string, name: Option<string>, on: Option<string>, branchHash: Option<string>,
                 cases: seq<BranchCase>)
    | MapNode(id: string, name: Option<string>, over: string, concurrency: U32, body: Body,
              outputSchema: Option<Json>)
    | FoldNode(id: string, name: Option<string>, body: Body, maxIterations: U32, stopWhen: string,
               join: FoldJoin, onBound: Option<OnBound>, accumulatorSchema: Option<Json>)
    | DelayNode(id: string, name: Option<string>, seconds: U64)

  datatype BranchCase = BranchCase(name: string, when: Condition)

  datatype Condition = Expression(text: string) | ModelDecision

  datatype Body = NodeBody(node: string) | Subgraph(graph: Document)

  datatype FoldJoin = BestBy(reference: string) | Last | All

  datatype OnBound = JoinResults | FailRun

  const SCHEMA_VERSION: U32 := 1

  const EMPTY_DOCUMENT := Document(SCHEMA_VERSION, [], [])

  /** What the graph crate supplies: how a document becomes a JSON value, how one
      is read from JSON text, and whether its validator passes a document. That
      crate is not part of this model; it enters as these three functions. */
  datatype Codec = Codec(encode: Document -> Json, parse: string -> Option<Document>, passes: Document -> bool)

  /** A document that some JSON text is read as. */
  ghost predicate Decoded(codec: Codec, graph: Document) {
    exists text :: codec.parse(text) == Some(graph)
  }

  /** Every document that came from JSON is encoded as an object, its members in any
      order and its numbers literals, whose compact text is read as it again. */
  ghost predicate Faithful(codec: Codec) {
    forall graph :: Decoded(codec, graph) ==>
      && codec.encode(graph).Obj?
      && LiteralNumbers(codec.encode(graph))
      && codec.parse(Print(codec.encode(graph))) == Some(graph)
  }
}
