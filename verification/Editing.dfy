/** What a command does to a document: the fold that derives it, and the check
    that refuses a command or says what applying it will change. */
module Editing {
  import opened Commands
  import opened Graph
  import opened Sequences
  import opened Text

  // --- the document ---------------------------------------------------------

  /** The position of the first node with this id, or the length. */
  function FindNode(nodes: seq<Node>, id: string): (i: nat)
    ensures i <= |nodes|
    ensures i < |nodes| ==> nodes[i].id == id
    ensures forall k :: 0 <= k < i ==> nodes[k].id != id
  {
    if nodes == [] || nodes[0].id == id then 0 else 1 + FindNode(nodes[1..], id)
  }

  predicate HasNode(graph: Document, id: string) {
    FindNode(graph.nodes, id) < |graph.nodes|
  }

  /** An edge that names this node. */
  predicate Incident(e: Edge, id: string) {
    e.source == id || e.target == id
  }

  /** Whether an edge matches a removal: with no label, whatever its label. */
  predicate EdgeMatches(e: Edge, source: string, target: string, tag: Option<string>) {
    e.source == source && e.target == target && (tag.Some? ==> e.tag == tag)
  }

  function Touching(id: string): Edge -> bool {
    (e: Edge) => Incident(e, id)
  }

  function Elsewhere(id: string): Edge -> bool {
    (e: Edge) => !Incident(e, id)
  }

  function ThatNode(id: string): Node -> bool {
    (n: Node) => n.id == id
  }

  function OtherNode(id: string): Node -> bool {
    (n: Node) => n.id != id
  }

  function Matched(source: string, target: string, tag: Option<string>): Edge -> bool {
    (e: Edge) => EdgeMatches(e, source, target, tag)
  }

  function Unmatched(source: string, target: string, tag: Option<string>): Edge -> bool {
    (e: Edge) => !EdgeMatches(e, source, target, tag)
  }

  function ThatCase(name: string): BranchCase -> bool {
    (c: BranchCase) => c.name == name
  }

  function OtherCase(name: string): BranchCase -> bool {
    (c: BranchCase) => c.name != name
  }

  function WithoutCase(cases: seq<BranchCase>, name: string): seq<BranchCase> {
    Retain(cases, OtherCase(name))
  }

  /** The nodes with the first one of this id changed, if it is a branch. */
  function ChangeCases(nodes: seq<Node>, id: string, change: seq<BranchCase> -> seq<BranchCase>): (r: seq<Node>)
    ensures |r| == |nodes|
    ensures forall i :: 0 <= i < |nodes| ==> r[i].id == nodes[i].id
  {
    var i := FindNode(nodes, id);
    if i < |nodes| && nodes[i].BranchNode? then nodes[i := nodes[i].(cases := change(nodes[i].cases))] else nodes
  }

  /** What one recorded command does to the document. */
  function Step(codec: Codec, graph: Document, c: Command): Document {
    match c
    case Add(node) => graph.(nodes := graph.nodes + [node])
    case Connect(edge) => graph.(edges := graph.edges + [edge])
    case AddCase(branch, branchCase) =>
      graph.(nodes := ChangeCases(graph.nodes, branch, cases => cases + [branchCase]))
    case Remove(NodeTarget(id)) =>
      graph.(nodes := Retain(graph.nodes, OtherNode(id)),
             edges := Retain(graph.edges, Elsewhere(id)))
    case Remove(EdgeTarget(source, target, tag)) =>
      graph.(edges := Retain(graph.edges, Unmatched(source, target, tag)))
    case Remove(CaseTarget(branch, name)) =>
      graph.(nodes := ChangeCases(graph.nodes, branch, cases => WithoutCase(cases, name)))
    case ReadDocument(json) =>
      (match codec.parse(json)
       case Some(read) => read
       case None => graph)
    case _ => graph
  }

  /** The document a command list derives, from empty. */
  function Derive(codec: Codec, history: seq<Command>): Document {
    if history == [] then EMPTY_DOCUMENT
    else Step(codec, Derive(codec, history[..|history| - 1]), history[|history| - 1])
  }

  lemma DeriveNext(codec: Codec, history: seq<Command>, c: Command)
    ensures Derive(codec, history + [c]) == Step(codec, Derive(codec, history), c)
  {
    assert (history + [c])[..|history|] == history;
  }

  /** Derives the document from a command list, changing nodes and edges in turn. */
  method DeriveDocument(codec: Codec, history: seq<Command>) returns (graph: Document)
    ensures graph == Derive(codec, history)
  {
    var nodes: seq<Node>, edges: seq<Edge>, schemaVersion := [], [], SCHEMA_VERSION;
    for i := 0 to |history|
      invariant Document(schemaVersion, nodes, edges) == Derive(codec, history[..i])
    {
      DeriveNext(codec, history[..i], history[i]);
      assert history[..i + 1] == history[..i] + [history[i]];
      match history[i]
      case Add(node) =>
        nodes := nodes + [node];
      case Connect(edge) =>
        edges := edges + [edge];
      case AddCase(branch, branchCase) =>
        var at := FindNode(nodes, branch);
        if at < |nodes| && nodes[at].BranchNode? {
          nodes := nodes[at := nodes[at].(cases := nodes[at].cases + [branchCase])];
        }
      case Remove(NodeTarget(id)) =>
        nodes := Retain(nodes, OtherNode(id));
        edges := Retain(edges, Elsewhere(id));
      case Remove(EdgeTarget(source, target, tag)) =>
        edges := Retain(edges, Unmatched(source, target, tag));
      case Remove(CaseTarget(branch, name)) =>
        var at := FindNode(nodes, branch);
        if at < |nodes| && nodes[at].BranchNode? {
          nodes := nodes[at := nodes[at].(cases := WithoutCase(nodes[at].cases, name))];
        }
      case ReadDocument(json) =>
        var read := codec.parse(json);
        if read.Some? {
          schemaVersion, nodes, edges := read.value.schemaVersion, read.value.nodes, read.value.edges;
        }
      case _ =>
    }
    assert history[..|history|] == history;
    return Document(schemaVersion, nodes, edges);
  }

  // --- the check ------------------------------------------------------------

  datatype Refusal =
    | DuplicateNode(id: string) | NoNode(id: string) | NotABranch(id: string)
    | DuplicateCase(branch: string, name: string) | NoCase(branch: string, name: string)
    | NoEdge(source: string, target: string) | NotADocument | NothingToUndo | NoTopic(topic: string)

  /** The counts and names that an outcome's message reports. */
  datatype Report =
    | AddedNode(id: string)
    | AddedEdge(missing: seq<string>)
    | AddedCase
    | RemovedNode(incident: nat)
    | RemovedEdges(matched: nat)
    | RemovedCase
    | ReadIn(nodes: nat, edges: nat)
    | Serialized(nodes: nat, edges: nat)
    | Script(text: string)
    | Undid(dropped: Command, remaining: nat)
    | Shown
    | Explained
    | Validated
    | Goodbye
    | Refused(why: Refusal)

  /** The branch node with this id, or why there is none. */
  function FindBranch(graph: Document, id: string): (r: Result<Node, Refusal>)
    ensures r.Ok? ==> r.value.BranchNode?
  {
    var i := FindNode(graph.nodes, id);
    if i == |graph.nodes| then Err(NoNode(id))
    else if graph.nodes[i].BranchNode? then Ok(graph.nodes[i])
    else Err(NotABranch(id))
  }

  predicate HasCase(cases: seq<BranchCase>, name: string) {
    exists i :: 0 <= i < |cases| && cases[i].name == name
  }

  function Missing(graph: Document, ids: seq<string>): seq<string> {
    Retain(ids, (id: string) => !HasNode(graph, id))
  }

  /** Refuses an inapplicable document-changing command, or says what applying
      it will change. */
  function Check(codec: Codec, graph: Document, c: Command): Result<Report, Refusal>
    requires Changes(c)
  {
    match c
    case Add(node) =>
      if HasNode(graph, node.id) then Err(DuplicateNode(node.id)) else Ok(AddedNode(node.id))
    case Connect(edge) => Ok(AddedEdge(Missing(graph, [edge.source, edge.target])))
    case AddCase(branch, branchCase) =>
      var node :- FindBranch(graph, branch);
      if HasCase(node.cases, branchCase.name) then Err(DuplicateCase(branch, branchCase.name)) else Ok(AddedCase)
    case Remove(target) => CheckRemove(graph, target)
    case ReadDocument(json) =>
      match codec.parse(json)
      case Some(read) => Ok(ReadIn(|read.nodes|, |read.edges|))
      case None => Err(NotADocument)
  }

  function CheckRemove(graph: Document, target: Target): Result<Report, Refusal> {
    match target
    case NodeTarget(id) =>
      if !HasNode(graph, id) then Err(NoNode(id))
      else Ok(RemovedNode(Count(graph.edges, Touching(id))))
    case EdgeTarget(source, target, tag) =>
      var matched := Count(graph.edges, Matched(source, target, tag));
      if matched == 0 then Err(NoEdge(source, target)) else Ok(RemovedEdges(matched))
    case CaseTarget(branch, name) =>
      var node :- FindBranch(graph, branch);
      if HasCase(node.cases, name) then Ok(RemovedCase) else Err(NoCase(branch, name))
  }

  // --- what the check reports is what the fold does -------------------------

  /** Keeping the other nodes loses those of this id, and some node if there is one. */
  lemma NodesTaken(graph: Document, id: string)
    ensures var kept := Retain(graph.nodes, OtherNode(id));
            && Loses(graph.nodes, kept, ThatNode(id))
            && (HasNode(graph, id) ==> |kept| < |graph.nodes|)
    ensures HasNode(graph, id) <==> exists n :: n in graph.nodes && n.id == id
  {
    RetainLoses(graph.nodes, OtherNode(id), ThatNode(id));
    CountPositive(graph.nodes, ThatNode(id));
    var i := FindNode(graph.nodes, id);
    if i < |graph.nodes| {
      assert graph.nodes[i] in graph.nodes && ThatNode(id)(graph.nodes[i]);
    }
  }

  lemma EdgesTaken(edges: seq<Edge>, id: string)
    ensures Loses(edges, Retain(edges, Elsewhere(id)), Touching(id))
    ensures Count(edges, Touching(id)) == |edges| - |Retain(edges, Elsewhere(id))|
  {
    RetainLoses(edges, Elsewhere(id), Touching(id));
  }

  lemma NodeRemoved(codec: Codec, graph: Document, id: string)
    ensures var after := Step(codec, graph, Remove(NodeTarget(id)));
            after.nodes == Retain(graph.nodes, OtherNode(id)) && after.edges == Retain(graph.edges, Elsewhere(id))
  {
  }

  /** Removing a node takes exactly the reported number of edges with it, the
      ones that name the node; it is refused when there is no such node. */
  lemma RemoveNodeExactly(codec: Codec, graph: Document, id: string)
    ensures var r, after := CheckRemove(graph, NodeTarget(id)), Step(codec, graph, Remove(NodeTarget(id)));
            && (r.Ok? <==> exists n :: n in graph.nodes && n.id == id)
            && (r.Ok? ==> r.value == RemovedNode(|graph.edges| - |after.edges|) && |after.nodes| < |graph.nodes|)
            && Loses(graph.nodes, after.nodes, ThatNode(id))
            && Loses(graph.edges, after.edges, Touching(id))
  {
    NodeRemoved(codec, graph, id);
    NodesTaken(graph, id);
    EdgesTaken(graph.edges, id);
  }

  /** Removing edges takes exactly the reported number, all of them matching; it
      is refused when there are none. */
  lemma RemoveEdgesExactly(codec: Codec, graph: Document, source: string, target: string, tag: Option<string>)
    ensures var r, after := CheckRemove(graph, EdgeTarget(source, target, tag)),
                            Step(codec, graph, Remove(EdgeTarget(source, target, tag)));
            && (r.Ok? <==> exists e :: e in graph.edges && Matched(source, target, tag)(e))
            && (r.Ok? ==> r.value == RemovedEdges(|graph.edges| - |after.edges|))
            && after.nodes == graph.nodes
            && Loses(graph.edges, after.edges, Matched(source, target, tag))
  {
    RetainLoses(graph.edges, Unmatched(source, target, tag), Matched(source, target, tag));
    CountPositive(graph.edges, Matched(source, target, tag));
  }

  /** An accepted case lands last on the named branch, and nothing else moves. */
  lemma AddCaseExactly(codec: Codec, graph: Document, branch: string, branchCase: BranchCase)
    requires Check(codec, graph, AddCase(branch, branchCase)).Ok?
    ensures var after, i := Step(codec, graph, AddCase(branch, branchCase)), FindNode(graph.nodes, branch);
            && after.edges == graph.edges && |after.nodes| == |graph.nodes|
            && i < |graph.nodes| && graph.nodes[i].BranchNode? && after.nodes[i].BranchNode?
            && !HasCase(graph.nodes[i].cases, branchCase.name)
            && after.nodes[i].cases == graph.nodes[i].cases + [branchCase]
            && after.nodes == graph.nodes[i := after.nodes[i]]
  {
  }

  /** Removing a case takes exactly the cases of that name off the named branch. */
  lemma RemoveCaseExactly(codec: Codec, graph: Document, branch: string, name: string)
    requires CheckRemove(graph, CaseTarget(branch, name)).Ok?
    ensures var after, i := Step(codec, graph, Remove(CaseTarget(branch, name))), FindNode(graph.nodes, branch);
            && after.edges == graph.edges && |after.nodes| == |graph.nodes|
            && i < |graph.nodes| && graph.nodes[i].BranchNode? && after.nodes[i].BranchNode?
            && |after.nodes[i].cases| < |graph.nodes[i].cases|
            && Loses(graph.nodes[i].cases, after.nodes[i].cases, ThatCase(name))
            && after.nodes == graph.nodes[i := after.nodes[i]]
  {
    var cases := graph.nodes[FindNode(graph.nodes, branch)].cases;
    RetainLoses(cases, OtherCase(name), ThatCase(name));
    CountPositive(cases, ThatCase(name));
    var k :| 0 <= k < |cases| && cases[k].name == name;
    assert cases[k] in cases && ThatCase(name)(cases[k]);
  }

  // --- unique names ---------------------------------------------------------

  predicate UniqueIds(nodes: seq<Node>) {
    forall i, k :: 0 <= i < k < |nodes| ==> nodes[i].id != nodes[k].id
  }

  predicate UniqueCases(cases: seq<BranchCase>) {
    forall i, k :: 0 <= i < k < |cases| ==> cases[i].name != cases[k].name
  }

  predicate UniqueNames(graph: Document) {
    && UniqueIds(graph.nodes)
    && forall n :: n in graph.nodes && n.BranchNode? ==> UniqueCases(n.cases)
  }

  /** What a command brings in has unique names itself. */
  predicate BringsUnique(codec: Codec, c: Command) {
    && (c.Add? && c.node.BranchNode? ==> UniqueCases(c.node.cases))
    && (c.ReadDocument? ==>
          match codec.parse(c.json) case Some(read) => UniqueNames(read) case None => true)
  }

  lemma {:induction false} RetainKeepsUniqueIds(nodes: seq<Node>, keep: Node -> bool)
    requires UniqueIds(nodes)
    ensures UniqueIds(Retain(nodes, keep))
  {
    if nodes != [] {
      RetainKeepsUniqueIds(nodes[1..], keep);
      var rest := Retain(nodes[1..], keep);
      forall i | 0 <= i < |rest|
        ensures rest[i].id != nodes[0].id
      {
        assert rest[i] in rest;
        var k :| 0 <= k < |nodes[1..]| && nodes[1..][k] == rest[i];
        assert nodes[k + 1] == rest[i];
      }
    }
  }

  lemma {:induction false} RetainKeepsUniqueCases(cases: seq<BranchCase>, keep: BranchCase -> bool)
    requires UniqueCases(cases)
    ensures UniqueCases(Retain(cases, keep))
  {
    if cases != [] {
      RetainKeepsUniqueCases(cases[1..], keep);
      var rest := Retain(cases[1..], keep);
      forall i | 0 <= i < |rest|
        ensures rest[i].name != cases[0].name
      {
        assert rest[i] in rest;
        var k :| 0 <= k < |cases[1..]| && cases[1..][k] == rest[i];
        assert cases[k + 1] == rest[i];
      }
    }
  }

  lemma ChangeCasesKeepsUnique(graph: Document, id: string, change: seq<BranchCase> -> seq<BranchCase>)
    requires UniqueNames(graph)
    requires var i := FindNode(graph.nodes, id);
             i < |graph.nodes| && graph.nodes[i].BranchNode? ==> UniqueCases(change(graph.nodes[i].cases))
    ensures UniqueNames(graph.(nodes := ChangeCases(graph.nodes, id, change)))
  {
    var i, after := FindNode(graph.nodes, id), ChangeCases(graph.nodes, id, change);
    forall n | n in after && n.BranchNode?
      ensures UniqueCases(n.cases)
    {
      var k :| 0 <= k < |after| && after[k] == n;
      if k != i || after == graph.nodes {
        assert n == graph.nodes[k];
      }
    }
  }

  /** An accepted command keeps node ids, and case names within a branch, unique. */
  lemma StepKeepsUnique(codec: Codec, graph: Document, c: Command)
    requires Changes(c) && Check(codec, graph, c).Ok?
    requires UniqueNames(graph) && BringsUnique(codec, c)
    ensures UniqueNames(Step(codec, graph, c))
  {
    match c
    case Add(node) =>
      forall i | 0 <= i < |graph.nodes|
        ensures graph.nodes[i].id != node.id
      {
      }
    case AddCase(branch, branchCase) =>
      ChangeCasesKeepsUnique(graph, branch, cases => cases + [branchCase]);
    case Remove(NodeTarget(id)) =>
      RetainKeepsUniqueIds(graph.nodes, OtherNode(id));
    case Remove(CaseTarget(branch, name)) =>
      var i := FindNode(graph.nodes, branch);
      RetainKeepsUniqueCases(graph.nodes[i].cases, OtherCase(name));
      ChangeCasesKeepsUnique(graph, branch, cases => WithoutCase(cases, name));
    case _ =>
  }
}
