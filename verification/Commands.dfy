/** One editor command, and what a line of input turns out to be. */
module Commands {
  import opened Graph
  import opened Text

  datatype Command =
    | Add(node: Node)
    | Connect(edge: Edge)
    | AddCase(branch: string, branchCase: BranchCase)
    | Remove(target: Target)
    | ReadDocument(json: string)
    | Show(shown: Option<string>)
    | Validate
    | Write
    | Undo
    | History
    | Help(topic: Option<string>)
    | Quit

  datatype Target =
    | NodeTarget(id: string)
    | EdgeTarget(source: string, target: string, tag: Option<string>)
    | CaseTarget(branch: string, name: string)

  /** The commands that shape the document, which are the ones recorded. */
  predicate Changes(c: Command) {
    c.Add? || c.Connect? || c.AddCase? || c.Remove? || c.ReadDocument?
  }

  datatype Line = CommandLine(command: Command) | Host(request: HostRequest)

  datatype HostRequest =
    | AgentFile(path: string, draft: Node)
    | ReadFile(path: string)
    | WriteFile(path: string)

  /** Completes a draft with a resolved hash. */
  function WithHash(draft: Node, hash: string): Command {
    match draft
    case AgentNode(_, _, _, _, _) => Add(draft.(agentHash := hash))
    case BranchNode(_, _, _, _, _) => Add(draft.(branchHash := Some(hash)))
    case _ => Add(draft)
  }
}
