/** The parser as it runs: a cursor over a command's tokens, one loop that reads
    options, and a method per command, each proved against the grammar. */
module Scanning {
  import opened Commands
  import opened Errors
  import opened Graph
  import opened Parser
  import opened Text
  import opened Tokenizer

  /** Walks a command's tokens, turning every way of running out of them into an
      error that names the command. */
  class Scan {
    const command: string
    const tokens: seq<string>
    var at: nat

    ghost predicate Valid()
      reads this
    {
      at <= |tokens|
    }

    /** The tokens not taken yet. */
    function Rest(): seq<string>
      requires Valid()
      reads this
    {
      tokens[at..]
    }

    constructor (command: string, tokens: seq<string>)
      ensures Valid() && this.command == command && Rest() == tokens
    {
      this.command, this.tokens, at := command, tokens, 0;
    }

    /** The next token, or None at the end. */
    method Take() returns (token: Option<string>)
      requires Valid()
      modifies this
      ensures Valid()
      ensures old(Rest()) == [] ==> token == None && Rest() == []
      ensures old(Rest()) != [] ==> token == Some(old(Rest())[0]) && Rest() == old(Rest())[1..]
    {
      if at == |tokens| {
        return None;
      }
      at := at + 1;
      return Some(tokens[at - 1]);
    }

    /** A required positional argument. */
    method Word(what: string) returns (r: Result<string, ParseError>)
      requires Valid()
      modifies this
      ensures Valid()
      ensures r == Positional(command, what, old(Rest()), 0)
      ensures r.Ok? ==> Rest() == old(Rest())[1..]
    {
      var token := Take();
      match token
      case Some(text) => r := Ok(text);
      case None => r := Err(MissingArgument(command, what));
    }

    /** An option's value. */
    method Value(option: string) returns (r: Result<string, ParseError>)
      requires Valid()
      modifies this
      ensures Valid()
      ensures old(Rest()) == [] ==> r == Err(MissingOptionValue(command, option))
      ensures old(Rest()) != [] ==> r == Ok(old(Rest())[0]) && Rest() == old(Rest())[1..]
    {
      var token := Take();
      match token
      case Some(text) => r := Ok(text);
      case None => r := Err(MissingOptionValue(command, option));
    }

    /** Refuses anything more on the line. */
    method End() returns (r: Result<(), ParseError>)
      requires Valid()
      modifies this
      ensures Valid()
      ensures r == NothingMore(command, old(Rest()))
    {
      var token := Take();
      match token
      case Some(found) => r := Err(Stray(command, found));
      case None => r := Ok(());
    }

    /** Reads options to the end of the line. */
    method Options(codec: Codec, form: Form) returns (r: Result<Options, ParseError>)
      requires Valid() && command == CommandName(form)
      modifies this
      ensures Valid()
      ensures r == ReadOptions(codec, form, old(Rest()), NO_OPTIONS)
    {
      var o := NO_OPTIONS;
      while true
        invariant Valid()
        invariant ReadOptions(codec, form, old(Rest()), NO_OPTIONS) == ReadOptions(codec, form, Rest(), o)
        decreases |tokens| - at
      {
        ghost var before := Rest();
        var token := Take();
        if token.None? {
          return Ok(o);
        }
        match OptionOf(form, token.value)
        case None =>
          return Err(Stray(command, token.value));
        case Some(opt) =>
          if opt.Model? {
            o := o.(model := true);
          } else {
            var raw :- Value(token.value);
            assert before[1..][1..] == before[2..];
            o :- Store(codec, form, opt, raw, o);
          }
      }
    }
  }

  // --- a method per command -------------------------------------------------

  function OneAndOptions(codec: Codec, form: Form, what: string, tokens: seq<string>):
    Result<(string, Options), ParseError>
  {
    var id :- Positional(CommandName(form), what, tokens, 0);
    var o :- ReadOptions(codec, form, tokens[1..], NO_OPTIONS);
    Ok((id, o))
  }

  /** A command that starts with one argument and goes on with options. */
  method OneThenOptions(codec: Codec, form: Form, what: string, tokens: seq<string>)
    returns (r: Result<(string, Options), ParseError>)
    ensures r == OneAndOptions(codec, form, what, tokens)
  {
    var scan := new Scan(CommandName(form), tokens);
    var id :- scan.Word(what);
    var o :- scan.Options(codec, form);
    return Ok((id, o));
  }

  function TwoAndOptions(codec: Codec, form: Form, first: string, second: string, tokens: seq<string>):
    Result<(string, string, Options), ParseError>
  {
    var a :- Positional(CommandName(form), first, tokens, 0);
    var b :- Positional(CommandName(form), second, tokens, 1);
    var o :- ReadOptions(codec, form, tokens[2..], NO_OPTIONS);
    Ok((a, b, o))
  }

  /** A command that starts with two arguments and goes on with options. */
  method TwoThenOptions(codec: Codec, form: Form, first: string, second: string, tokens: seq<string>)
    returns (r: Result<(string, string, Options), ParseError>)
    ensures r == TwoAndOptions(codec, form, first, second, tokens)
  {
    var scan := new Scan(CommandName(form), tokens);
    var a :- scan.Word(first);
    var b :- scan.Word(second);
    assert tokens[1..][1..] == tokens[2..];
    var o :- scan.Options(codec, form);
    return Ok((a, b, o));
  }

  method AddAgentLine(codec: Codec, tokens: seq<string>) returns (r: Result<Line, ParseError>)
    ensures r == ParseAddAgent(codec, tokens)
  {
    var read :- OneThenOptions(codec, AddAgent, NODE_ID, tokens);
    return BuildAgent(read.0, read.1);
  }

  method AddToolLine(codec: Codec, tokens: seq<string>) returns (r: Result<Command, ParseError>)
    ensures r == ParseAddTool(codec, tokens)
  {
    var read :- TwoThenOptions(codec, AddTool, NODE_ID, "a tool name", tokens);
    var o := read.2;
    return Ok(Add(ToolNode(read.0, read.1, o.name, o.input, o.inputSchema, o.outputSchema)));
  }

  method AddGateLine(codec: Codec, tokens: seq<string>) returns (r: Result<Command, ParseError>)
    ensures r == ParseAddGate(codec, tokens)
  {
    var read :- OneThenOptions(codec, AddGate, NODE_ID, tokens);
    var o := read.1;
    if o.approvalSchema.None? {
      return Err(MissingOption("add gate", "--approval-schema"));
    }
    return Ok(Add(GateNode(read.0, o.name, o.prompt, o.approvalSchema.value)));
  }

  method AddBranchLine(codec: Codec, tokens: seq<string>) returns (r: Result<Line, ParseError>)
    ensures r == ParseAddBranch(codec, tokens)
  {
    var read :- OneThenOptions(codec, AddBranch, NODE_ID, tokens);
    return BuildBranch(read.0, read.1);
  }

  method AddMapLine(codec: Codec, tokens: seq<string>) returns (r: Result<Command, ParseError>)
    ensures r == ParseAddMap(codec, tokens)
  {
    var read :- OneThenOptions(codec, AddMap, NODE_ID, tokens);
    var o := read.1;
    if o.over.None? {
      return Err(MissingOption("add map", "--over"));
    }
    if o.concurrency.None? {
      return Err(MissingOption("add map", "--concurrency"));
    }
    if o.body.None? {
      return Err(MissingOption("add map", "--body or --body-subgraph"));
    }
    return Ok(Add(MapNode(read.0, o.name, o.over.value, o.concurrency.value, o.body.value, o.outputSchema)));
  }

  method AddFoldLine(codec: Codec, tokens: seq<string>) returns (r: Result<Command, ParseError>)
    ensures r == ParseAddFold(codec, tokens)
  {
    var read :- OneThenOptions(codec, AddFold, NODE_ID, tokens);
    var o := read.1;
    if o.body.None? {
      return Err(MissingOption("add fold", "--body or --body-subgraph"));
    }
    if o.maxIterations.None? {
      return Err(MissingOption("add fold", "--max-iterations"));
    }
    if o.stopWhen.None? {
      return Err(MissingOption("add fold", "--stop-when"));
    }
    if o.join.None? {
      return Err(MissingOption("add fold", "--join"));
    }
    return Ok(Add(FoldNode(read.0, o.name, o.body.value, o.maxIterations.value, o.stopWhen.value, o.join.value,
                           o.onBound, o.accumulatorSchema)));
  }

  method AddDelayLine(codec: Codec, tokens: seq<string>) returns (r: Result<Command, ParseError>)
    ensures r == ParseAddDelay(codec, tokens)
  {
    var read :- OneThenOptions(codec, AddDelay, NODE_ID, tokens);
    if read.1.seconds.None? {
      return Err(MissingOption("add delay", "--seconds"));
    }
    return Ok(Add(DelayNode(read.0, read.1.name, read.1.seconds.value)));
  }

  method AddLine(codec: Codec, tokens: seq<string>) returns (r: Result<Line, ParseError>)
    ensures r == ParseAdd(codec, tokens)
  {
    var scan := new Scan("add", tokens);
    var kind :- scan.Word("a node kind");
    var rest, command := tokens[1..], Err(UnknownNodeKind(kind));
    if kind == "agent" {
      r := AddAgentLine(codec, rest);
      return;
    } else if kind == "branch" {
      r := AddBranchLine(codec, rest);
      return;
    } else if kind == "tool" {
      command := AddToolLine(codec, rest);
    } else if kind == "gate" {
      command := AddGateLine(codec, rest);
    } else if kind == "map" {
      command := AddMapLine(codec, rest);
    } else if kind == "fold" {
      command := AddFoldLine(codec, rest);
    } else if kind == "delay" {
      command := AddDelayLine(codec, rest);
    }
    return AsLine(command);
  }

  method EdgeLine(codec: Codec, tokens: seq<string>) returns (r: Result<Command, ParseError>)
    ensures r == ParseEdge(codec, tokens)
  {
    var read :- TwoThenOptions(codec, EdgeForm, SOURCE_ID, TARGET_ID, tokens);
    return Ok(Connect(Edge(read.0, read.1, read.2.tag)));
  }

  method CaseLine(codec: Codec, tokens: seq<string>) returns (r: Result<Command, ParseError>)
    ensures r == ParseCase(codec, tokens)
  {
    var read :- TwoThenOptions(codec, CaseForm, "a branch node id", "a case name", tokens);
    return BuildCase(read.0, read.1, read.2);
  }

  method RemoveNodeLine(tokens: seq<string>) returns (r: Result<Command, ParseError>)
    ensures r == ParseRemoveNode(tokens)
  {
    var scan := new Scan("rm node", tokens);
    var id :- scan.Word(NODE_ID);
    var _ :- scan.End();
    return Ok(Remove(NodeTarget(id)));
  }

  method RemoveCaseLine(tokens: seq<string>) returns (r: Result<Command, ParseError>)
    ensures r == ParseRemoveCase(tokens)
  {
    var scan := new Scan("rm case", tokens);
    var branch :- scan.Word("a branch node id");
    var name :- scan.Word("a case name");
    assert tokens[1..][1..] == tokens[2..];
    var _ :- scan.End();
    return Ok(Remove(CaseTarget(branch, name)));
  }

  method RemoveEdgeLine(codec: Codec, tokens: seq<string>) returns (r: Result<Command, ParseError>)
    ensures r == ParseRemoveEdge(codec, tokens)
  {
    var read :- TwoThenOptions(codec, RemoveEdge, SOURCE_ID, TARGET_ID, tokens);
    return Ok(Remove(EdgeTarget(read.0, read.1, read.2.tag)));
  }

  method RemoveLine(codec: Codec, tokens: seq<string>) returns (r: Result<Command, ParseError>)
    ensures r == ParseRemove(codec, tokens)
  {
    var scan := new Scan("rm", tokens);
    var what :- scan.Word("node, edge, or case");
    var rest := tokens[1..];
    if what == "node" {
      r := RemoveNodeLine(rest);
    } else if what == "edge" {
      r := RemoveEdgeLine(codec, rest);
    } else if what == "case" {
      r := RemoveCaseLine(rest);
    } else {
      r := Err(UnexpectedArgument("rm", what));
    }
  }

  /** The one optional argument of `show`, `write` and `help`. */
  method OptionalArgument(command: string, tokens: seq<string>) returns (r: Result<Option<string>, ParseError>)
    ensures r == Optional(command, tokens)
  {
    var scan := new Scan(command, tokens);
    var first := scan.Take();
    var _ :- scan.End();
    return Ok(first);
  }

  method ReadLine(tokens: seq<string>) returns (r: Result<Line, ParseError>)
    ensures r == ParseRead(tokens)
  {
    var scan := new Scan("read", tokens);
    var first :- scan.Word("a path, or --json with a document");
    if first == "--json" {
      var json :- scan.Value("--json");
      assert tokens[1..][1..] == tokens[2..];
      var _ :- scan.End();
      return Ok(CommandLine(ReadDocument(json)));
    }
    if StartsWith(first, "--") {
      return Err(Stray("read", first));
    }
    var _ :- scan.End();
    return Ok(Host(ReadFile(first)));
  }

  method QueryLine(head: string, rest: seq<string>) returns (r: Result<Line, ParseError>)
    requires head in ["show", "validate", "write", "undo", "history", "help", "exit", "quit"]
    ensures forall codec :: r == ParseTokens(codec, [head] + rest)
  {
    assert ([head] + rest)[1..] == rest;
    if head == "show" || head == "write" || head == "help" {
      var argument :- OptionalArgument(head, rest);
      if head == "show" {
        return Ok(CommandLine(Show(argument)));
      } else if head == "help" {
        return Ok(CommandLine(Help(argument)));
      }
      match argument
      case None => return Ok(CommandLine(Write));
      case Some(path) =>
        if StartsWith(path, "--") {
          return Err(Stray("write", path));
        }
        return Ok(Host(WriteFile(path)));
    }
    var scan := new Scan(head, rest);
    var _ :- scan.End();
    return Ok(CommandLine(if head == "validate" then Validate
                          else if head == "undo" then Undo
                          else if head == "history" then History
                          else Quit));
  }

  /** Reads one line of editor input, as the grammar defines it. */
  method ParseLine(codec: Codec, line: string) returns (r: Result<Option<Line>, ParseError>)
    ensures r == Parse(codec, line)
  {
    if BlankOrComment(line) {
      return Ok(None);
    }
    var split :- Tokenize(line);
    if split == [] {
      return Ok(None);
    }
    var head, rest := split[0], split[1..];
    assert [head] + rest == split;
    var parsed: Result<Line, ParseError>;
    if head == "add" {
      parsed := AddLine(codec, rest);
    } else if head == "edge" {
      var command := EdgeLine(codec, rest);
      parsed := AsLine(command);
    } else if head == "case" {
      var command := CaseLine(codec, rest);
      parsed := AsLine(command);
    } else if head == "rm" {
      var command := RemoveLine(codec, rest);
      parsed := AsLine(command);
    } else if head == "read" {
      parsed := ReadLine(rest);
    } else if head in ["show", "validate", "write", "undo", "history", "help", "exit", "quit"] {
      parsed := QueryLine(head, rest);
    } else {
      parsed := Err(UnknownCommand(head));
    }
    return if parsed.Err? then Err(parsed.error) else Ok(Some(parsed.value));
  }
}
