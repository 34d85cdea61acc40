/** What holds of every command that a line can parse to, or that the host can
    complete one to. */
module Parsed {
  import opened Commands
  import opened Graph
  import opened Json
  import opened Ordered
  import opened Parser
  import opened RoundTrip
  import opened Text
  import opened Tokenizer

  ghost predicate WellFormedOptions(codec: Codec, o: Options) {
    && WellFormedInput(o.input)
    && WellFormedSchema(o.inputSchema)
    && WellFormedSchema(o.outputSchema)
    && WellFormedSchema(o.approvalSchema)
    && WellFormedSchema(o.accumulatorSchema)
    && (o.body.Some? ==> WellFormedBody(codec, o.body.value))
    && (o.join.Some? && o.join.value.BestBy? ==> o.join.value.reference != "")
  }

  lemma MappingName(raw: string)
    ensures Mapping(raw).Ok? ==> '=' !in Mapping(raw).value.name
  {
  }

  lemma PutKeepsInput(input: seq<Entry<string>>, e: Entry<string>)
    requires WellFormedInput(input) && '=' !in e.name
    ensures WellFormedInput(Put(input, e))
  {
    PutKeepsSorted(input, e);
    forall i | 0 <= i < |Put(input, e)|
      ensures '=' !in Put(input, e)[i].name
    {
      assert Put(input, e)[i] in Put(input, e);
    }
  }

  lemma StoreKeeps(codec: Codec, form: Form, opt: Opt, raw: string, o: Options)
    requires WellFormedOptions(codec, o)
    ensures var r := Store(codec, form, opt, raw, o);
            r.Ok? ==> WellFormedOptions(codec, r.value)
  {
    match opt
    case Input =>
      MappingName(raw);
      if Mapping(raw).Ok? {
        PutKeepsInput(o.input, Mapping(raw).value);
      }
    case InputSchema => ReadWellFormed(raw);
    case OutputSchema => ReadWellFormed(raw);
    case ApprovalSchema => ReadWellFormed(raw);
    case AccumulatorSchema => ReadWellFormed(raw);
    case BodySubgraph => assert codec.parse(raw).Some? ==> Decoded(codec, codec.parse(raw).value);
    case _ =>
  }

  lemma {:induction false} ReadOptionsKeeps(codec: Codec, form: Form, tokens: seq<string>, o: Options)
    requires WellFormedOptions(codec, o)
    ensures var r := ReadOptions(codec, form, tokens, o);
            r.Ok? ==> WellFormedOptions(codec, r.value)
    decreases |tokens|
  {
    if tokens != [] {
      match OptionOf(form, tokens[0])
      case None =>
      case Some(opt) =>
        if opt.Model? {
          ReadOptionsKeeps(codec, form, tokens[1..], o.(model := true));
        } else if |tokens| > 1 {
          StoreKeeps(codec, form, opt, tokens[1], o);
          var stored := Store(codec, form, opt, tokens[1], o);
          if stored.Ok? {
            ReadOptionsKeeps(codec, form, tokens[2..], stored.value);
          }
          PairKeeps(codec, form, opt, tokens, o);
        }
    }
  }

  lemma PairKeeps(codec: Codec, form: Form, opt: Opt, tokens: seq<string>, o: Options)
    requires |tokens| > 1 && OptionOf(form, tokens[0]) == Some(opt) && !opt.Model?
    requires var stored := Store(codec, form, opt, tokens[1], o);
             stored.Ok? ==>
               var r := ReadOptions(codec, form, tokens[2..], stored.value);
               r.Ok? ==> WellFormedOptions(codec, r.value)
    ensures var r := ReadOptions(codec, form, tokens, o);
            r.Ok? ==> WellFormedOptions(codec, r.value)
  {
  }

  lemma OptionsWellFormed(codec: Codec, form: Form, tokens: seq<string>)
    ensures var r := ReadOptions(codec, form, tokens, NO_OPTIONS);
            r.Ok? ==> WellFormedOptions(codec, r.value)
  {
    ReadOptionsKeeps(codec, form, tokens, NO_OPTIONS);
  }

  /** A line is a command of this kind: well-formed, or well-formed once the
      host has filled in a hash. */
  ghost predicate WellFormedLine(codec: Codec, parsed: Line) {
    match parsed
    case CommandLine(c) => WellFormedCommand(codec, c)
    case Host(AgentFile(_, draft)) =>
      (draft.AgentNode? || draft.BranchNode?) && forall hash :: WellFormedCommand(codec, WithHash(draft, hash))
    case Host(_) => true
  }

  lemma AddWellFormed(codec: Codec, tokens: seq<string>)
    ensures ParseAdd(codec, tokens).Ok? ==> WellFormedLine(codec, ParseAdd(codec, tokens).value)
  {
    if |tokens| > 1 {
      var rest := tokens[1..];
      if tokens[0] == "agent" {
        OptionsWellFormed(codec, AddAgent, rest[1..]);
      } else if tokens[0] == "tool" {
        ToolWellFormed(codec, rest);
      } else if tokens[0] == "gate" {
        OptionsWellFormed(codec, AddGate, rest[1..]);
      } else if tokens[0] == "map" {
        OptionsWellFormed(codec, AddMap, rest[1..]);
      } else if tokens[0] == "fold" {
        OptionsWellFormed(codec, AddFold, rest[1..]);
      }
    }
  }

  lemma ToolWellFormed(codec: Codec, rest: seq<string>)
    ensures var r := AsLine(ParseAddTool(codec, rest));
            r.Ok? ==> WellFormedLine(codec, r.value)
  {
    if |rest| > 1 {
      OptionsWellFormed(codec, AddTool, rest[2..]);
    }
  }

  /** Every other command adds no node. */
  lemma OthersAddNothing(codec: Codec, tokens: seq<string>)
    requires tokens != [] && tokens[0] != "add"
    ensures var r := ParseTokens(codec, tokens);
            r.Ok? ==> match r.value case CommandLine(c) => !c.Add? case Host(request) => !request.AgentFile?
  {
  }

  lemma TokensWellFormed(codec: Codec, tokens: seq<string>)
    requires tokens != []
    ensures var r := ParseTokens(codec, tokens);
            r.Ok? ==> WellFormedLine(codec, r.value)
  {
    if tokens[0] == "add" {
      AddWellFormed(codec, tokens[1..]);
    } else {
      OthersAddNothing(codec, tokens);
    }
  }

  lemma ParsedWellFormed(codec: Codec, line: string)
    ensures var r := Parse(codec, line);
            r.Ok? && r.value.Some? ==> WellFormedLine(codec, r.value.value)
  {
    if Strict(line).Ok? && Strict(line).value != [] {
      TokensWellFormed(codec, Strict(line).value);
    }
  }
}
