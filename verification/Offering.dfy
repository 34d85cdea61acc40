/** What completion leaves nothing out of: every name that fits a position is
    offered there, and every option a command can still take. */
module Offering {
  import opened Completion
  import opened Editor
  import opened Finishing
  import opened Graph
  import opened Parser
  import opened Sequences
  import opened Text
  import opened Tokenizer

  // --- names ----------------------------------------------------------------

  predicate NoDashes(words: seq<string>) {
    forall w :: w in words ==> !StartsWith(w, "--")
  }

  /** The names that fit a position that one word finishes. */
  function Nameable(graph: Document, done: seq<string>): seq<string>
    requires NeedsOneWord(done)
  {
    if done[0] == "help" then TOPICS
    else if |done| == 3 && done[1] == "case" then CaseNames(graph, done[2])
    else if |done| == 4 then CaseNames(graph, done[1])
    else if |done| == 5 then CaseNames(graph, done[2])
    else NodeIds(graph.nodes)
  }

  /** The words of the line that are names, without its label option. */
  function NamesGiven(done: seq<string>): seq<string> {
    if |done| > 3 then done[..|done| - 1] else done
  }

  lemma {:induction false} PlainWalk(shapes: seq<FormShape>, words: seq<string>, w: Walk)
    requires NoDashes(words) && w.awaiting.None?
    ensures WalkOver(shapes, words, w) == w.(positionals := w.positionals + words)
  {
    if words == [] {
      assert w.positionals + [] == w.positionals;
    } else {
      PlainWalk(shapes, words[1..], WalkStep(shapes, w, words[0]));
      assert w.positionals + [words[0]] + words[1..] == w.positionals + words;
    }
  }

  lemma {:induction false} WalkAppend(shapes: seq<FormShape>, a: seq<string>, last: string, w: Walk)
    ensures WalkOver(shapes, a + [last], w) == WalkStep(shapes, WalkOver(shapes, a, w), last)
  {
    if a == [] {
      assert ([] + [last])[1..] == [];
    } else {
      assert (a + [last])[1..] == a[1..] + [last] && (a + [last])[0] == a[0];
      WalkAppend(shapes, a[1..], last, WalkStep(shapes, w, a[0]));
    }
  }

  lemma OneEdgeOption(literal: Option<string>)
    ensures EveryOption([EdgeShape(literal)]) == [Valued("--label", "NAME")]
    ensures TakesValue([EdgeShape(literal)], "--label")
  {
    var o := Valued("--label", "NAME");
    FlattenOne(o);
    assert o in EveryOption([EdgeShape(literal)]);
  }

  /** Where an edge's line stands after its two endpoints and `--label`. */
  lemma LabelPlace(topic: string, literal: Option<string>, source: string, target: string, current: string)
    requires NoDashes([source, target])
    ensures PlaceIn(topic, [EdgeShape(literal)], [source, target, "--label"], current) ==
            ValuePlace(Some(Placeholder("NAME")), "--label", [source, target])
  {
    var shapes := [EdgeShape(literal)];
    OneEdgeOption(literal);
    PlainWalk(shapes, [source, target], UNREAD);
    WalkAppend(shapes, [source, target], "--label", UNREAD);
    assert [source, target, "--label"] == [source, target] + ["--label"];
  }

  lemma NamePlace(topic: string, shape: FormShape, words: seq<string>, current: string)
    requires NoDashes(words) && |words| < |shape.positionals| && !StartsWith(current, "-")
    ensures PlaceIn(topic, [shape], words, current) == PositionalPlace(topic, [shape.positionals[|words|]], words)
  {
    PlainWalk([shape], words, UNREAD);
    assert PlaceholdersAt([shape], |words|) == [shape.positionals[|words|]];
  }

  lemma TwoFormsPlace(topic: string, placeholder: string, current: string)
    requires !StartsWith(current, "-")
    ensures PlaceIn(topic, [WordsShape([]), WordsShape([placeholder])], [], current) ==
            PositionalPlace(topic, [placeholder], [])
  {
    var shapes := [WordsShape([]), WordsShape([placeholder])];
    assert shapes[1..] == [WordsShape([placeholder])];
    assert [WordsShape([placeholder])][1..] == [];
    assert PlaceholdersAt([WordsShape([placeholder])], 0) == [placeholder] + [];
    assert PlaceholdersAt(shapes, 0) == [placeholder];
  }

  lemma RemoveForms(word: string)
    ensures word == "node" ==> Retain(Shapes("rm"), WithLiteral(word)) == [NodeShape()]
    ensures word == "edge" ==> Retain(Shapes("rm"), WithLiteral(word)) == [EdgeShape(Some("edge"))]
    ensures word == "case" ==> Retain(Shapes("rm"), WithLiteral(word)) == [RemoveCaseShape()]
    ensures AllLiteral(Shapes("rm"))
  {
    var shapes := Shapes("rm");
    assert shapes[1..] == [EdgeShape(Some("edge")), RemoveCaseShape()];
    assert shapes[1..][1..] == [RemoveCaseShape()];
    assert Retain([RemoveCaseShape()], WithLiteral(word)) == if word == "case" then [RemoveCaseShape()] else [];
  }

  lemma TopicsIn()
    ensures "edge" in TOPICS && "rm" in TOPICS && "show" in TOPICS && "help" in TOPICS
  {
    assert TOPICS[1] == "edge" && TOPICS[3] == "rm" && TOPICS[4] == "show" && TOPICS[10] == "help";
  }

  /** The forms that are left for a command's line, and the words after what chose
      them. */
  lemma EdgePlace(done: seq<string>, current: string)
    requires done != [] && done[0] == "edge"
    ensures PlaceOf(done, current) == PlaceIn("edge", [EdgeShape(None)], done[1..], current)
  {
    TopicsIn();
    assert Shapes("edge")[0].literal.None?;
  }

  lemma RemovePlace(done: seq<string>, current: string)
    requires |done| > 1 && done[0] == "rm" && done[1] in ["node", "edge", "case"]
    ensures var shape := if done[1] == "node" then NodeShape() else if done[1] == "edge" then EdgeShape(Some("edge"))
                         else RemoveCaseShape();
            PlaceOf(done, current) == PlaceIn("rm", [shape], done[2..], current)
  {
    TopicsIn();
    RemoveForms(done[1]);
  }

  lemma QueryPlace(done: seq<string>, current: string)
    requires (done == ["show"] || done == ["help"]) && !StartsWith(current, "-")
    ensures PlaceOf(done, current) ==
            PositionalPlace(done[0], [if done == ["show"] then "<ID>" else "<COMMAND>"], [])
  {
    TopicsIn();
    assert done[1..] == [];
    assert Shapes(done[0])[0].literal.None?;
    TwoFormsPlace(done[0], if done == ["show"] then "<ID>" else "<COMMAND>", current);
  }

  lemma OnePlaceholder(graph: Document, topic: string, placeholder: string, positionals: seq<string>)
    requires topic != "add" && placeholder != "<PATH>"
    ensures Offered(graph, PositionalPlace(topic, [placeholder], positionals)) ==
            Words(PlaceholderWords(graph, topic, placeholder, positionals))
  {
    assert [placeholder][1..] == [];
    assert PlaceholdersWords(graph, topic, [placeholder], positionals) ==
           PlaceholderWords(graph, topic, placeholder, positionals) + [];
  }

  lemma NameOffered(graph: Document, topic: string, shape: FormShape, words: seq<string>, current: string)
    requires NoDashes(words) && |words| < |shape.positionals| && !StartsWith(current, "-")
    requires topic != "add" && shape.positionals[|words|] != "<PATH>"
    ensures var place := PlaceIn(topic, [shape], words, current);
            NamesPlace(place) &&
            Offered(graph, place) == Words(PlaceholderWords(graph, topic, shape.positionals[|words|], words))
  {
    NamePlace(topic, shape, words, current);
    OnePlaceholder(graph, topic, shape.positionals[|words|], words);
  }

  lemma EdgeLabelOffered(graph: Document, done: seq<string>, current: string)
    requires NeedsOneWord(done) && NoDashes(NamesGiven(done)) && done[0] == "edge" && |done| == 4
    ensures NamesPlace(PlaceOf(done, current))
    ensures Offered(graph, PlaceOf(done, current)) == Words(Nameable(graph, done))
  {
    EdgePlace(done, current);
    assert NamesGiven(done) == done[..3] && done[1] == done[..3][1] && done[2] == done[..3][2];
    LabelOffered(graph, "edge", None, done[1..], current);
  }

  lemma EdgeOffered(graph: Document, done: seq<string>, current: string)
    requires NeedsOneWord(done) && NoDashes(NamesGiven(done)) && done[0] == "edge" && !StartsWith(current, "-")
    ensures NamesPlace(PlaceOf(done, current))
    ensures Offered(graph, PlaceOf(done, current)) == Words(Nameable(graph, done))
  {
    if |done| == 2 {
      EdgePlace(done, current);
      EndpointOffered(graph, "edge", None, done[1..], current);
    } else {
      EdgeLabelOffered(graph, done, current);
    }
  }

  lemma EndpointOffered(graph: Document, topic: string, literal: Option<string>, words: seq<string>, current: string)
    requires |words| == 1 && NoDashes(words) && !StartsWith(current, "-") && topic != "add"
    ensures var place := PlaceIn(topic, [EdgeShape(literal)], words, current);
            NamesPlace(place) && Offered(graph, place) == Words(NodeIds(graph.nodes))
  {
    NameOffered(graph, topic, EdgeShape(literal), words, current);
  }

  lemma LabelOffered(graph: Document, topic: string, literal: Option<string>, words: seq<string>, current: string)
    requires |words| == 3 && NoDashes([words[0], words[1]]) && words[2] == "--label"
    ensures var place := PlaceIn(topic, [EdgeShape(literal)], words, current);
            NamesPlace(place) && Offered(graph, place) == Words(CaseNames(graph, words[0]))
  {
    LabelPlace(topic, literal, words[0], words[1], current);
    assert words == [words[0], words[1], "--label"];
  }

  lemma RemoveMoreOffered(graph: Document, done: seq<string>, current: string)
    requires NeedsOneWord(done) && NoDashes(NamesGiven(done)) && !StartsWith(current, "-")
    requires |done| == 3 && done[0] == "rm" && (done[1] == "edge" || done[1] == "case")
    ensures NamesPlace(PlaceOf(done, current))
    ensures Offered(graph, PlaceOf(done, current)) == Words(Nameable(graph, done))
  {
    RemovePlace(done, current);
    if done[1] == "edge" {
      EndpointOffered(graph, "rm", Some("edge"), done[2..], current);
    } else {
      RemoveCaseOffered(graph, done, current);
    }
  }

  lemma RemoveCaseOffered(graph: Document, done: seq<string>, current: string)
    requires NeedsOneWord(done) && NoDashes(NamesGiven(done)) && !StartsWith(current, "-")
    requires |done| == 3 && done[0] == "rm" && done[1] == "case"
    ensures NamesPlace(PlaceOf(done, current))
    ensures Offered(graph, PlaceOf(done, current)) == Words(Nameable(graph, done))
  {
    RemovePlace(done, current);
    NameOffered(graph, "rm", RemoveCaseShape(), done[2..], current);
  }

  lemma RemoveOffered(graph: Document, done: seq<string>, current: string)
    requires NeedsOneWord(done) && NoDashes(NamesGiven(done)) && !StartsWith(current, "-")
    requires |done| <= 3 && done[0] == "rm"
    ensures NamesPlace(PlaceOf(done, current))
    ensures Offered(graph, PlaceOf(done, current)) == Words(Nameable(graph, done))
  {
    if |done| == 2 {
      RemovePlace(done, current);
      NameOffered(graph, "rm", NodeShape(), done[2..], current);
    } else {
      assert done[1] == done[..2][1];
      RemoveMoreOffered(graph, done, current);
    }
  }

  lemma RemoveLabelOffered(graph: Document, done: seq<string>, current: string)
    requires NeedsOneWord(done) && NoDashes(NamesGiven(done)) && |done| == 5
    ensures NamesPlace(PlaceOf(done, current))
    ensures Offered(graph, PlaceOf(done, current)) == Words(Nameable(graph, done))
  {
    assert done[0] == done[..2][0] && done[1] == done[..2][1];
    RemovePlace(done, current);
    assert NamesGiven(done) == done[..4] && done[2] == done[..4][2] && done[3] == done[..4][3];
    LabelOffered(graph, "rm", Some("edge"), done[2..], current);
  }

  lemma QueryOffered(graph: Document, done: seq<string>, current: string)
    requires (done == ["show"] || done == ["help"]) && !StartsWith(current, "-")
    ensures NamesPlace(PlaceOf(done, current))
    ensures Offered(graph, PlaceOf(done, current)) == Words(Nameable(graph, done))
  {
    QueryPlace(done, current);
    OnePlaceholder(graph, done[0], if done == ["show"] then "<ID>" else "<COMMAND>", []);
  }

  lemma NamesOffered(graph: Document, done: seq<string>, current: string)
    requires NeedsOneWord(done) && NoDashes(NamesGiven(done)) && !StartsWith(current, "-")
    ensures NamesPlace(PlaceOf(done, current))
    ensures Offered(graph, PlaceOf(done, current)) == Words(Nameable(graph, done))
  {
    if done[0] == "edge" {
      EdgeOffered(graph, done, current);
    } else if |done| == 1 {
      QueryOffered(graph, done, current);
    } else if |done| == 5 {
      RemoveLabelOffered(graph, done, current);
    } else {
      assert |done| > 2 ==> done[0] == done[..2][0];
      RemoveOffered(graph, done, current);
    }
  }

  /** At a position that one word finishes, the candidates are exactly the names
      that fit there and start as the word does, each of them once. */
  lemma CandidatesAreNames(graph: Document, line: string)
    requires var Partial(done, current) := PartialOf(line);
             NeedsOneWord(done) && NoDashes(NamesGiven(done)) && !InToken(current) && !StartsWith(current, "-")
    ensures var Partial(done, current) := PartialOf(line);
            var r := CandidatesOf(graph, line);
            && r.Words?
            && (forall c :: c in r.words <==> c in Nameable(graph, done) && StartsWith(c, current))
            && (forall i, j :: 0 <= i < j < |r.words| ==> r.words[i] != r.words[j])
  {
    NamesOffered(graph, PartialOf(line).done, PartialOf(line).current);
  }

  // --- options --------------------------------------------------------------

  /** Nothing of the group is on the line that may not be repeated. */
  predicate Free(group: seq<FormOption>, given: seq<string>) {
    forall o :: o in group && o.name in given ==> o.repeats
  }

  /** The form allows every option given, and one of its groups that is free has
      this option. */
  ghost predicate Takes(s: FormShape, given: seq<string>, c: string) {
    AllowsAll(s, given) && exists i :: 0 <= i < |s.groups| && c in NamesOf(s.groups[i]) && Free(s.groups[i], given)
  }

  lemma {:induction false} UnspentHolds(groups: seq<seq<FormOption>>, given: seq<string>, c: string)
    ensures c in Unspent(groups, given) <==>
            exists i :: 0 <= i < |groups| && c in NamesOf(groups[i]) && Free(groups[i], given)
  {
    if groups != [] {
      UnspentHolds(groups[1..], given, c);
      if i :| 0 <= i < |groups| && c in NamesOf(groups[i]) && Free(groups[i], given) {
        assert i > 0 ==> groups[i] == groups[1..][i - 1];
      }
      if i :| 0 <= i < |groups[1..]| && c in NamesOf(groups[1..][i]) && Free(groups[1..][i], given) {
        assert groups[i + 1] == groups[1..][i];
      }
    }
  }

  lemma LeftHolds(s: FormShape, given: seq<string>, c: string)
    ensures c in OptionsLeft(s, given) <==> Takes(s, given, c)
  {
    UnspentHolds(s.groups, given, c);
  }

  /** The options offered are exactly those of a free group of some form that
      allows every option given. */
  lemma {:induction false} OptionsOffered(shapes: seq<FormShape>, given: seq<string>, c: string)
    ensures c in OptionCandidates(shapes, given) <==> exists s :: s in shapes && Takes(s, given, c)
  {
    if shapes != [] {
      LeftHolds(shapes[0], given, c);
      OptionsOffered(shapes[1..], given, c);
    }
  }

  /** In every form of these, `a` keeps `b` off the line: the form has no `a`, or
      it has `b` only in a group with an `a` that is not repeatable. */
  ghost predicate Excludes(shapes: seq<FormShape>, a: string, b: string) {
    forall s :: s in shapes && Allows(s, a) ==>
      forall i :: 0 <= i < |s.groups| && b in NamesOf(s.groups[i]) ==> !Free(s.groups[i], [a])
  }

  /** An option that is on the line keeps off what it excludes. */
  lemma ExcludedIsNotOffered(shapes: seq<FormShape>, given: seq<string>, a: string, b: string)
    requires Excludes(shapes, a, b) && a in given
    ensures b !in OptionCandidates(shapes, given)
  {
    OptionsOffered(shapes, given, b);
  }

  /** The forms that completion has in view on a line of this command. */
  function FormsOf(form: Form): seq<FormShape> {
    match form
    case AddAgent => [AgentShape()]
    case AddTool => [ToolShape()]
    case AddGate => [GateShape()]
    case AddBranch => [BranchShape()]
    case AddMap => [MapShape()]
    case AddFold => [FoldShape()]
    case AddDelay => [DelayShape()]
    case EdgeForm => [EdgeShape(None)]
    case CaseForm => [WhenShape(), ModelShape()]
    case RemoveEdge => [EdgeShape(Some("edge"))]
  }

  /** The spellings of options. */
  function Texts(opts: seq<Opt>): seq<string> {
    if opts == [] then [] else [OptText(opts[0])] + Texts(opts[1..])
  }

  lemma {:induction false} TextsBoth(a: seq<Opt>, b: seq<Opt>)
    ensures Texts(a + b) == Texts(a) + Texts(b)
  {
    if a == [] {
      assert a + b == b;
    } else {
      assert (a + b)[1..] == a[1..] + b;
      TextsBoth(a[1..], b);
    }
  }

  lemma {:induction false} SpelledHolds(opts: seq<Opt>, name: string)
    ensures Spelled(opts, name).Some? <==> name in Texts(opts)
  {
    if opts != [] {
      SpelledHolds(opts[1..], name);
    }
  }

  lemma AgentNames(name: string)
    ensures Allows(AgentShape(), name) <==> name in Texts(Allowed(AddAgent))
  {
    assert NamesOf(Flatten(AgentShape().groups)) == Texts(Allowed(AddAgent));
  }

  lemma ToolNames(name: string)
    ensures Allows(ToolShape(), name) <==> name in Texts(Allowed(AddTool))
  {
    assert NamesOf(Flatten(ToolShape().groups)) == ["--input", "--name", "--input-schema", "--output-schema"];
    assert Texts(Allowed(AddTool)) == ["--name", "--input", "--input-schema", "--output-schema"];
  }

  lemma GateNames(name: string)
    ensures Allows(GateShape(), name) <==> name in Texts(Allowed(AddGate))
  {
    assert NamesOf(Flatten(GateShape().groups)) == ["--approval-schema", "--prompt", "--name"];
    assert Texts(Allowed(AddGate)) == ["--name", "--prompt", "--approval-schema"];
  }

  lemma BranchNames(name: string)
    ensures Allows(BranchShape(), name) <==> name in Texts(Allowed(AddBranch))
  {
    assert NamesOf(Flatten(BranchShape().groups)) == ["--on", "--hash", "--file", "--name"];
    assert Texts(Allowed(AddBranch)) == ["--name", "--on", "--hash", "--file"];
  }

  lemma FirstOrLast(first: string, rest: seq<string>, x: string)
    ensures x in rest + [first] <==> x in [first] + rest
  {
  }

  const MAP_OPTIONS := ["--over", "--concurrency", "--body", "--body-subgraph", "--output-schema"]
  const FOLD_OPTIONS :=
    ["--body", "--body-subgraph", "--max-iterations", "--stop-when", "--join", "--on-bound", "--accumulator-schema"]

  lemma MapTable()
    ensures NamesOf(Flatten(MapShape().groups)) == MAP_OPTIONS + ["--name"]
  {
  }

  lemma MapParser()
    ensures Texts(Allowed(AddMap)) == ["--name"] + MAP_OPTIONS
  {
    assert Allowed(AddMap) == [Name] + [Over, Concurrency, BodyNode, BodySubgraph, OutputSchema];
    TextsBoth([Name], [Over, Concurrency, BodyNode, BodySubgraph, OutputSchema]);
    assert Texts([Name]) == ["--name"];
    assert Texts([Over, Concurrency, BodyNode, BodySubgraph, OutputSchema]) == MAP_OPTIONS;
  }

  lemma MapNames(name: string)
    ensures Allows(MapShape(), name) <==> name in Texts(Allowed(AddMap))
  {
    MapTable();
    MapParser();
    FirstOrLast("--name", MAP_OPTIONS, name);
  }

  lemma FoldTable()
    ensures NamesOf(Flatten(FoldShape().groups)) == FOLD_OPTIONS + ["--name"]
  {
  }

  lemma FoldFirstTexts()
    ensures Texts([Name, BodyNode, BodySubgraph, MaxIterations]) ==
            ["--name", "--body", "--body-subgraph", "--max-iterations"]
  {
  }

  lemma FoldLastTexts()
    ensures Texts([StopWhen, JoinRule, Bound, AccumulatorSchema]) ==
            ["--stop-when", "--join", "--on-bound", "--accumulator-schema"]
  {
  }

  lemma FoldAllowed()
    ensures Allowed(AddFold) ==
            [Name, BodyNode, BodySubgraph, MaxIterations] + [StopWhen, JoinRule, Bound, AccumulatorSchema]
  {
  }

  lemma FoldParser()
    ensures Texts(Allowed(AddFold)) ==
            ["--name"] + FOLD_OPTIONS
  {
    FoldAllowed();
    TextsBoth([Name, BodyNode, BodySubgraph, MaxIterations], [StopWhen, JoinRule, Bound, AccumulatorSchema]);
    FoldFirstTexts();
    FoldLastTexts();
  }

  lemma FoldNames(name: string)
    ensures Allows(FoldShape(), name) <==> name in Texts(Allowed(AddFold))
  {
    FoldTable();
    FoldParser();
    FirstOrLast("--name", FOLD_OPTIONS, name);
  }

  lemma DelayNames(name: string)
    ensures Allows(DelayShape(), name) <==> name in Texts(Allowed(AddDelay))
  {
    assert NamesOf(Flatten(DelayShape().groups)) == ["--seconds", "--name"];
    assert Texts(Allowed(AddDelay)) == ["--name", "--seconds"];
  }

  lemma LabelNames(literal: Option<string>, name: string)
    ensures Allows(EdgeShape(literal), name) <==> name == "--label"
    ensures Texts(Allowed(EdgeForm)) == ["--label"] == Texts(Allowed(RemoveEdge))
  {
    FlattenOne(Valued("--label", "NAME"));
    NamesHold([Valued("--label", "NAME")], name);
  }

  lemma CaseNamesAre(name: string)
    ensures Allows(WhenShape(), name) || Allows(ModelShape(), name) <==> name in Texts(Allowed(CaseForm))
  {
    assert NamesOf(Flatten(WhenShape().groups)) == ["--when"] && NamesOf(Flatten(ModelShape().groups)) == ["--model"];
    assert Texts(Allowed(CaseForm)) == ["--when", "--model"];
  }

  predicate SomeAllows(shapes: seq<FormShape>, name: string) {
    exists s :: s in shapes && Allows(s, name)
  }

  lemma OneForm(s: FormShape, name: string)
    ensures SomeAllows([s], name) <==> Allows(s, name)
  {
  }

  lemma TwoForms(s: FormShape, t: FormShape, name: string)
    ensures SomeAllows([s, t], name) <==> Allows(s, name) || Allows(t, name)
  {
    assert [s, t][0] == s && [s, t][1] == t;
  }

  lemma AddNames(form: Form, name: string)
    requires !form.EdgeForm? && !form.CaseForm? && !form.RemoveEdge?
    ensures Allows(FormsOf(form)[0], name) <==> name in Texts(Allowed(form))
  {
    match form
    case AddMap => MapNames(name);
    case AddFold => FoldNames(name);
    case AddDelay => DelayNames(name);
    case _ => StepNames(form, name);
  }

  lemma StepNames(form: Form, name: string)
    requires form.AddAgent? || form.AddTool? || form.AddGate? || form.AddBranch?
    ensures Allows(FormsOf(form)[0], name) <==> name in Texts(Allowed(form))
  {
    match form
    case AddAgent => AgentNames(name);
    case AddTool => ToolNames(name);
    case AddGate => GateNames(name);
    case AddBranch => BranchNames(name);
  }

  lemma AddFormsName(form: Form, name: string)
    requires !form.EdgeForm? && !form.CaseForm? && !form.RemoveEdge?
    ensures SomeAllows(FormsOf(form), name) <==> name in Texts(Allowed(form))
  {
    AddNames(form, name);
    OneForm(FormsOf(form)[0], name);
    assert FormsOf(form) == [FormsOf(form)[0]];
  }

  lemma CaseFormsName(name: string)
    ensures SomeAllows(FormsOf(CaseForm), name) <==> name in Texts(Allowed(CaseForm))
  {
    CaseNamesAre(name);
    TwoForms(WhenShape(), ModelShape(), name);
  }

  lemma EdgeFormsName(form: Form, name: string)
    requires form.EdgeForm? || form.RemoveEdge?
    ensures SomeAllows(FormsOf(form), name) <==> name in Texts(Allowed(form))
  {
    var literal := FormsOf(form)[0].literal;
    LabelNames(literal, name);
    OneForm(EdgeShape(literal), name);
  }

  /** The forms name exactly the options that the parser takes: some form of a
      command allows a name if and only if the parser knows it there. */
  lemma FormsNameTheOptions(form: Form, name: string)
    ensures SomeAllows(FormsOf(form), name) <==> OptionOf(form, name).Some?
  {
    SpelledHolds(Allowed(form), name);
    if form.CaseForm? {
      CaseFormsName(name);
    } else if form.EdgeForm? || form.RemoveEdge? {
      EdgeFormsName(form, name);
    } else {
      AddFormsName(form, name);
    }
  }

  /** The two options of a group, which no other group of the form has, keep each
      other off the line. */
  lemma PairExcluded(s: FormShape, k: nat, a: FormOption, b: FormOption)
    requires k < |s.groups| && s.groups[k] == [a, b] && !a.repeats && !b.repeats
    requires forall i :: 0 <= i < |s.groups| && i != k ==>
               a.name !in NamesOf(s.groups[i]) && b.name !in NamesOf(s.groups[i])
    ensures Excludes([s], a.name, b.name) && Excludes([s], b.name, a.name)
  {
    var pair := [a, b];
    assert pair[0] in pair && pair[1] in pair;
    assert !Free(pair, [a.name]) && !Free(pair, [b.name]);
  }

  lemma FileExcluded(s: FormShape)
    requires s == AgentShape() || s == BranchShape()
    ensures Excludes([s], "--hash", "--file") && Excludes([s], "--file", "--hash")
  {
    var k := if s == AgentShape() then 0 else 1;
    forall i | 0 <= i < |s.groups| && i != k
      ensures "--file" !in NamesOf(s.groups[i]) && "--hash" !in NamesOf(s.groups[i])
    {
      NamesHold(s.groups[i], "--file");
      NamesHold(s.groups[i], "--hash");
    }
    PairExcluded(s, k, Valued("--hash", "<sha256:HASH>"), Valued("--file", "<PATH>"));
  }

  lemma BodyExcluded(s: FormShape)
    requires s == MapShape() || s == FoldShape()
    ensures Excludes([s], "--body", "--body-subgraph") && Excludes([s], "--body-subgraph", "--body")
  {
    var k := if s == MapShape() then 2 else 0;
    forall i | 0 <= i < |s.groups| && i != k
      ensures "--body" !in NamesOf(s.groups[i]) && "--body-subgraph" !in NamesOf(s.groups[i])
    {
      NamesHold(s.groups[i], "--body");
      NamesHold(s.groups[i], "--body-subgraph");
    }
    PairExcluded(s, k, Valued("--body", "ID"), Valued("--body-subgraph", "JSON"));
  }

  lemma ModelExcluded()
    ensures Excludes(FormsOf(CaseForm), "--when", "--model") && Excludes(FormsOf(CaseForm), "--model", "--when")
  {
    WhenHas();
    ModelHas();
  }

  lemma WhenHas()
    ensures !Allows(WhenShape(), "--model")
    ensures forall i :: 0 <= i < |WhenShape().groups| ==> "--model" !in NamesOf(WhenShape().groups[i])
  {
    var w := Valued("--when", "EXPR");
    FlattenOne(w);
    NamesHold([w], "--model");
  }

  lemma ModelHas()
    ensures !Allows(ModelShape(), "--when")
    ensures forall i :: 0 <= i < |ModelShape().groups| ==> "--when" !in NamesOf(ModelShape().groups[i])
  {
    var m := FormOption("--model", None, false);
    FlattenOne(m);
    NamesHold([m], "--when");
  }

  /** Two options of one command of which the help lists one or the other. */
  predicate Alternatives(form: Form, a: string, b: string) {
    match form
    case AddAgent => {a, b} == {"--hash", "--file"}
    case AddBranch => {a, b} == {"--hash", "--file"}
    case AddMap => {a, b} == {"--body", "--body-subgraph"}
    case AddFold => {a, b} == {"--body", "--body-subgraph"}
    case CaseForm => {a, b} == {"--when", "--model"}
    case _ => false
  }

  lemma OneOfTwo(a: string, b: string, x: string, y: string)
    requires {a, b} == {x, y} && x != y
    ensures (a == x && b == y) || (a == y && b == x)
  {
    assert a in {x, y} && b in {x, y} && x in {a, b} && y in {a, b};
  }

  lemma AlternativesExclude(form: Form, a: string, b: string)
    requires Alternatives(form, a, b)
    ensures Excludes(FormsOf(form), a, b)
  {
    match form
    case AddAgent =>
      OneOfTwo(a, b, "--hash", "--file");
      FileExcluded(AgentShape());
    case AddBranch =>
      OneOfTwo(a, b, "--hash", "--file");
      FileExcluded(BranchShape());
    case AddMap =>
      OneOfTwo(a, b, "--body", "--body-subgraph");
      BodyExcluded(MapShape());
    case AddFold =>
      OneOfTwo(a, b, "--body", "--body-subgraph");
      BodyExcluded(FoldShape());
    case CaseForm =>
      OneOfTwo(a, b, "--when", "--model");
      ModelExcluded();
  }

  /** Only a tool's inputs may be given again. */
  lemma OnlyInputRepeats(form: Form, s: FormShape, i: nat, o: FormOption)
    requires s in FormsOf(form) && i < |s.groups| && o in s.groups[i] && o.repeats
    ensures form == AddTool && o.name == "--input"
  {
  }

  lemma TakenAgain(form: Form, s: FormShape, given: seq<string>, c: string)
    requires s in FormsOf(form) && Takes(s, given, c) && c in given
    ensures form == AddTool && c == "--input"
  {
    var i :| 0 <= i < |s.groups| && c in NamesOf(s.groups[i]) && Free(s.groups[i], given);
    NamesHold(s.groups[i], c);
    var o :| o in s.groups[i] && o.name == c;
    OnlyInputRepeats(form, s, i, o);
  }

  /** What is offered beside the options given: none of their alternatives, and none
      of them again but a tool's `--input`. */
  lemma ConflictsAreNotOffered(form: Form, given: seq<string>, c: string)
    requires c in OptionCandidates(FormsOf(form), given)
    ensures forall a :: a in given ==> !Alternatives(form, a, c)
    ensures c in given ==> form == AddTool && c == "--input"
  {
    forall a | a in given
      ensures !Alternatives(form, a, c)
    {
      if Alternatives(form, a, c) {
        AlternativesExclude(form, a, c);
        ExcludedIsNotOffered(FormsOf(form), given, a, c);
      }
    }
    if c in given {
      OptionsOffered(FormsOf(form), given, c);
      var s :| s in FormsOf(form) && Takes(s, given, c);
      TakenAgain(form, s, given, c);
    }
  }
}
