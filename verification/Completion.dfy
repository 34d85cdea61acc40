/** What can go in the place of the word at the end of a half-typed line.

    The grammar's forms are data here, as the help text lists them; which words a
    position allows is read off them and off the document. */
module Completion {
  import opened Editing
  import opened Editor
  import opened Graph
  import opened Sequences
  import opened Text
  import opened Tokenizer

  // --- the forms ------------------------------------------------------------

  /** What a form writes for a value: a placeholder, or a fixed set of words, each
      as far as the form fixes it. */
  datatype Value = Placeholder(text: string) | OneOf(words: seq<string>)

  datatype FormOption = FormOption(name: string, value: Option<Value>, repeats: bool)

  /** One form: the literal word after the command, the positional placeholders,
      and the options in groups of alternatives. */
  datatype FormShape = FormShape(literal: Option<string>, positionals: seq<string>, groups: seq<seq<FormOption>>)

  function Valued(name: string, placeholder: string): FormOption {
    FormOption(name, Some(Placeholder(placeholder)), false)
  }

  function Choice(name: string, words: seq<string>): FormOption {
    FormOption(name, Some(OneOf(words)), false)
  }

  function AgentShape(): FormShape {
    FormShape(Some("agent"), ["<ID>"],
              [[Valued("--hash", "<sha256:HASH>"), Valued("--file", "<PATH>")],
               [Valued("--name", "TEXT")], [Valued("--input-schema", "JSON")], [Valued("--output-schema", "JSON")]])
  }

  function ToolShape(): FormShape {
    FormShape(Some("tool"), ["<ID>", "<TOOL>"],
              [[FormOption("--input", Some(Placeholder("FIELD=SOURCE")), true)],
               [Valued("--name", "TEXT")], [Valued("--input-schema", "JSON")], [Valued("--output-schema", "JSON")]])
  }

  function GateShape(): FormShape {
    FormShape(Some("gate"), ["<ID>"],
              [[Valued("--approval-schema", "JSON")], [Valued("--prompt", "TEXT")], [Valued("--name", "TEXT")]])
  }

  function BranchShape(): FormShape {
    FormShape(Some("branch"), ["<ID>"],
              [[Valued("--on", "REF")], [Valued("--hash", "<sha256:HASH>"), Valued("--file", "<PATH>")],
               [Valued("--name", "TEXT")]])
  }

  function MapShape(): FormShape {
    FormShape(Some("map"), ["<ID>"],
              [[Valued("--over", "REF")], [Valued("--concurrency", "N")],
               [Valued("--body", "ID"), Valued("--body-subgraph", "JSON")],
               [Valued("--output-schema", "JSON")], [Valued("--name", "TEXT")]])
  }

  function FoldShape(): FormShape {
    FormShape(Some("fold"), ["<ID>"],
              [[Valued("--body", "ID"), Valued("--body-subgraph", "JSON")],
               [Valued("--max-iterations", "N")], [Valued("--stop-when", "EXPR")],
               [Choice("--join", ["last", "all", "best-by:"])], [Choice("--on-bound", ["join", "fail"])],
               [Valued("--accumulator-schema", "JSON")], [Valued("--name", "TEXT")]])
  }

  function DelayShape(): FormShape {
    FormShape(Some("delay"), ["<ID>"], [[Valued("--seconds", "N")], [Valued("--name", "TEXT")]])
  }

  function EdgeShape(literal: Option<string>): FormShape {
    FormShape(literal, ["<FROM>", "<TO>"], [[Valued("--label", "NAME")]])
  }

  function WhenShape(): FormShape {
    FormShape(None, ["<BRANCH-ID>", "<CASE-NAME>"], [[Valued("--when", "EXPR")]])
  }

  function ModelShape(): FormShape {
    FormShape(None, ["<BRANCH-ID>", "<CASE-NAME>"], [[FormOption("--model", None, false)]])
  }

  function NodeShape(): FormShape {
    FormShape(Some("node"), ["<ID>"], [])
  }

  function RemoveCaseShape(): FormShape {
    FormShape(Some("case"), ["<BRANCH-ID>", "<CASE-NAME>"], [])
  }

  function WordsShape(positionals: seq<string>): FormShape {
    FormShape(None, positionals, [])
  }

  /** A command's forms, in the order its help lists them. */
  function Shapes(topic: string): seq<FormShape> {
    if topic == "add" then
      [AgentShape(), ToolShape(), GateShape(), BranchShape(), MapShape(), FoldShape(), DelayShape()]
    else if topic == "edge" then [EdgeShape(None)]
    else if topic == "case" then [WhenShape(), ModelShape()]
    else if topic == "rm" then [NodeShape(), EdgeShape(Some("edge")), RemoveCaseShape()]
    else if topic == "show" then [WordsShape([]), WordsShape(["<ID>"])]
    else if topic == "read" then
      [WordsShape(["<PATH>"]), FormShape(None, [], [[Valued("--json", "<JSON>")]])]
    else if topic == "write" then [WordsShape([]), WordsShape(["<PATH>"])]
    else if topic == "help" then [WordsShape([]), WordsShape(["<COMMAND>"])]
    else if topic in TOPICS then [WordsShape([])]
    else []
  }

  // --- reading the forms ----------------------------------------------------

  function Flatten<T>(groups: seq<seq<T>>): seq<T> {
    if groups == [] then [] else groups[0] + Flatten(groups[1..])
  }

  lemma {:induction false} FlattenHolds<T>(groups: seq<seq<T>>, x: T)
    ensures x in Flatten(groups) <==> exists i :: 0 <= i < |groups| && x in groups[i]
  {
    if groups != [] {
      FlattenHolds(groups[1..], x);
      if i :| 0 <= i < |groups| && x in groups[i] {
        if i > 0 {
          assert x in groups[1..][i - 1];
        }
      }
      if i :| 0 <= i < |groups[1..]| && x in groups[1..][i] {
        assert x in groups[i + 1];
      }
    }
  }

  lemma FlattenOne<T>(x: T)
    ensures Flatten([[x]]) == [x]
  {
    assert [[x]][1..] == [];
    assert Flatten([[x]]) == [x] + Flatten([]);
  }

  function EveryOption(shapes: seq<FormShape>): seq<FormOption> {
    if shapes == [] then [] else Flatten(shapes[0].groups) + EveryOption(shapes[1..])
  }

  predicate TakesValue(shapes: seq<FormShape>, name: string) {
    exists o :: o in EveryOption(shapes) && o.name == name && o.value.Some?
  }

  /** The value of the first option with this name. */
  function ValueFor(options: seq<FormOption>, name: string): Option<Value> {
    if options == [] then None
    else if options[0].name == name then options[0].value
    else ValueFor(options[1..], name)
  }

  function PlaceholdersAt(shapes: seq<FormShape>, index: nat): seq<string> {
    if shapes == [] then []
    else (if index < |shapes[0].positionals| then [shapes[0].positionals[index]] else []) +
         PlaceholdersAt(shapes[1..], index)
  }

  function LiteralsOf(shapes: seq<FormShape>): seq<string> {
    if shapes == [] then []
    else (if shapes[0].literal.Some? then [shapes[0].literal.value] else []) + LiteralsOf(shapes[1..])
  }

  function WithLiteral(word: string): FormShape -> bool {
    (s: FormShape) => s.literal == Some(word)
  }

  predicate AllLiteral(shapes: seq<FormShape>) {
    forall s :: s in shapes ==> s.literal.Some?
  }

  // --- options --------------------------------------------------------------

  predicate Allows(shape: FormShape, name: string) {
    name in NamesOf(Flatten(shape.groups))
  }

  predicate AllowsAll(shape: FormShape, given: seq<string>) {
    forall name :: name in given ==> Allows(shape, name)
  }

  /** Some member of the group is on the line and may not be repeated. */
  predicate Spent(group: seq<FormOption>, given: seq<string>) {
    exists o :: o in group && o.name in given && !o.repeats
  }

  function NamesOf(group: seq<FormOption>): seq<string> {
    if group == [] then [] else [group[0].name] + NamesOf(group[1..])
  }

  lemma {:induction false} NamesHold(group: seq<FormOption>, name: string)
    ensures name in NamesOf(group) <==> exists o :: o in group && o.name == name
  {
    if group != [] {
      NamesHold(group[1..], name);
    }
  }

  function Unspent(groups: seq<seq<FormOption>>, given: seq<string>): seq<string> {
    if groups == [] then []
    else (if Spent(groups[0], given) then [] else NamesOf(groups[0])) + Unspent(groups[1..], given)
  }

  function OptionsLeft(shape: FormShape, given: seq<string>): seq<string> {
    if AllowsAll(shape, given) then Unspent(shape.groups, given) else []
  }

  /** The options a command can still be given. */
  function OptionCandidates(shapes: seq<FormShape>, given: seq<string>): seq<string> {
    if shapes == [] then [] else OptionsLeft(shapes[0], given) + OptionCandidates(shapes[1..], given)
  }

  lemma UnspentFrom(groups: seq<seq<FormOption>>, i: nat, given: seq<string>)
    requires i < |groups|
    ensures Unspent(groups[i..], given) ==
            if Spent(groups[i], given) then Unspent(groups[i + 1..], given)
            else NamesOf(groups[i]) + Unspent(groups[i + 1..], given)
  {
    assert groups[i..][1..] == groups[i + 1..];
    assert [] + Unspent(groups[i + 1..], given) == Unspent(groups[i + 1..], given);
  }

  method ListGroups(groups: seq<seq<FormOption>>, given: seq<string>) returns (out: seq<string>)
    ensures out == Unspent(groups, given)
  {
    out := [];
    var i := 0;
    while i < |groups|
      invariant i <= |groups|
      invariant Unspent(groups, given) == out + Unspent(groups[i..], given)
    {
      UnspentFrom(groups, i, given);
      if !Spent(groups[i], given) {
        Assoc(out, NamesOf(groups[i]), Unspent(groups[i + 1..], given));
        out := out + NamesOf(groups[i]);
      }
      i := i + 1;
    }
  }

  lemma OptionsFrom(shapes: seq<FormShape>, i: nat, given: seq<string>)
    requires i < |shapes|
    ensures OptionCandidates(shapes[i..], given) ==
            OptionsLeft(shapes[i], given) + OptionCandidates(shapes[i + 1..], given)
  {
    assert shapes[i..][1..] == shapes[i + 1..];
  }

  method ListOptions(shapes: seq<FormShape>, given: seq<string>) returns (out: seq<string>)
    ensures out == OptionCandidates(shapes, given)
  {
    out := [];
    var i := 0;
    while i < |shapes|
      invariant i <= |shapes|
      invariant OptionCandidates(shapes, given) == out + OptionCandidates(shapes[i..], given)
    {
      OptionsFrom(shapes, i, given);
      var more := ListLeft(shapes[i], given);
      Assoc(out, more, OptionCandidates(shapes[i + 1..], given));
      out := out + more;
      i := i + 1;
    }
  }

  method ListLeft(shape: FormShape, given: seq<string>) returns (out: seq<string>)
    ensures out == OptionsLeft(shape, given)
  {
    if AllowsAll(shape, given) {
      out := ListGroups(shape.groups, given);
    } else {
      out := [];
    }
  }

  // --- what is already on the line ------------------------------------------

  /** The options given, the positionals filled, and the option whose value comes
      next. */
  datatype Walk = Walk(given: seq<string>, positionals: seq<string>, awaiting: Option<string>)

  function WalkStep(shapes: seq<FormShape>, w: Walk, word: string): Walk {
    if w.awaiting.Some? then w.(awaiting := None)
    else if StartsWith(word, "--") then
      Walk(w.given + [word], w.positionals, if TakesValue(shapes, word) then Some(word) else None)
    else w.(positionals := w.positionals + [word])
  }

  function WalkOver(shapes: seq<FormShape>, words: seq<string>, w: Walk): Walk {
    if words == [] then w else WalkOver(shapes, words[1..], WalkStep(shapes, w, words[0]))
  }

  const UNREAD := Walk([], [], None)

  method WalkWords(shapes: seq<FormShape>, words: seq<string>) returns (w: Walk)
    ensures w == WalkOver(shapes, words, UNREAD)
  {
    var given, positionals, awaiting := [], [], None;
    var i := 0;
    while i < |words|
      invariant i <= |words|
      invariant WalkOver(shapes, words, UNREAD) == WalkOver(shapes, words[i..], Walk(given, positionals, awaiting))
    {
      var word := words[i];
      i := i + 1;
      if awaiting.Some? {
        awaiting := None;
        continue;
      }
      if StartsWith(word, "--") {
        given := given + [word];
        if TakesValue(shapes, word) {
          awaiting := Some(word);
        }
        continue;
      }
      positionals := positionals + [word];
    }
    w := Walk(given, positionals, awaiting);
  }

  // --- what a position allows -----------------------------------------------

  datatype Candidates = Words(words: seq<string>) | Path

  /** What the grammar has at a position. */
  datatype Place =
    | FirstWord
    | Unknown
    | Literal(shapes: seq<FormShape>)
    | OptionPlace(shapes: seq<FormShape>, given: seq<string>)
    | ValuePlace(value: Option<Value>, option: string, positionals: seq<string>)
    | PositionalPlace(topic: string, placeholders: seq<string>, positionals: seq<string>)

  function PlaceIn(topic: string, shapes: seq<FormShape>, words: seq<string>, current: string): Place {
    if shapes == [] then Unknown
    else
      var w := WalkOver(shapes, words, UNREAD);
      if w.awaiting.Some? then
        ValuePlace(ValueFor(EveryOption(shapes), w.awaiting.value), w.awaiting.value, w.positionals)
      else if StartsWith(current, "-") then OptionPlace(shapes, w.given)
      else if PlaceholdersAt(shapes, |w.positionals|) != [] then
        PositionalPlace(topic, PlaceholdersAt(shapes, |w.positionals|), w.positionals)
      else OptionPlace(shapes, w.given)
  }

  function PlaceOf(done: seq<string>, current: string): Place {
    if done == [] then FirstWord
    else if done[0] !in TOPICS then Unknown
    else
      var shapes := Shapes(done[0]);
      if !AllLiteral(shapes) then PlaceIn(done[0], shapes, done[1..], current)
      else if |done| == 1 then Literal(shapes)
      else PlaceIn(done[0], Retain(shapes, WithLiteral(done[1])), done[2..], current)
  }

  function NodeIds(nodes: seq<Node>): (ids: seq<string>)
    ensures forall id :: id in ids <==> exists n :: n in nodes && n.id == id
  {
    if nodes == [] then [] else [nodes[0].id] + NodeIds(nodes[1..])
  }

  function BranchIds(nodes: seq<Node>): (ids: seq<string>)
    ensures forall id :: id in ids <==> exists n :: n in nodes && n.BranchNode? && n.id == id
  {
    if nodes == [] then []
    else (if nodes[0].BranchNode? then [nodes[0].id] else []) + BranchIds(nodes[1..])
  }

  function NamesOfCases(cases: seq<BranchCase>): (names: seq<string>)
    ensures forall name :: name in names <==> exists c :: c in cases && c.name == name
  {
    if cases == [] then [] else [cases[0].name] + NamesOfCases(cases[1..])
  }

  function CaseNames(graph: Document, id: string): seq<string> {
    var i := FindNode(graph.nodes, id);
    if i < |graph.nodes| && graph.nodes[i].BranchNode? then NamesOfCases(graph.nodes[i].cases) else []
  }

  function FirstOr<T>(s: seq<T>, other: T): T {
    if s == [] then other else s[0]
  }

  function ValueCandidates(graph: Document, value: Option<Value>, option: string,
                           positionals: seq<string>): Candidates {
    match value
    case None => Words([])
    case Some(OneOf(words)) => Words(words)
    case Some(Placeholder(text)) =>
      if text == "<PATH>" then Path
      else if text == "ID" then Words(NodeIds(graph.nodes))
      else if text == "NAME" && option == "--label" then Words(CaseNames(graph, FirstOr(positionals, "")))
      else Words([])
  }

  /** The words one placeholder allows. */
  function PlaceholderWords(graph: Document, topic: string, placeholder: string,
                            positionals: seq<string>): seq<string> {
    if placeholder == "<ID>" || placeholder == "<FROM>" || placeholder == "<TO>" then NodeIds(graph.nodes)
    else if placeholder == "<BRANCH-ID>" then BranchIds(graph.nodes)
    else if placeholder == "<CASE-NAME>" && topic == "rm" then CaseNames(graph, FirstOr(positionals, ""))
    else if placeholder == "<COMMAND>" then TOPICS
    else []
  }

  function PlaceholdersWords(graph: Document, topic: string, placeholders: seq<string>,
                             positionals: seq<string>): seq<string> {
    if placeholders == [] then []
    else PlaceholderWords(graph, topic, placeholders[0], positionals) +
         PlaceholdersWords(graph, topic, placeholders[1..], positionals)
  }

  function PositionalCandidates(graph: Document, topic: string, placeholders: seq<string>,
                                positionals: seq<string>): Candidates {
    if "<PATH>" in placeholders then Path
    else if topic == "add" then Words([])
    else Words(PlaceholdersWords(graph, topic, placeholders, positionals))
  }

  /** Everything a position allows. */
  function Offered(graph: Document, place: Place): Candidates {
    match place
    case FirstWord => Words(TOPICS)
    case Unknown => Words([])
    case Literal(shapes) => Words(LiteralsOf(shapes))
    case OptionPlace(shapes, given) => Words(OptionCandidates(shapes, given))
    case ValuePlace(value, option, positionals) => ValueCandidates(graph, value, option, positionals)
    case PositionalPlace(topic, placeholders, positionals) =>
      PositionalCandidates(graph, topic, placeholders, positionals)
  }

  predicate InToken(current: string) {
    current != "" && current[0] in "\"{["
  }

  function Beginning(prefix: string): string -> bool {
    (word: string) => StartsWith(word, prefix)
  }

  /** The words without repeats, each where it first stands. */
  function Distinct(words: seq<string>, seen: set<string>): (r: seq<string>)
    ensures forall w :: w in r <==> w in words && w !in seen
    ensures forall i, j :: 0 <= i < j < |r| ==> r[i] != r[j]
  {
    if words == [] then []
    else if words[0] in seen then Distinct(words[1..], seen)
    else [words[0]] + Distinct(words[1..], seen + {words[0]})
  }

  /** What can replace the word at the end of the line. */
  function CandidatesOf(graph: Document, line: string): Candidates {
    var p := PartialOf(line);
    if InToken(p.current) then Words([])
    else match Offered(graph, PlaceOf(p.done, p.current))
      case Path => Path
      case Words(all) => Words(Distinct(Retain(all, Beginning(p.current)), {}))
  }

  /** Which words the position allows, found by walking the line once. */
  method FindPlace(done: seq<string>, current: string) returns (place: Place)
    ensures place == PlaceOf(done, current)
  {
    if done == [] {
      return FirstWord;
    }
    if done[0] !in TOPICS {
      return Unknown;
    }
    var shapes, skip := Shapes(done[0]), 1;
    if AllLiteral(shapes) {
      if |done| == 1 {
        return Literal(shapes);
      }
      shapes, skip := Retain(shapes, WithLiteral(done[1])), 2;
    }
    if shapes == [] {
      return Unknown;
    }
    var w := WalkWords(shapes, done[skip..]);
    if w.awaiting.Some? {
      return ValuePlace(ValueFor(EveryOption(shapes), w.awaiting.value), w.awaiting.value, w.positionals);
    }
    if StartsWith(current, "-") {
      return OptionPlace(shapes, w.given);
    }
    var placeholders := PlaceholdersAt(shapes, |w.positionals|);
    return if placeholders != [] then PositionalPlace(done[0], placeholders, w.positionals)
           else OptionPlace(shapes, w.given);
  }

  lemma DistinctFrom(words: seq<string>, i: nat, seen: set<string>)
    requires i < |words|
    ensures Distinct(words[i..], seen) ==
            if words[i] in seen then Distinct(words[i + 1..], seen)
            else [words[i]] + Distinct(words[i + 1..], seen + {words[i]})
  {
    assert words[i..][1..] == words[i + 1..];
  }

  method KeepDistinct(words: seq<string>) returns (out: seq<string>)
    ensures out == Distinct(words, {})
  {
    out := [];
    var seen: set<string> := {};
    var i := 0;
    while i < |words|
      invariant i <= |words|
      invariant Distinct(words, {}) == out + Distinct(words[i..], seen)
    {
      DistinctFrom(words, i, seen);
      if words[i] !in seen {
        Assoc(out, [words[i]], Distinct(words[i + 1..], seen + {words[i]}));
        out, seen := out + [words[i]], seen + {words[i]};
      }
      i := i + 1;
    }
  }

  method Complete(graph: Document, line: string) returns (c: Candidates)
    ensures c == CandidatesOf(graph, line)
  {
    var p := SplitPartial(line);
    if InToken(p.current) {
      return Words([]);
    }
    var place := FindPlace(p.done, p.current);
    var allowed := Offered(graph, place);
    if place.OptionPlace? {
      var options := ListOptions(place.shapes, place.given);
      allowed := Words(options);
    }
    if allowed.Path? {
      return Path;
    }
    var out := KeepDistinct(Retain(allowed.words, Beginning(p.current)));
    return Words(out);
  }
}
