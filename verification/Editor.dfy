/** The editor: a command list, and the document cached beside it. */
module Editor {
  import opened Commands
  import opened Editing
  import opened Graph
  import opened Json
  import opened Printer
  import opened Text

  datatype Status = Applied | Refusing | Invalid | Exit

  datatype Outcome = Outcome(status: Status, report: Report, written: Option<Json>)

  function Shows(report: Report): Outcome {
    Outcome(Applied, report, None)
  }

  function Refuses(why: Refusal): Outcome {
    Outcome(Refusing, Refused(why), None)
  }

  const TOPICS := ["add", "edge", "case", "rm", "show", "validate", "read", "write", "undo", "history", "help",
                   "exit", "quit"]

  /** One printed line per recorded command. */
  function ScriptOf(codec: Codec, history: seq<Command>): string {
    if history == [] then "" else ToLine(codec, history[0]) + "\n" + ScriptOf(codec, history[1..])
  }

  lemma ScriptFirst(codec: Codec, history: seq<Command>)
    requires history != []
    ensures ScriptOf(codec, history) == ToLine(codec, history[0]) + "\n" + ScriptOf(codec, history[1..])
  {
  }

  lemma ScriptAt(codec: Codec, history: seq<Command>, i: nat)
    requires i < |history|
    ensures ScriptOf(codec, history[i..]) == ToLine(codec, history[i]) + "\n" + ScriptOf(codec, history[i + 1..])
  {
    assert history[i..][0] == history[i] && history[i..][1..] == history[i + 1..];
    ScriptFirst(codec, history[i..]);
  }

  lemma Regroup(a: string, b: string, c: string)
    ensures a + (b + "\n" + c) == a + b + "\n" + c
  {
  }

  // --- the editor as a value ------------------------------------------------

  datatype State = State(history: seq<Command>, document: Document)

  const INITIAL := State([], EMPTY_DOCUMENT)

  function FromHistory(codec: Codec, history: seq<Command>): State {
    State(history, Derive(codec, history))
  }

  /** What a query shows; it never changes the editor. */
  function Query(codec: Codec, s: State, c: Command): Outcome
    requires !Changes(c) && !c.Undo?
  {
    match c
    case Show(None) => Shows(Shown)
    case Show(Some(id)) => if HasNode(s.document, id) then Shows(Shown) else Refuses(NoNode(id))
    case Validate => Outcome(if codec.passes(s.document) then Applied else Invalid, Validated, None)
    case Write =>
      Outcome(Applied, Serialized(|s.document.nodes|, |s.document.edges|), Some(codec.encode(s.document)))
    case History => Shows(Script(ScriptOf(codec, s.history)))
    case Help(None) => Shows(Explained)
    case Help(Some(topic)) => if topic in TOPICS then Shows(Explained) else Refuses(NoTopic(topic))
    case Quit => Outcome(Exit, Goodbye, None)
  }

  function Next(codec: Codec, s: State, c: Command): (State, Outcome) {
    if c.Undo? then
      if s.history == [] then (s, Refuses(NothingToUndo))
      else
        var kept, dropped := s.history[..|s.history| - 1], s.history[|s.history| - 1];
        (FromHistory(codec, kept), Shows(Undid(dropped, |kept|)))
    else if !Changes(c) then (s, Query(codec, s, c))
    else
      match Check(codec, s.document, c)
      case Err(why) => (s, Refuses(why))
      case Ok(report) => (FromHistory(codec, s.history + [c]), Shows(report))
  }

  // --- the editor as an object ----------------------------------------------

  class Editor {
    const codec: Codec
    var history: seq<Command>
    var document: Document

    /** The cache is the fold of the history. */
    ghost predicate Valid()
      reads this
    {
      document == Derive(codec, history)
    }

    ghost function Now(): State
      reads this
    {
      State(history, document)
    }

    constructor (codec: Codec)
      ensures Valid() && this.codec == codec && Now() == INITIAL
    {
      this.codec, history, document := codec, [], EMPTY_DOCUMENT;
    }

    constructor FromHistory(codec: Codec, history: seq<Command>)
      ensures Valid() && this.codec == codec && this.history == history
    {
      this.codec, this.history := codec, history;
      var derived := DeriveDocument(codec, history);
      document := derived;
    }

    method Script() returns (script: string)
      requires Valid()
      ensures script == ScriptOf(codec, history)
    {
      script := "";
      for i := 0 to |history|
        invariant ScriptOf(codec, history) == script + ScriptOf(codec, history[i..])
      {
        ScriptAt(codec, history, i);
        var line := ToLine(codec, history[i]);
        Regroup(script, line, ScriptOf(codec, history[i + 1..]));
        script := script + line + "\n";
      }
      assert ScriptOf(codec, history[|history|..]) == "";
    }

    /** Applies one command: records it and derives the document again, drops the
        last one, or leaves both alone. */
    method Apply(c: Command) returns (outcome: Outcome)
      requires Valid()
      modifies this
      ensures Valid()
      ensures (Now(), outcome) == Next(codec, old(Now()), c)
    {
      if c.Undo? {
        if history == [] {
          return Refuses(NothingToUndo);
        }
        var dropped := history[|history| - 1];
        history := history[..|history| - 1];
        document := DeriveDocument(codec, history);
        return Shows(Undid(dropped, |history|));
      }
      if c.History? {
        var script := Script();
        return Shows(Editing.Report.Script(script));
      }
      if !Changes(c) {
        return Query(codec, State(history, document), c);
      }
      var checked := Check(codec, document, c);
      if checked.Err? {
        return Refuses(checked.error);
      }
      history := history + [c];
      document := DeriveDocument(codec, history);
      return Shows(checked.value);
    }
  }

  // --- what every step keeps ------------------------------------------------

  /** Every command of the list changes documents and is accepted in the document
      its prefix derives. */
  ghost predicate Accepted(codec: Codec, history: seq<Command>) {
    forall i :: 0 <= i < |history| ==>
      Changes(history[i]) && Check(codec, Derive(codec, history[..i]), history[i]).Ok?
  }

  /** The document is the fold of the history, and every recorded command was
      accepted where it stands. */
  ghost predicate Consistent(codec: Codec, s: State) {
    s.document == Derive(codec, s.history) && Accepted(codec, s.history)
  }

  lemma AcceptedNext(codec: Codec, history: seq<Command>, c: Command)
    requires Accepted(codec, history)
    requires Changes(c) && Check(codec, Derive(codec, history), c).Ok?
    ensures Accepted(codec, history + [c])
  {
    var longer := history + [c];
    forall i | 0 <= i < |longer|
      ensures Changes(longer[i]) && Check(codec, Derive(codec, longer[..i]), longer[i]).Ok?
    {
      assert longer[..i] == history[..i];
      assert i == |history| ==> history[..i] == history;
    }
  }

  lemma AcceptedPrefix(codec: Codec, history: seq<Command>, n: nat)
    requires Accepted(codec, history) && n <= |history|
    ensures Accepted(codec, history[..n])
  {
    forall i | 0 <= i < n
      ensures Check(codec, Derive(codec, history[..n][..i]), history[..n][i]).Ok?
    {
      assert history[..n][..i] == history[..i];
    }
  }

  lemma RecordedIsConsistent(codec: Codec, history: seq<Command>, c: Command)
    requires Accepted(codec, history) && Changes(c) && Check(codec, Derive(codec, history), c).Ok?
    ensures Consistent(codec, FromHistory(codec, history + [c]))
  {
    AcceptedNext(codec, history, c);
  }

  lemma KeptIsConsistent(codec: Codec, history: seq<Command>, n: nat)
    requires Accepted(codec, history) && n <= |history|
    ensures Consistent(codec, FromHistory(codec, history[..n]))
  {
    AcceptedPrefix(codec, history, n);
  }

  lemma UndoKeepsConsistent(codec: Codec, s: State)
    requires Consistent(codec, s) && s.history != []
    ensures Consistent(codec, Next(codec, s, Undo).0)
  {
    KeptIsConsistent(codec, s.history, |s.history| - 1);
  }

  lemma ChangeKeepsConsistent(codec: Codec, s: State, c: Command)
    requires Consistent(codec, s) && Changes(c) && Check(codec, s.document, c).Ok?
    ensures Consistent(codec, Next(codec, s, c).0)
  {
    RecordedIsConsistent(codec, s.history, c);
  }

  lemma RestKeeps(codec: Codec, s: State, c: Command)
    requires c.Undo? ==> s.history == []
    requires Changes(c) ==> Check(codec, s.document, c).Err?
    ensures Next(codec, s, c).0 == s
  {
  }

  lemma StepKeepsConsistent(codec: Codec, s: State, c: Command)
    requires Consistent(codec, s)
    ensures Consistent(codec, Next(codec, s, c).0)
  {
    if c.Undo? && s.history != [] {
      UndoKeepsConsistent(codec, s);
    } else if Changes(c) && Check(codec, s.document, c).Ok? {
      ChangeKeepsConsistent(codec, s, c);
    } else {
      RestKeeps(codec, s, c);
    }
  }

  /** An accepted change is recorded last and takes effect on the document as it
      stands; a refusal or a query changes nothing. */
  lemma StepEffect(codec: Codec, s: State, c: Command)
    requires Consistent(codec, s)
    ensures var (after, outcome) := Next(codec, s, c);
            && (Changes(c) && outcome.status == Applied ==>
                  after == State(s.history + [c], Step(codec, s.document, c)))
            && (outcome.status != Applied || (!Changes(c) && !c.Undo?) ==> after == s)
            && (Changes(c) ==> (outcome.status == Applied <==> Check(codec, s.document, c).Ok?))
  {
    DeriveNext(codec, s.history, c);
  }

  /** Undo is an exact inverse: after any accepted change it gives back the
      identical editor. */
  lemma UndoInverts(codec: Codec, s: State, c: Command)
    requires Consistent(codec, s)
    requires Changes(c) && Next(codec, s, c).1.status == Applied
    ensures Next(codec, Next(codec, s, c).0, Undo) == (s, Shows(Undid(c, |s.history|)))
  {
    assert (s.history + [c])[..|s.history|] == s.history;
  }

  // --- whole runs -----------------------------------------------------------

  function Run(codec: Codec, s: State, cs: seq<Command>): State
    decreases |cs|
  {
    if cs == [] then s else Run(codec, Next(codec, s, cs[0]).0, cs[1..])
  }

  /** Whether each command of a run was applied. */
  function Statuses(codec: Codec, s: State, cs: seq<Command>): (r: seq<Status>)
    ensures |r| == |cs|
    decreases |cs|
  {
    if cs == [] then []
    else
      var (after, outcome) := Next(codec, s, cs[0]);
      [outcome.status] + Statuses(codec, after, cs[1..])
  }

  /** In every reachable state the cache is the fold, and every recorded command
      is accepted in the state its prefix derives. */
  lemma {:induction false} RunKeepsConsistent(codec: Codec, s: State, cs: seq<Command>)
    requires Consistent(codec, s)
    ensures Consistent(codec, Run(codec, s, cs))
    decreases |cs|
  {
    if cs != [] {
      StepKeepsConsistent(codec, s, cs[0]);
      RunKeepsConsistent(codec, Next(codec, s, cs[0]).0, cs[1..]);
    }
  }

  lemma ReachableIsConsistent(codec: Codec, cs: seq<Command>)
    ensures Consistent(codec, Run(codec, INITIAL, cs))
  {
    RunKeepsConsistent(codec, INITIAL, cs);
  }

  /** The commands that survive a session, worked out without any document: an
      applied change is put on, an applied undo takes the last one off. */
  function Survivors(before: seq<Command>, cs: seq<Command>, statuses: seq<Status>): seq<Command>
    requires |cs| == |statuses|
    decreases |cs|
  {
    if cs == [] then before
    else
      var now :=
        if statuses[0] != Applied then before
        else if Changes(cs[0]) then before + [cs[0]]
        else if cs[0].Undo? && before != [] then before[..|before| - 1]
        else before;
      Survivors(now, cs[1..], statuses[1..])
  }

  /** Any session, undos included, ends as the editor built from its surviving
      commands alone. */
  lemma {:induction false} SessionIsItsSurvivors(codec: Codec, s: State, cs: seq<Command>)
    requires Consistent(codec, s)
    ensures Run(codec, s, cs) == FromHistory(codec, Survivors(s.history, cs, Statuses(codec, s, cs)))
    decreases |cs|
  {
    if cs != [] {
      StepKeepsConsistent(codec, s, cs[0]);
      StepEffect(codec, s, cs[0]);
      SessionIsItsSurvivors(codec, Next(codec, s, cs[0]).0, cs[1..]);
    }
  }

  lemma {:induction false} RunAppend(codec: Codec, s: State, a: seq<Command>, b: seq<Command>)
    ensures Run(codec, s, a + b) == Run(codec, Run(codec, s, a), b)
    decreases |a|
  {
    if a == [] {
      assert a + b == b;
    } else {
      assert (a + b)[1..] == a[1..] + b;
      RunAppend(codec, Next(codec, s, a[0]).0, a[1..], b);
    }
  }

  /** An accepted change and its undo can be cut out of a session anywhere. */
  lemma UndoneChangeCanBeCut(codec: Codec, before: seq<Command>, c: Command, rest: seq<Command>)
    requires Changes(c) && Next(codec, Run(codec, INITIAL, before), c).1.status == Applied
    ensures Run(codec, INITIAL, before + [c, Undo] + rest) == Run(codec, INITIAL, before + rest)
  {
    var s := Run(codec, INITIAL, before);
    ReachableIsConsistent(codec, before);
    UndoInverts(codec, s, c);
    RunAppend(codec, INITIAL, before + [c, Undo], rest);
    RunAppend(codec, INITIAL, before, [c, Undo]);
    RunAppend(codec, INITIAL, before, rest);
    assert [c, Undo][1..] == [Undo] && [Undo][1..] == [];
    var undone := Run(codec, Next(codec, s, c).0, [Undo]);
    assert undone == Next(codec, Next(codec, s, c).0, Undo).0;
  }

  /** Unique node ids, and unique case names within each branch, hold of every
      reachable document when every document read in has them. */
  lemma {:induction false} RunKeepsUnique(codec: Codec, s: State, cs: seq<Command>)
    requires Consistent(codec, s)
    requires forall c :: c in s.history + cs ==> BringsUnique(codec, c)
    ensures UniqueNames(Run(codec, s, cs).document)
    decreases |cs|
  {
    if cs == [] {
      HistoryIsUnique(codec, s.history);
    } else {
      StepKeepsConsistent(codec, s, cs[0]);
      var after := Next(codec, s, cs[0]).0;
      forall c | c in after.history + cs[1..]
        ensures BringsUnique(codec, c)
      {
        assert c in s.history + cs;
      }
      RunKeepsUnique(codec, after, cs[1..]);
    }
  }

  lemma {:induction false} HistoryIsUnique(codec: Codec, history: seq<Command>)
    requires Accepted(codec, history)
    requires forall c :: c in history ==> BringsUnique(codec, c)
    ensures UniqueNames(Derive(codec, history))
    decreases |history|
  {
    if history != [] {
      var n := |history| - 1;
      AcceptedPrefix(codec, history, n);
      HistoryIsUnique(codec, history[..n]);
      assert Check(codec, Derive(codec, history[..n]), history[n]).Ok?;
      StepKeepsUnique(codec, Derive(codec, history[..n]), history[n]);
    }
  }
}
