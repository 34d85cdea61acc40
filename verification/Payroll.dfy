/** Paying an employee exactly once: any number of processes append to one ledger
    under an exclusive lock, and any of them may die at any step.

    Writing a line, flushing it and forcing it to disk are one step here, and a
    process that dies lets go of its lock, as the operating system sees to. */
module Payroll {
  import opened Text

  datatype Call = Call(id: string, name: string, amount: int, period: string)

  datatype Line = Line(id: string, name: string, amount: int, key: string)

  function KeyFor(period: string, id: string): string {
    period + ":" + id
  }

  function Key(c: Call): string {
    KeyFor(c.period, c.id)
  }

  function LineFor(c: Call): Line {
    Line(c.id, c.name, c.amount, Key(c))
  }

  predicate HasKey(lines: seq<Line>, key: string) {
    exists i :: 0 <= i < |lines| && lines[i].key == key
  }

  /** One payment with nobody else about: the ledger after it, and whether it
      charged. */
  function Pay(lines: seq<Line>, c: Call): (seq<Line>, bool) {
    if HasKey(lines, Key(c)) then (lines, false) else (lines + [LineFor(c)], true)
  }

  /** The ledger file as one process holding the lock works on it. */
  class Ledger {
    var lines: seq<Line>

    constructor (existing: seq<Line>)
      ensures lines == existing
    {
      lines := existing;
    }

    /** Reads the ledger from its start. */
    method KeyPresent(key: string) returns (present: bool)
      ensures present == HasKey(lines, key)
    {
      var at := 0;
      while at < |lines|
        invariant at <= |lines|
        invariant !HasKey(lines[..at], key)
      {
        if lines[at].key == key {
          return true;
        }
        at := at + 1;
      }
      assert lines[..at] == lines;
      return false;
    }

    method PayEmployee(c: Call) returns (charged: bool)
      modifies this
      ensures (lines, charged) == Pay(old(lines), c)
    {
      var present := KeyPresent(Key(c));
      if present {
        return false;
      }
      lines := lines + [LineFor(c)];
      return true;
    }
  }

  // --- the processes --------------------------------------------------------

  /** Where a process is. It asks for the lock, reads the ledger a line at a time,
      appends if no line has its key, lets go of the lock, and answers. */
  datatype Stage =
    | Asking
    | Reading(at: nat)
    | Found
    | Missing
    | Written
    | Answered(charged: bool)
    | Dead(wrote: bool)

  datatype Process = Process(call: Call, stage: Stage)

  datatype System = System(ledger: seq<Line>, holder: Option<nat>, processes: seq<Process>)

  /** The stages between taking the lock and letting go of it. */
  predicate Inside(stage: Stage) {
    stage.Reading? || stage.Found? || stage.Missing? || stage.Written?
  }

  /** The process has put its line in the ledger. */
  predicate Wrote(stage: Stage) {
    stage == Written || stage == Answered(true) || stage == Dead(true)
  }

  datatype Action = Start(call: Call) | Lock(p: nat) | Read(p: nat) | Append(p: nat) | Unlock(p: nat) | Crash(p: nat)

  predicate Enabled(s: System, a: Action) {
    match a
    case Start(_) => true
    case Lock(p) => p < |s.processes| && s.processes[p].stage.Asking? && s.holder.None?
    case Read(p) => p < |s.processes| && s.processes[p].stage.Reading?
    case Append(p) => p < |s.processes| && s.processes[p].stage.Missing?
    case Unlock(p) => p < |s.processes| && (s.processes[p].stage.Found? || s.processes[p].stage.Written?)
    case Crash(p) => p < |s.processes| && !s.processes[p].stage.Answered? && !s.processes[p].stage.Dead?
  }

  function Moved(s: System, p: nat, stage: Stage): System
    requires p < |s.processes|
  {
    s.(processes := s.processes[p := s.processes[p].(stage := stage)])
  }

  /** The next line of the ledger, read by a process that holds the lock. */
  function AfterRead(lines: seq<Line>, key: string, at: nat): Stage {
    if at >= |lines| then Missing else if lines[at].key == key then Found else Reading(at + 1)
  }

  function After(s: System, a: Action): System
    requires Enabled(s, a)
  {
    match a
    case Start(call) => s.(processes := s.processes + [Process(call, Asking)])
    case Lock(p) => Moved(s, p, Reading(0)).(holder := Some(p))
    case Read(p) => Moved(s, p, AfterRead(s.ledger, Key(s.processes[p].call), s.processes[p].stage.at))
    case Append(p) => Moved(s, p, Written).(ledger := s.ledger + [LineFor(s.processes[p].call)])
    case Unlock(p) => Moved(s, p, Answered(s.processes[p].stage.Written?)).(holder := None)
    case Crash(p) =>
      Moved(s, p, Dead(s.processes[p].stage.Written?)).(holder := if s.holder == Some(p) then None else s.holder)
  }

  /** Any ledger, and nobody at work on it. */
  predicate Initial(s: System) {
    s.holder.None? && s.processes == []
  }

  /** An interleaving: every action can be taken in the state before it. */
  predicate Runs(s: System, actions: seq<Action>)
    decreases |actions|
  {
    actions == [] || (Enabled(s, actions[0]) && Runs(After(s, actions[0]), actions[1..]))
  }

  function End(s: System, actions: seq<Action>): System
    requires Runs(s, actions)
    decreases |actions|
  {
    if actions == [] then s else End(After(s, actions[0]), actions[1..])
  }

  // --- counting -------------------------------------------------------------

  function LinesWith(lines: seq<Line>, key: string): nat {
    if lines == [] then 0
    else LinesWith(lines[..|lines| - 1], key) + if lines[|lines| - 1].key == key then 1 else 0
  }

  lemma {:induction false} NoLines(lines: seq<Line>, key: string)
    ensures LinesWith(lines, key) == 0 <==> !HasKey(lines, key)
  {
    if lines != [] {
      var front := lines[..|lines| - 1];
      NoLines(front, key);
      assert HasKey(lines, key) ==> HasKey(front, key) || lines[|lines| - 1].key == key;
    }
  }

  /** How many of the processes put a line with this key in the ledger. */
  function Writers(processes: seq<Process>, key: string): nat {
    if processes == [] then 0
    else
      var last := processes[|processes| - 1];
      Writers(processes[..|processes| - 1], key) + if Key(last.call) == key && Wrote(last.stage) then 1 else 0
  }

  function Weight(p: Process, key: string): nat {
    if Key(p.call) == key && Wrote(p.stage) then 1 else 0
  }

  lemma {:induction false} WritersMoved(processes: seq<Process>, p: nat, q: Process, key: string)
    requires p < |processes|
    ensures Writers(processes[p := q], key) + Weight(processes[p], key) == Writers(processes, key) + Weight(q, key)
  {
    var n := |processes| - 1;
    var updated := processes[p := q];
    if p == n {
      assert updated[..n] == processes[..n];
    } else {
      assert updated[..n] == processes[..n][p := q];
      WritersMoved(processes[..n], p, q, key);
    }
  }

  lemma {:induction false} WritersAtLeast(processes: seq<Process>, key: string, ps: set<nat>)
    requires forall p :: p in ps ==> p < |processes| && Weight(processes[p], key) == 1
    ensures |ps| <= Writers(processes, key)
  {
    if processes == [] {
      assert ps == {};
    } else {
      var n := |processes| - 1;
      WritersAtLeast(processes[..n], key, ps - {n});
    }
  }

  // --- what every step keeps ------------------------------------------------

  /** What a stage says about the ledger. */
  predicate Knows(lines: seq<Line>, p: Process) {
    match p.stage
    case Asking => true
    case Reading(at) => at <= |lines| && !HasKey(lines[..at], Key(p.call))
    case Missing => !HasKey(lines, Key(p.call))
    case Dead(wrote) => wrote ==> HasKey(lines, Key(p.call))
    case _ => HasKey(lines, Key(p.call))
  }

  /** One process at most is inside, and it holds the lock; every process is right
      about the ledger; and the ledger is the one it started as, with one line for
      every process that wrote, and no second line for a key. */
  ghost predicate Safe(first: seq<Line>, s: System) {
    && (forall p :: 0 <= p < |s.processes| ==> (Inside(s.processes[p].stage) <==> s.holder == Some(p)))
    && (s.holder.Some? ==> s.holder.value < |s.processes|)
    && (forall p :: 0 <= p < |s.processes| ==> Knows(s.ledger, s.processes[p]))
    && first <= s.ledger
    && forall key :: Counted(first, s, key)
  }

  predicate Counted(first: seq<Line>, s: System, key: string) {
    && LinesWith(s.ledger, key) == LinesWith(first, key) + Writers(s.processes, key)
    && (LinesWith(s.ledger, key) > LinesWith(first, key) ==>
        LinesWith(first, key) == 0 && LinesWith(s.ledger, key) == 1)
  }

  lemma HasKeyMore(lines: seq<Line>, line: Line, key: string)
    ensures HasKey(lines + [line], key) <==> HasKey(lines, key) || line.key == key
  {
    assert forall i :: 0 <= i < |lines| ==> (lines + [line])[i] == lines[i];
    assert (lines + [line])[|lines|] == line;
  }

  lemma LinesMore(lines: seq<Line>, line: Line, key: string)
    ensures LinesWith(lines + [line], key) == LinesWith(lines, key) + if line.key == key then 1 else 0
  {
    assert (lines + [line])[..|lines|] == lines;
  }

  /** A process that moves without writing. */
  lemma MovedCounted(first: seq<Line>, s: System, p: nat, stage: Stage, holder: Option<nat>, key: string)
    requires p < |s.processes| && Counted(first, s, key)
    requires Wrote(stage) == Wrote(s.processes[p].stage)
    ensures Counted(first, Moved(s, p, stage).(holder := holder), key)
  {
    WritersMoved(s.processes, p, s.processes[p].(stage := stage), key);
  }

  lemma ReadKnows(lines: seq<Line>, p: Process)
    requires p.stage.Reading? && Knows(lines, p)
    ensures Knows(lines, p.(stage := AfterRead(lines, Key(p.call), p.stage.at)))
  {
    var at := p.stage.at;
    if at < |lines| {
      assert lines[..at + 1] == lines[..at] + [lines[at]];
      HasKeyMore(lines[..at], lines[at], Key(p.call));
    } else {
      assert lines[..at] == lines;
    }
  }

  lemma StartSafe(first: seq<Line>, s: System, call: Call)
    requires Safe(first, s)
    ensures Safe(first, After(s, Start(call)))
  {
    var next := After(s, Start(call));
    forall key
      ensures Counted(first, next, key)
    {
      assert next.processes[..|s.processes|] == s.processes;
      assert Counted(first, s, key);
    }
  }

  lemma MoveSafe(first: seq<Line>, s: System, p: nat, stage: Stage, holder: Option<nat>)
    requires Safe(first, s) && p < |s.processes|
    requires Wrote(stage) == Wrote(s.processes[p].stage)
    requires Knows(s.ledger, s.processes[p].(stage := stage))
    requires holder == if Inside(stage) then Some(p) else if s.holder == Some(p) then None else s.holder
    requires Inside(stage) ==> s.holder == Some(p) || s.holder.None?
    ensures Safe(first, Moved(s, p, stage).(holder := holder))
  {
    forall key
      ensures Counted(first, Moved(s, p, stage).(holder := holder), key)
    {
      assert Counted(first, s, key);
      MovedCounted(first, s, p, stage, holder, key);
    }
  }

  lemma AppendCounted(first: seq<Line>, s: System, p: nat, key: string)
    requires Safe(first, s) && Enabled(s, Append(p))
    ensures Counted(first, After(s, Append(p)), key)
  {
    var process := s.processes[p];
    assert Counted(first, s, key);
    LinesMore(s.ledger, LineFor(process.call), key);
    WritersMoved(s.processes, p, process.(stage := Written), key);
    assert Knows(s.ledger, process);
    NoLines(s.ledger, Key(process.call));
  }

  lemma AppendSafe(first: seq<Line>, s: System, p: nat)
    requires Safe(first, s) && Enabled(s, Append(p))
    ensures Safe(first, After(s, Append(p)))
  {
    var process, next := s.processes[p], After(s, Append(p));
    forall key
      ensures Counted(first, next, key)
    {
      AppendCounted(first, s, p, key);
    }
    forall q | 0 <= q < |next.processes|
      ensures Knows(next.ledger, next.processes[q])
    {
      assert Knows(s.ledger, s.processes[q]);
      assert Inside(s.processes[p].stage);
      HasKeyMore(s.ledger, LineFor(process.call), Key(s.processes[q].call));
    }
  }

  /** Every step keeps it. */
  lemma StepSafe(first: seq<Line>, s: System, a: Action)
    requires Safe(first, s) && Enabled(s, a)
    ensures Safe(first, After(s, a))
  {
    match a
    case Start(call) => StartSafe(first, s, call);
    case Lock(p) =>
      assert s.ledger[..0] == [];
      MoveSafe(first, s, p, Reading(0), Some(p));
    case Read(p) =>
      ReadKnows(s.ledger, s.processes[p]);
      assert s.holder == Some(p);
      var stage := AfterRead(s.ledger, Key(s.processes[p].call), s.processes[p].stage.at);
      MoveSafe(first, s, p, stage, s.holder);
      assert After(s, a) == Moved(s, p, stage).(holder := s.holder);
    case Append(p) => AppendSafe(first, s, p);
    case Unlock(p) =>
      assert s.holder == Some(p);
      MoveSafe(first, s, p, Answered(s.processes[p].stage.Written?), None);
    case Crash(p) =>
      MoveSafe(first, s, p, Dead(s.processes[p].stage.Written?), if s.holder == Some(p) then None else s.holder);
  }

  // --- whole runs -----------------------------------------------------------

  lemma {:induction false} RunSafe(first: seq<Line>, s: System, actions: seq<Action>)
    requires Safe(first, s) && Runs(s, actions)
    ensures Safe(first, End(s, actions)) && s.ledger <= End(s, actions).ledger
    decreases |actions|
  {
    if actions != [] {
      StepSafe(first, s, actions[0]);
      RunSafe(first, After(s, actions[0]), actions[1..]);
    }
  }

  lemma InitialSafe(s: System)
    requires Initial(s)
    ensures Safe(s.ledger, s)
  {
  }

  /** The process has answered that it charged under this key. */
  predicate Charged(s: System, p: nat, key: string) {
    p < |s.processes| && s.processes[p].stage == Answered(true) && Key(s.processes[p].call) == key
  }

  /** Exactly once, in every interleaving with any deaths: no line is lost; a key
      with no line gets at most one, and a key with lines gets no more; a call that
      answered has its key in the ledger; and of the processes that pay under one
      key at most one answers that it charged, and none does when the key was there
      at the start. */
  lemma ExactlyOnce(s: System, actions: seq<Action>)
    requires Initial(s) && Runs(s, actions)
    ensures var end := End(s, actions);
            && s.ledger <= end.ledger
            && (forall key :: LinesWith(end.ledger, key) <=
                              if LinesWith(s.ledger, key) == 0 then 1 else LinesWith(s.ledger, key))
            && (forall p :: 0 <= p < |end.processes| && end.processes[p].stage.Answered? ==>
                  HasKey(end.ledger, Key(end.processes[p].call)))
            && (forall p, q, key :: Charged(end, p, key) && Charged(end, q, key) ==> p == q)
            && (forall p, key :: Charged(end, p, key) ==> !HasKey(s.ledger, key))
  {
    InitialSafe(s);
    RunSafe(s.ledger, s, actions);
    var end := End(s, actions);
    forall key
      ensures LinesWith(end.ledger, key) <= if LinesWith(s.ledger, key) == 0 then 1 else LinesWith(s.ledger, key)
      ensures Writers(end.processes, key) <= 1 && (HasKey(s.ledger, key) ==> Writers(end.processes, key) == 0)
    {
      assert Counted(s.ledger, end, key);
      NoLines(s.ledger, key);
    }
    forall p, key | Charged(end, p, key)
      ensures !HasKey(s.ledger, key)
      ensures forall q :: Charged(end, q, key) ==> p == q
    {
      WritersAtLeast(end.processes, key, {p});
      forall q | Charged(end, q, key)
        ensures p == q
      {
        WritersAtLeast(end.processes, key, {p, q});
        assert p != q ==> |{p, q}| == 2;
      }
    }
  }

  // --- one at a time --------------------------------------------------------

  /** A payment where it takes effect: where a process appends its line, or finds
      its key. */
  datatype Effect = Effect(p: nat, call: Call, charged: bool)

  function EffectOf(s: System, a: Action): seq<Effect>
    requires Enabled(s, a)
  {
    match a
    case Append(p) => [Effect(p, s.processes[p].call, true)]
    case Read(p) =>
      if AfterRead(s.ledger, Key(s.processes[p].call), s.processes[p].stage.at).Found?
      then [Effect(p, s.processes[p].call, false)] else []
    case _ => []
  }

  function Effects(s: System, actions: seq<Action>): seq<Effect>
    requires Runs(s, actions)
    decreases |actions|
  {
    if actions == [] then [] else EffectOf(s, actions[0]) + Effects(After(s, actions[0]), actions[1..])
  }

  /** Paying these calls one after another turns one ledger into the other, and
      each of them charges or not as it says. */
  predicate Serial(lines: seq<Line>, effects: seq<Effect>, end: seq<Line>)
    decreases |effects|
  {
    if effects == [] then lines == end
    else
      var (next, charged) := Pay(lines, effects[0].call);
      charged == effects[0].charged && Serial(next, effects[1..], end)
  }

  /** The process has its answer, or has had it. */
  predicate Settled(s: System, p: nat, charged: bool) {
    p < |s.processes| &&
    var stage := s.processes[p].stage;
    stage == Answered(charged) || stage == if charged then Written else Found
  }

  lemma EffectPays(first: seq<Line>, s: System, a: Action)
    requires Safe(first, s) && Enabled(s, a)
    ensures var effect := EffectOf(s, a);
            if effect == [] then After(s, a).ledger == s.ledger
            else Pay(s.ledger, effect[0].call) == (After(s, a).ledger, effect[0].charged)
  {
    match a
    case Append(p) => assert Knows(s.ledger, s.processes[p]);
    case Read(p) => assert Knows(s.ledger, s.processes[p]);
    case _ =>
  }

  /** Whatever the interleaving, the ledger and every answer are those of some
      sequence of payments made one at a time. */
  lemma {:induction false} RunIsSerial(first: seq<Line>, s: System, actions: seq<Action>)
    requires Safe(first, s) && Runs(s, actions)
    ensures Serial(s.ledger, Effects(s, actions), End(s, actions).ledger)
    decreases |actions|
  {
    if actions != [] {
      var next := After(s, actions[0]);
      StepSafe(first, s, actions[0]);
      RunIsSerial(first, next, actions[1..]);
      EffectPays(first, s, actions[0]);
      var effect, more := EffectOf(s, actions[0]), Effects(next, actions[1..]);
      if effect == [] {
        assert effect + more == more;
      } else {
        assert (effect + more)[1..] == more;
      }
    }
  }

  lemma {:induction false} CallKept(s: System, actions: seq<Action>, p: nat)
    requires Runs(s, actions) && p < |s.processes|
    ensures p < |End(s, actions).processes| && End(s, actions).processes[p].call == s.processes[p].call
    decreases |actions|
  {
    if actions != [] {
      CallKept(After(s, actions[0]), actions[1..], p);
    }
  }

  lemma {:induction false} SettledByEffect(s: System, actions: seq<Action>, p: nat, charged: bool)
    requires Runs(s, actions) && Settled(End(s, actions), p, charged)
    ensures Settled(s, p, charged) || Effect(p, End(s, actions).processes[p].call, charged) in Effects(s, actions)
    decreases |actions|
  {
    if actions != [] {
      var a := actions[0];
      var next := After(s, a);
      SettledByEffect(next, actions[1..], p, charged);
      if Settled(next, p, charged) && !Settled(s, p, charged) {
        CallKept(next, actions[1..], p);
        assert EffectOf(s, a) == [Effect(p, s.processes[p].call, charged)];
      }
    }
  }

  /** The process's payment has taken effect, or never will. */
  predicate Past(s: System, p: nat) {
    p < |s.processes| && var stage := s.processes[p].stage;
    stage.Found? || stage.Written? || stage.Answered? || stage.Dead?
  }

  lemma PastStays(s: System, a: Action, p: nat)
    requires Enabled(s, a) && Past(s, p)
    ensures Past(After(s, a), p) && forall e :: e in EffectOf(s, a) ==> e.p != p
  {
  }

  lemma EffectIsPast(s: System, a: Action)
    requires Enabled(s, a)
    ensures forall e :: e in EffectOf(s, a) ==> Past(After(s, a), e.p) && e.p < |s.processes|
  {
  }

  lemma {:induction false} NoMoreEffects(s: System, actions: seq<Action>, p: nat)
    requires Runs(s, actions) && Past(s, p)
    ensures forall e :: e in Effects(s, actions) ==> e.p != p
    decreases |actions|
  {
    if actions != [] {
      PastStays(s, actions[0], p);
      NoMoreEffects(After(s, actions[0]), actions[1..], p);
    }
  }

  lemma {:induction false} OneEffectEach(s: System, actions: seq<Action>)
    requires Runs(s, actions)
    ensures forall i, j :: 0 <= i < j < |Effects(s, actions)| ==> Effects(s, actions)[i].p != Effects(s, actions)[j].p
    decreases |actions|
  {
    if actions != [] {
      var next := After(s, actions[0]);
      OneEffectEach(next, actions[1..]);
      EffectIsPast(s, actions[0]);
      var effect, more := EffectOf(s, actions[0]), Effects(next, actions[1..]);
      if effect == [] {
        assert effect + more == more;
      } else {
        NoMoreEffects(next, actions[1..], effect[0].p);
        assert (effect + more)[1..] == more;
      }
    }
  }

  /** The state after the first `k` actions of a run. */
  function At(s: System, actions: seq<Action>, k: nat): System
    requires Runs(s, actions) && k <= |actions|
    decreases k
  {
    if k == 0 then s else At(After(s, actions[0]), actions[1..], k - 1)
  }

  /** A run up to some moment, and on from there. */
  lemma {:induction false} RunSplits(s: System, actions: seq<Action>, k: nat)
    requires Runs(s, actions) && k <= |actions|
    ensures Runs(s, actions[..k]) && End(s, actions[..k]) == At(s, actions, k)
    ensures Runs(At(s, actions, k), actions[k..])
    ensures Effects(s, actions) == Effects(s, actions[..k]) + Effects(At(s, actions, k), actions[k..])
    decreases k
  {
    if k == 0 {
      assert actions[..0] == [] && actions[0..] == actions;
    } else {
      RunSplits(After(s, actions[0]), actions[1..], k - 1);
      assert actions[..k][1..] == actions[1..][..k - 1] && actions[1..][k - 1..] == actions[k..];
    }
  }

  lemma {:induction false} EffectsWithin(s: System, actions: seq<Action>)
    requires Runs(s, actions)
    ensures |s.processes| <= |End(s, actions).processes|
    ensures forall e :: e in Effects(s, actions) ==> e.p < |End(s, actions).processes|
    decreases |actions|
  {
    if actions != [] {
      EffectIsPast(s, actions[0]);
      EffectsWithin(After(s, actions[0]), actions[1..]);
    }
  }

  /** The order of effects is that of real time: what had been answered before
      another call started took effect before it. */
  lemma EffectsInOrder(s: System, actions: seq<Action>, k: nat, i: nat, j: nat)
    requires Runs(s, actions) && k <= |actions| && i < |Effects(s, actions)| && j < |Effects(s, actions)|
    requires var now, p := At(s, actions, k), Effects(s, actions)[i].p;
             p < |now.processes| && now.processes[p].stage.Answered?
    requires Effects(s, actions)[j].p >= |At(s, actions, k).processes|
    ensures i < j
  {
    RunSplits(s, actions, k);
    var now := At(s, actions, k);
    EffectsWithin(s, actions[..k]);
    NoMoreEffects(now, actions[k..], Effects(s, actions)[i].p);
  }

  /** Every run is a sequence of payments made one at a time, at most one of each
      process, and every answer given in it is the answer of that process's payment
      in that sequence. */
  lemma Linearizable(s: System, actions: seq<Action>)
    requires Initial(s) && Runs(s, actions)
    ensures Serial(s.ledger, Effects(s, actions), End(s, actions).ledger)
    ensures forall i, j :: 0 <= i < j < |Effects(s, actions)| ==> Effects(s, actions)[i].p != Effects(s, actions)[j].p
    ensures var end := End(s, actions);
            forall p, charged :: 0 <= p < |end.processes| && end.processes[p].stage == Answered(charged) ==>
              Effect(p, end.processes[p].call, charged) in Effects(s, actions)
  {
    InitialSafe(s);
    RunIsSerial(s.ledger, s, actions);
    OneEffectEach(s, actions);
    forall p, charged | 0 <= p < |End(s, actions).processes| && End(s, actions).processes[p].stage == Answered(charged)
      ensures Effect(p, End(s, actions).processes[p].call, charged) in Effects(s, actions)
    {
      SettledByEffect(s, actions, p, charged);
    }
  }

  // --- keys -----------------------------------------------------------------

  /** Two employees of two periods share a key exactly when they are the same, or
      one period goes on, after a colon, with what the other's id starts with. */
  lemma KeysMeet(period: string, id: string, period': string, id': string)
    requires |period| <= |period'|
    ensures KeyFor(period, id) == KeyFor(period', id') <==>
            (period == period' && id == id') ||
            (|period| < |period'| && period + ":" <= period' && id == period'[|period| + 1..] + ":" + id')
  {
    var a, b := KeyFor(period, id), KeyFor(period', id');
    var n := |period|;
    assert a[..n] == period && a[n] == ':' && a[n + 1..] == id;
    assert b[..|period'|] == period' && b[|period'|] == ':' && b[|period'| + 1..] == id';
    if a == b && n < |period'| {
      assert period'[..n] == b[..n] && period'[n] == b[n];
      assert period + ":" == period'[..n + 1];
      assert b[n + 1..] == period'[n + 1..] + ":" + id';
    }
    if n < |period'| && period + ":" <= period' && id == period'[n + 1..] + ":" + id' {
      assert period' == period + ":" + period'[n + 1..];
      assert a == b;
    }
    if n == |period'| && a == b {
      assert period == a[..n] == period';
    }
  }

  lemma ColonInside(front: string, period: string)
    ensures front + ":" <= period ==> ':' in period
  {
    if front + ":" <= period {
      assert period[|front|] == (front + ":")[|front|];
    }
  }

  /** As long as no period holds a colon, a key names one employee of one period. */
  lemma KeyIsInjective(period: string, id: string, period': string, id': string)
    requires ':' !in period && ':' !in period' && KeyFor(period, id) == KeyFor(period', id')
    ensures period == period' && id == id'
  {
    ColonInside(period, period');
    ColonInside(period', period);
    if |period| <= |period'| {
      KeysMeet(period, id, period', id');
    } else {
      KeysMeet(period', id', period, id);
    }
  }

  /** With a colon in a period two employees can share a key, and then paying one
      keeps the other from being paid. */
  lemma SharedKeySkipsOne(lines: seq<Line>)
    requires !HasKey(lines, "a:b:c")
    ensures var first, second := Call("c", "", 1, "a:b"), Call("b:c", "", 1, "a");
            first.id != second.id && Pay(lines, first).1 && !Pay(Pay(lines, first).0, second).1
  {
    assert KeyFor("a:b", "c") == "a:b:c" == KeyFor("a", "b:c");
    HasKeyMore(lines, LineFor(Call("c", "", 1, "a:b")), "a:b:c");
  }
}
