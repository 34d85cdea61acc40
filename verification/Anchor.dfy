/** Anchors: a copy of every run's chain head, and the judgement of a store
    against one.

    A run's chain is not modelled; its head is a commitment to the events the run
    holds. Run identifiers are UUIDs, whose spelling is a parameter too. */
module Anchor {
  import opened Json
  import opened Sequences
  import opened Text

  // --- the parameters -------------------------------------------------------

  /** How a run identifier is read from text and written. */
  datatype Uuids = Uuids(parse: string -> Option<nat>, show: nat -> string)

  /** What is written is read back. */
  ghost predicate Canonical(uuids: Uuids) {
    forall id: nat :: uuids.parse(uuids.show(id)) == Some(id)
  }

  /** The hash that a chain's head carries over its events. */
  type Commitment = seq<string> -> string

  /** Two runs of events of one length have one hash only if they are the same. */
  ghost predicate Binding(commit: Commitment) {
    forall a, b :: |a| == |b| && commit(a) == commit(b) ==> a == b
  }

  // --- the anchor -----------------------------------------------------------

  const ANCHOR_SPEC := "salvor.anchor.v1"

  /** One run's head as the file records it, its length unjudged. */
  datatype AnchoredRun = AnchoredRun(run: string, len: Json, hash: string)

  datatype Document = Document(anchor: string, chain: string, runs: seq<AnchoredRun>)

  const MAX_LENGTH := 0xFFFF_FFFF_FFFF_FFFF

  /** The length an entry records, if it is a whole number of events, at least one. */
  function RecordedLength(len: Json): (n: Option<nat>)
    ensures n.Some? ==> 0 < n.value <= MAX_LENGTH
  {
    if len.Num? && len.literal != "" && AllDigits(len.literal) && 0 < DecimalValue(len.literal) <= MAX_LENGTH
    then Some(DecimalValue(len.literal))
    else None
  }

  function AnchoredLength(entry: AnchoredRun): nat {
    match RecordedLength(entry.len) case Some(n) => n case None => 0
  }

  predicate IsChainHash(text: string) {
    |text| == 64 && forall i :: 0 <= i < |text| ==> '0' <= text[i] <= '9' || 'a' <= text[i] <= 'f'
  }

  datatype Problem = NotARun | NotALength | NotAHash | NamedBefore(first: nat)

  datatype Checked = Accepted | Rejected(position: nat, problem: Problem)

  /** What is wrong with an entry's own fields. */
  function FieldProblem(uuids: Uuids, entry: AnchoredRun): Option<Problem> {
    if uuids.parse(entry.run).None? then Some(NotARun)
    else if RecordedLength(entry.len).None? then Some(NotALength)
    else if !IsChainHash(entry.hash) then Some(NotAHash)
    else None
  }

  predicate NamedEarlier(entries: seq<AnchoredRun>, i: nat, first: nat) {
    first < i < |entries| && entries[first].run == entries[i].run
  }

  /** The entry is not shaped like a head, or an earlier one names its run. */
  ghost predicate Offends(uuids: Uuids, entries: seq<AnchoredRun>, i: nat) {
    i < |entries| && (FieldProblem(uuids, entries[i]).Some? || exists first :: NamedEarlier(entries, i, first))
  }

  /** What a check of entries has to answer: all is well, or the least offending
      position and what is wrong there. */
  ghost predicate Answers(uuids: Uuids, entries: seq<AnchoredRun>, answer: Checked) {
    match answer
    case Accepted => forall i :: !Offends(uuids, entries, i)
    case Rejected(position, problem) =>
      && 0 < position <= |entries|
      && (forall i :: Offends(uuids, entries, i) ==> position - 1 <= i)
      && match FieldProblem(uuids, entries[position - 1])
         case Some(p) => problem == p
         case None => problem.NamedBefore? && problem.first > 0 &&
                      NamedEarlier(entries, position - 1, problem.first - 1)
  }

  /** No entry before `i` offends. */
  ghost predicate Clear(uuids: Uuids, entries: seq<AnchoredRun>, i: nat) {
    forall k: nat :: k < i ==> !Offends(uuids, entries, k)
  }

  lemma DuplicateAnswer(uuids: Uuids, entries: seq<AnchoredRun>, i: nat, first: nat)
    requires i < |entries| && Clear(uuids, entries, i) && FieldProblem(uuids, entries[i]).None?
    requires NamedEarlier(entries, i, first)
    ensures Answers(uuids, entries, Rejected(i + 1, NamedBefore(first + 1)))
  {
  }

  lemma StillClear(uuids: Uuids, entries: seq<AnchoredRun>, i: nat)
    requires i < |entries| && Clear(uuids, entries, i) && FieldProblem(uuids, entries[i]).None?
    requires forall k :: 0 <= k < i ==> entries[k].run != entries[i].run
    ensures Clear(uuids, entries, i + 1)
  {
  }

  /** Where each run of the entries before `i` first stands, counting from one. */
  ghost predicate FirstSeen(entries: seq<AnchoredRun>, i: nat, seen: map<string, nat>)
    requires i <= |entries|
  {
    && (forall k :: 0 <= k < i ==> entries[k].run in seen)
    && (forall run :: run in seen ==> 0 < seen[run] <= i && entries[seen[run] - 1].run == run)
  }

  lemma SeenMore(entries: seq<AnchoredRun>, i: nat, seen: map<string, nat>)
    requires i < |entries| && FirstSeen(entries, i, seen) && entries[i].run !in seen
    ensures FirstSeen(entries, i + 1, seen[entries[i].run := i + 1])
  {
  }

  lemma NotSeen(entries: seq<AnchoredRun>, i: nat, seen: map<string, nat>)
    requires i < |entries| && FirstSeen(entries, i, seen) && entries[i].run !in seen
    ensures forall k :: 0 <= k < i ==> entries[k].run != entries[i].run
  {
  }

  /** The entries before `i` are clear, and where each run first stands is known. */
  ghost predicate Checks(uuids: Uuids, entries: seq<AnchoredRun>, i: nat, seen: map<string, nat>) {
    i <= |entries| && Clear(uuids, entries, i) && FirstSeen(entries, i, seen)
  }

  lemma EntryRefused(uuids: Uuids, entries: seq<AnchoredRun>, i: nat, seen: map<string, nat>)
    requires i < |entries| && Checks(uuids, entries, i, seen)
    ensures var problem := FieldProblem(uuids, entries[i]);
            problem.Some? ==> Answers(uuids, entries, Rejected(i + 1, problem.value))
  {
  }

  lemma EntryRepeats(uuids: Uuids, entries: seq<AnchoredRun>, i: nat, seen: map<string, nat>)
    requires i < |entries| && Checks(uuids, entries, i, seen)
    requires FieldProblem(uuids, entries[i]).None? && entries[i].run in seen
    ensures Answers(uuids, entries, Rejected(i + 1, NamedBefore(seen[entries[i].run])))
  {
    DuplicateAnswer(uuids, entries, i, seen[entries[i].run] - 1);
  }

  lemma EntryPasses(uuids: Uuids, entries: seq<AnchoredRun>, i: nat, seen: map<string, nat>)
    requires i < |entries| && Checks(uuids, entries, i, seen)
    requires FieldProblem(uuids, entries[i]).None? && entries[i].run !in seen
    ensures Checks(uuids, entries, i + 1, seen[entries[i].run := i + 1])
  {
    NotSeen(entries, i, seen);
    StillClear(uuids, entries, i);
    SeenMore(entries, i, seen);
  }

  lemma AllClear(uuids: Uuids, entries: seq<AnchoredRun>, seen: map<string, nat>)
    requires Checks(uuids, entries, |entries|, seen)
    ensures Answers(uuids, entries, Accepted)
  {
  }

  /** Checks every entry before any is compared to a store. Positions count from
      one. */
  method CheckEntries(uuids: Uuids, entries: seq<AnchoredRun>) returns (answer: Checked)
    ensures Answers(uuids, entries, answer)
  {
    var firstSeen: map<string, nat> := map[];
    var i := 0;
    while i < |entries|
      invariant i <= |entries| && Checks(uuids, entries, i, firstSeen)
    {
      var entry, position := entries[i], i + 1;
      var problem := FieldProblem(uuids, entry);
      if problem.Some? {
        EntryRefused(uuids, entries, i, firstSeen);
        return Rejected(position, problem.value);
      }
      if entry.run in firstSeen {
        EntryRepeats(uuids, entries, i, firstSeen);
        return Rejected(position, NamedBefore(firstSeen[entry.run]));
      }
      EntryPasses(uuids, entries, i, firstSeen);
      firstSeen := firstSeen[entry.run := position];
      i := i + 1;
    }
    AllClear(uuids, entries, firstSeen);
    return Accepted;
  }

  /** An answer says exactly whether all entries are well formed and pairwise
      distinct, and there is only one. */
  lemma AnswerIsExact(uuids: Uuids, entries: seq<AnchoredRun>, answer: Checked, other: Checked)
    requires Answers(uuids, entries, answer)
    ensures answer.Accepted? <==>
            (forall i :: 0 <= i < |entries| ==> FieldProblem(uuids, entries[i]).None?) &&
            (forall i, j :: 0 <= i < j < |entries| ==> entries[i].run != entries[j].run)
    ensures Answers(uuids, entries, other) ==> other == answer
  {
    if answer.Accepted? {
      forall i, j | 0 <= i < j < |entries|
        ensures entries[i].run != entries[j].run
      {
        assert !Offends(uuids, entries, j);
        assert !NamedEarlier(entries, j, i);
      }
      forall i | 0 <= i < |entries|
        ensures FieldProblem(uuids, entries[i]).None?
      {
        assert !Offends(uuids, entries, i);
      }
    } else {
      assert Offends(uuids, entries, answer.position - 1);
    }
    if Answers(uuids, entries, other) && other.Rejected? && answer.Rejected? {
      var i := answer.position - 1;
      assert Offends(uuids, entries, other.position - 1);
      if FieldProblem(uuids, entries[i]).None? {
        var a, b := answer.problem.first - 1, other.problem.first - 1;
        if a != b {
          var later := if a < b then b else a;
          assert NamedEarlier(entries, later, if a < b then a else b);
          assert Offends(uuids, entries, later);
        }
      }
    }
  }

  // --- the store ------------------------------------------------------------

  /** Why the store will not read a run's log, and at which position if at one. */
  datatype Refusal = Refusal(at: Option<nat>, detail: string)

  datatype Log = Log(events: seq<string>, refusal: Option<Refusal>)

  datatype Head = Head(id: nat, len: nat, hash: string)

  /** The runs' logs, and the head recorded for each run. */
  datatype Store = Store(logs: map<nat, Log>, heads: seq<Head>)

  datatype Observed = Absent | Refused(refusal: Refusal) | Present(len: nat, hash: Option<string>)

  /** One run read back, with the hash its chain carries at a length. */
  function Observe(commit: Commitment, store: Store, id: nat, length: nat): Observed {
    if id !in store.logs then Absent
    else
      var log := store.logs[id];
      if log.refusal.Some? then Refused(log.refusal.value)
      else if log.events == [] then Absent
      else Present(|log.events|, if 0 < length <= |log.events| then Some(commit(log.events[..length])) else None)
  }

  // --- the judgement --------------------------------------------------------

  datatype Finding =
    | Intact(anchored: nat, len: nat, since: nat)
    | Missing(anchored: nat)
    | Shortened(anchored: nat, len: nat)
    | Rewritten(anchored: nat, len: nat, expected: string, found: Option<string>)
    | Broken(refusal: Refusal)
    | New(len: nat)

  predicate IsFailure(f: Finding) {
    f.Missing? || f.Shortened? || f.Rewritten? || f.Broken?
  }

  function FindingFor(entry: AnchoredRun, observed: Observed): Finding {
    var anchored := AnchoredLength(entry);
    match observed
    case Absent => Missing(anchored)
    case Refused(refusal) => Broken(refusal)
    case Present(len, hash) =>
      if len < anchored then Shortened(anchored, len)
      else if hash == Some(entry.hash) then Intact(anchored, len, len - anchored)
      else Rewritten(anchored, len, entry.hash, hash)
  }

  datatype RunFinding = RunFinding(run: string, finding: Finding)

  /** The findings in order, and the counts that the summary reports. */
  datatype Verification = Verification(
    runs: seq<RunFinding>, anchored: nat, intact: nat, failed: nat, brokenUnanchored: nat, unseen: nat,
    maybeWrongAnchor: bool, ok: bool)

  function Names(entries: seq<AnchoredRun>): set<string> {
    set e | e in entries :: e.run
  }

  function ByRun(): (RunFinding, RunFinding) -> bool {
    (a: RunFinding, b: RunFinding) => Less(a.run, b.run)
  }

  function ThatIs(wanted: Finding -> bool): RunFinding -> bool {
    (r: RunFinding) => wanted(r.finding)
  }

  function ThatIsNamed(wanted: Finding -> bool, names: set<string>, named: bool): RunFinding -> bool {
    (r: RunFinding) => wanted(r.finding) && (r.run in names) == named
  }

  function IntactOnly(): Finding -> bool {
    (f: Finding) => f.Intact?
  }

  function NewOnly(): Finding -> bool {
    (f: Finding) => f.New?
  }

  function MissingOnly(): Finding -> bool {
    (f: Finding) => f.Missing?
  }

  function BrokenOnly(): Finding -> bool {
    (f: Finding) => f.Broken?
  }

  function Failing(): Finding -> bool {
    (f: Finding) => IsFailure(f)
  }

  /** Counts the findings and decides. */
  function Assemble(document: Document, findings: seq<RunFinding>): Verification {
    var runs := Sort(findings, ByRun());
    var names := Names(document.runs);
    var unseen, anchored := Count(runs, ThatIs(NewOnly())), |document.runs|;
    var failed := Count(runs, ThatIsNamed(Failing(), names, true));
    var broken := Count(runs, ThatIsNamed(BrokenOnly(), names, false));
    Verification(runs, anchored, Count(runs, ThatIs(IntactOnly())), failed, broken, unseen,
                 anchored > 0 && unseen > 0 && Count(runs, ThatIs(MissingOnly())) == anchored,
                 failed == 0 && broken == 0)
  }

  const EXIT_INTACT := 0
  const EXIT_TAMPER := 1
  const EXIT_NOT_CHECKED := 2

  /** What the program exits with when an error ends it. */
  const EXIT_ERROR := 1

  function ExitCode(v: Verification): int {
    if v.ok then EXIT_INTACT else EXIT_TAMPER
  }

  /** Every entry names a run. */
  predicate NamesRuns(uuids: Uuids, entries: seq<AnchoredRun>) {
    forall e :: e in entries ==> uuids.parse(e.run).Some?
  }

  function Judged(uuids: Uuids, commit: Commitment, store: Store, e: AnchoredRun): RunFinding
    requires uuids.parse(e.run).Some?
  {
    RunFinding(e.run, FindingFor(e, Observe(commit, store, uuids.parse(e.run).value, AnchoredLength(e))))
  }

  function AnchoredFindings(uuids: Uuids, commit: Commitment, store: Store,
                            entries: seq<AnchoredRun>): (r: seq<RunFinding>)
    requires NamesRuns(uuids, entries)
    ensures |r| == |entries|
    ensures forall i :: 0 <= i < |r| ==> r[i] == Judged(uuids, commit, store, entries[i])
  {
    if entries == [] then []
    else [Judged(uuids, commit, store, entries[0])] + AnchoredFindings(uuids, commit, store, entries[1..])
  }

  /** What a run that the anchor does not name is reported as, if it is a run. */
  function Unanchored(uuids: Uuids, commit: Commitment, store: Store, head: Head): Option<RunFinding> {
    match Observe(commit, store, head.id, head.len)
    case Absent => None
    case Refused(refusal) => Some(RunFinding(uuids.show(head.id), Broken(refusal)))
    case Present(len, _) => Some(RunFinding(uuids.show(head.id), New(len)))
  }

  function OtherFindings(uuids: Uuids, commit: Commitment, store: Store, heads: seq<Head>,
                         names: set<string>): seq<RunFinding> {
    if heads == [] then []
    else
      var rest := OtherFindings(uuids, commit, store, heads[1..], names);
      if uuids.show(heads[0].id) in names then rest
      else match Unanchored(uuids, commit, store, heads[0])
        case None => rest
        case Some(finding) => [finding] + rest
  }

  /** Every finding, before they are sorted and counted. */
  function Findings(uuids: Uuids, commit: Commitment, store: Store, document: Document): seq<RunFinding>
    requires NamesRuns(uuids, document.runs)
  {
    AnchoredFindings(uuids, commit, store, document.runs) +
    OtherFindings(uuids, commit, store, store.heads, Names(document.runs))
  }

  function Verify(uuids: Uuids, commit: Commitment, store: Store, document: Document): Verification
    requires NamesRuns(uuids, document.runs)
  {
    Assemble(document, Findings(uuids, commit, store, document))
  }

  // --- the reads ------------------------------------------------------------

  /** Which reads of a store end in an error that is no refusal of a log: those of
      some runs, or that of the heads. */
  datatype Failures = Failures(runs: set<nat>, heads: bool)

  predicate EntryFails(uuids: Uuids, failures: Failures, e: AnchoredRun) {
    var id := uuids.parse(e.run);
    id.Some? && id.value in failures.runs
  }

  predicate HeadFails(uuids: Uuids, failures: Failures, names: set<string>, h: Head) {
    uuids.show(h.id) !in names && h.id in failures.runs
  }

  /** Some read that a comparison makes fails. */
  predicate ReadFails(uuids: Uuids, failures: Failures, store: Store, document: Document) {
    || failures.heads
    || (exists e :: e in document.runs && EntryFails(uuids, failures, e))
    || (exists h :: h in store.heads && HeadFails(uuids, failures, Names(document.runs), h))
  }

  method FindAnchored(uuids: Uuids, commit: Commitment, store: Store, failures: Failures, entries: seq<AnchoredRun>)
    returns (findings: Option<seq<RunFinding>>, anchored: set<string>)
    requires NamesRuns(uuids, entries)
    ensures findings.None? <==> exists e :: e in entries && EntryFails(uuids, failures, e)
    ensures findings.Some? ==>
              findings.value == AnchoredFindings(uuids, commit, store, entries) && anchored == Names(entries)
  {
    var found := [];
    anchored := {};
    var i := 0;
    while i < |entries|
      invariant i <= |entries| && |found| == i
      invariant forall k :: 0 <= k < i ==> found[k] == Judged(uuids, commit, store, entries[k])
      invariant forall k :: 0 <= k < i ==> !EntryFails(uuids, failures, entries[k])
      invariant anchored == Names(entries[..i])
    {
      var run := entries[i];
      NamesLast(entries, i);
      anchored := anchored + {run.run};
      if EntryFails(uuids, failures, run) {
        return None, anchored;
      }
      found := found + [Judged(uuids, commit, store, run)];
      i := i + 1;
    }
    assert entries[..i] == entries;
    findings := Some(found);
  }

  lemma NamesLast(entries: seq<AnchoredRun>, i: nat)
    requires i < |entries|
    ensures Names(entries[..i + 1]) == Names(entries[..i]) + {entries[i].run}
  {
    assert entries[..i + 1] == entries[..i] + [entries[i]];
  }

  method FindOthers(uuids: Uuids, commit: Commitment, store: Store, failures: Failures, heads: seq<Head>,
                    anchored: set<string>)
    returns (findings: Option<seq<RunFinding>>)
    ensures findings.None? <==> exists h :: h in heads && HeadFails(uuids, failures, anchored, h)
    ensures findings.Some? ==> findings.value == OtherFindings(uuids, commit, store, heads, anchored)
  {
    var found := [];
    var i := 0;
    while i < |heads|
      invariant i <= |heads|
      invariant forall k :: 0 <= k < i ==> !HeadFails(uuids, failures, anchored, heads[k])
      invariant OtherFindings(uuids, commit, store, heads, anchored) ==
                found + OtherFindings(uuids, commit, store, heads[i..], anchored)
    {
      var head := heads[i];
      assert heads[i..][1..] == heads[i + 1..];
      i := i + 1;
      if uuids.show(head.id) in anchored {
        continue;
      }
      if head.id in failures.runs {
        assert HeadFails(uuids, failures, anchored, head);
        return None;
      }
      var finding := Unanchored(uuids, commit, store, head);
      if finding.Some? {
        found := found + [finding.value];
      }
    }
    findings := Some(found);
  }

  /** Compares a store with an anchor whose entries have been checked, run by run,
      and then reads the runs that the anchor does not name. A read that fails ends
      the comparison without a result. */
  method VerifyStore(uuids: Uuids, commit: Commitment, store: Store, failures: Failures, document: Document)
    returns (v: Option<Verification>)
    requires NamesRuns(uuids, document.runs)
    ensures v.None? <==> ReadFails(uuids, failures, store, document)
    ensures v.Some? ==> v.value == Verify(uuids, commit, store, document)
  {
    var findings, anchored := FindAnchored(uuids, commit, store, failures, document.runs);
    if findings.None? || failures.heads {
      return None;
    }
    var others := FindOthers(uuids, commit, store, failures, store.heads, anchored);
    if others.None? {
      return None;
    }
    v := Some(Assemble(document, findings.value + others.value));
  }
}
