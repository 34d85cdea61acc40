/** What a verification against an anchor means: its counts close, and its exit
    code says exactly what became of the store since the anchor was taken. */
module Judgement {
  import opened Anchor
  import opened Json
  import opened Sequences
  import opened Text

  // --- the counts -----------------------------------------------------------

  /** One finding for each anchored run, none of them new; and for other runs only
      new or broken ones. */
  predicate WellJudged(document: Document, anchored: seq<RunFinding>, others: seq<RunFinding>) {
    && |anchored| == |document.runs|
    && (forall r :: r in anchored ==> r.run in Names(document.runs) && !r.finding.New?)
    && (forall r :: r in others ==> r.run !in Names(document.runs) && (r.finding.New? || r.finding.Broken?))
  }

  lemma {:induction false} CountAll<T(!new)>(s: seq<T>, counted: T -> bool)
    ensures (forall x :: x in s ==> counted(x)) ==> Count(s, counted) == |s|
    ensures (forall x :: x in s ==> !counted(x)) <==> Count(s, counted) == 0
  {
    if s != [] {
      CountAll(s[1..], counted);
      assert forall x :: x in s <==> x == s[0] || x in s[1..];
    }
  }

  lemma {:induction false} CountEither<T(!new)>(s: seq<T>, a: T -> bool, b: T -> bool)
    requires forall x :: x in s ==> a(x) != b(x)
    ensures Count(s, a) + Count(s, b) == |s|
  {
    if s != [] {
      CountEither(s[1..], a, b);
    }
  }

  lemma CountSplit<T(!new)>(a: seq<T>, b: seq<T>, sorted: seq<T>, counted: T -> bool)
    requires multiset(sorted) == multiset(a + b)
    ensures Count(sorted, counted) == Count(a, counted) + Count(b, counted)
  {
    CountAnyOrder(sorted, a + b, counted);
    RetainBoth(a, b, counted);
  }

  lemma AnchoredCounts(document: Document, anchored: seq<RunFinding>, others: seq<RunFinding>)
    requires WellJudged(document, anchored, others)
    ensures var names := Names(document.runs);
            && |anchored| ==
               Count(anchored, ThatIs(IntactOnly())) + Count(anchored, ThatIsNamed(Failing(), names, true))
            && Count(anchored, ThatIs(NewOnly())) == 0
            && Count(anchored, ThatIsNamed(BrokenOnly(), names, false)) == 0
  {
    var names := Names(document.runs);
    CountEither(anchored, ThatIs(IntactOnly()), ThatIsNamed(Failing(), names, true));
    CountAll(anchored, ThatIs(NewOnly()));
    CountAll(anchored, ThatIsNamed(BrokenOnly(), names, false));
  }

  lemma OtherCounts(document: Document, anchored: seq<RunFinding>, others: seq<RunFinding>)
    requires WellJudged(document, anchored, others)
    ensures var names := Names(document.runs);
            && Count(others, ThatIs(NewOnly())) + Count(others, ThatIsNamed(BrokenOnly(), names, false)) == |others|
            && Count(others, ThatIs(IntactOnly())) == 0
            && Count(others, ThatIsNamed(Failing(), names, true)) == 0
  {
    var names := Names(document.runs);
    CountEither(others, ThatIs(NewOnly()), ThatIsNamed(BrokenOnly(), names, false));
    CountAll(others, ThatIs(IntactOnly()));
    CountAll(others, ThatIsNamed(Failing(), names, true));
  }

  /** The findings a verification lists are those it was given, by run. */
  lemma Listed(document: Document, findings: seq<RunFinding>)
    ensures var v := Assemble(document, findings);
            IsSorted(v.runs, ByRun()) && multiset(v.runs) == multiset(findings)
  {
    ByRunRanks();
    SortKeeps(findings, ByRun());
  }

  lemma ByRunRanks()
    ensures Ranks(ByRun())
  {
    forall a: RunFinding, b: RunFinding
      ensures ByRun()(a, b) ==> !ByRun()(b, a)
    {
      LessTrichotomy(a.run, b.run);
    }
    forall a: RunFinding, b: RunFinding, c: RunFinding | !ByRun()(b, a) && !ByRun()(c, b)
      ensures !ByRun()(c, a)
    {
      NotLessTransitive(a.run, b.run, c.run);
    }
  }

  /** The counts close: the anchored runs are the intact and the failed ones, all
      findings are those and the new and the broken ones outside the anchor, and the
      verification passes exactly when no finding is a failure. */
  lemma CountsClose(document: Document, anchored: seq<RunFinding>, others: seq<RunFinding>)
    requires WellJudged(document, anchored, others)
    ensures var v := Assemble(document, anchored + others);
            && v.intact + v.failed == v.anchored
            && |v.runs| == v.intact + v.failed + v.unseen + v.brokenUnanchored
            && (v.ok <==> forall r :: r in anchored + others ==> !IsFailure(r.finding))
            && (ExitCode(v) == EXIT_INTACT <==> v.ok)
  {
    var v := Assemble(document, anchored + others);
    Listed(document, anchored + others);
    assert |multiset(v.runs)| == |v.runs| && |multiset(anchored + others)| == |anchored + others|;
    Tallied(document, anchored, others);
    AnchoredCounts(document, anchored, others);
    OtherCounts(document, anchored, others);
    NoFailures(document, anchored, others);
  }

  /** Each count is that over the anchored findings and that over the others. */
  lemma Tallied(document: Document, anchored: seq<RunFinding>, others: seq<RunFinding>)
    ensures var v := Assemble(document, anchored + others);
            var names := Names(document.runs);
            && v.intact == Count(anchored, ThatIs(IntactOnly())) + Count(others, ThatIs(IntactOnly()))
            && v.unseen == Count(anchored, ThatIs(NewOnly())) + Count(others, ThatIs(NewOnly()))
            && v.failed ==
               Count(anchored, ThatIsNamed(Failing(), names, true)) + Count(others, ThatIsNamed(Failing(), names, true))
            && v.brokenUnanchored ==
               Count(anchored, ThatIsNamed(BrokenOnly(), names, false)) +
               Count(others, ThatIsNamed(BrokenOnly(), names, false))
  {
    var v, names := Assemble(document, anchored + others), Names(document.runs);
    Listed(document, anchored + others);
    CountSplit(anchored, others, v.runs, ThatIs(IntactOnly()));
    CountSplit(anchored, others, v.runs, ThatIs(NewOnly()));
    CountSplit(anchored, others, v.runs, ThatIsNamed(Failing(), names, true));
    CountSplit(anchored, others, v.runs, ThatIsNamed(BrokenOnly(), names, false));
  }

  lemma NoFailures(document: Document, anchored: seq<RunFinding>, others: seq<RunFinding>)
    requires WellJudged(document, anchored, others)
    ensures var names := Names(document.runs);
            (forall r :: r in anchored + others ==> !IsFailure(r.finding)) <==>
            Count(anchored, ThatIsNamed(Failing(), names, true)) == 0 &&
            Count(others, ThatIsNamed(BrokenOnly(), names, false)) == 0
  {
    var names := Names(document.runs);
    CountAll(anchored, ThatIsNamed(Failing(), names, true));
    CountAll(others, ThatIsNamed(BrokenOnly(), names, false));
  }

  lemma {:induction false} OthersHold(uuids: Uuids, commit: Commitment, store: Store, heads: seq<Head>,
                                      names: set<string>, r: RunFinding)
    ensures r in OtherFindings(uuids, commit, store, heads, names) <==>
            exists h :: h in heads && uuids.show(h.id) !in names && Unanchored(uuids, commit, store, h) == Some(r)
  {
    if heads != [] {
      OthersHold(uuids, commit, store, heads[1..], names, r);
    }
  }

  lemma VerifyIsWellJudged(uuids: Uuids, commit: Commitment, store: Store, document: Document)
    requires NamesRuns(uuids, document.runs)
    ensures WellJudged(document, AnchoredFindings(uuids, commit, store, document.runs),
                       OtherFindings(uuids, commit, store, store.heads, Names(document.runs)))
  {
    var names := Names(document.runs);
    forall r | r in OtherFindings(uuids, commit, store, store.heads, names)
      ensures r.run !in names && (r.finding.New? || r.finding.Broken?)
    {
      OthersHold(uuids, commit, store, store.heads, names, r);
    }
  }

  // --- taking an anchor -----------------------------------------------------

  function ByEntry(): (AnchoredRun, AnchoredRun) -> bool {
    (a: AnchoredRun, b: AnchoredRun) => Less(a.run, b.run)
  }

  lemma ByEntryRanks()
    ensures Ranks(ByEntry())
  {
    forall a: AnchoredRun, b: AnchoredRun
      ensures ByEntry()(a, b) ==> !ByEntry()(b, a)
    {
      LessTrichotomy(a.run, b.run);
    }
    forall a: AnchoredRun, b: AnchoredRun, c: AnchoredRun | !ByEntry()(b, a) && !ByEntry()(c, b)
      ensures !ByEntry()(c, a)
    {
      NotLessTransitive(a.run, b.run, c.run);
    }
  }

  function EntryFor(uuids: Uuids, head: Head): AnchoredRun {
    AnchoredRun(uuids.show(head.id), Num(Decimal(head.len)), head.hash)
  }

  function EntriesFor(uuids: Uuids, heads: seq<Head>): (entries: seq<AnchoredRun>)
    ensures |entries| == |heads|
    ensures forall i :: 0 <= i < |heads| ==> entries[i] == EntryFor(uuids, heads[i])
  {
    seq(|heads|, i requires 0 <= i < |heads| => EntryFor(uuids, heads[i]))
  }

  function Take(uuids: Uuids, spec: string, heads: seq<Head>): Document {
    Document(ANCHOR_SPEC, spec, Sort(EntriesFor(uuids, heads), ByEntry()))
  }

  /** Records every head a store hands back, and sorts the records in place. */
  method TakeAnchor(uuids: Uuids, spec: string, heads: seq<Head>) returns (document: Document)
    ensures document == Take(uuids, spec, heads)
  {
    var entries: seq<AnchoredRun> := [];
    for i := 0 to |heads|
      invariant |entries| == i
      invariant forall k :: 0 <= k < i ==> entries[k] == EntryFor(uuids, heads[k])
    {
      entries := entries + [EntryFor(uuids, heads[i])];
    }
    var runs: seq<AnchoredRun> := [];
    for i := 0 to |entries|
      invariant runs == Sort(entries[..i], ByEntry())
    {
      assert entries[..i + 1][..i] == entries[..i];
      runs := Insert(runs, entries[i], ByEntry());
    }
    assert entries[..|entries|] == entries == EntriesFor(uuids, heads);
    document := Document(ANCHOR_SPEC, spec, runs);
  }

  /** The anchor holds an entry for each head and no other, by run. */
  lemma TakenEntries(uuids: Uuids, spec: string, heads: seq<Head>, e: AnchoredRun)
    ensures e in Take(uuids, spec, heads).runs <==> exists h :: h in heads && e == EntryFor(uuids, h)
    ensures IsSorted(Take(uuids, spec, heads).runs, ByEntry())
  {
    var entries := EntriesFor(uuids, heads);
    ByEntryRanks();
    SortKeeps(entries, ByEntry());
    SortMember(entries, ByEntry(), e);
    if h :| h in heads && e == EntryFor(uuids, h) {
      var i :| 0 <= i < |heads| && heads[i] == h;
      assert entries[i] == e;
    }
  }

  // --- a store and its evolution --------------------------------------------

  predicate Readable(store: Store, id: nat) {
    id in store.logs && store.logs[id].refusal.None? && store.logs[id].events != []
  }

  predicate HeadsRun(commit: Commitment, store: Store, h: Head) {
    h.id in store.logs && h.len == |store.logs[h.id].events| && h.hash == commit(store.logs[h.id].events)
  }

  /** Every log of the store reads, and its heads are those of its runs: one each,
      over all the events the run holds. */
  ghost predicate Sound(commit: Commitment, store: Store) {
    && (forall id :: id in store.logs ==> Readable(store, id) && |store.logs[id].events| <= MAX_LENGTH)
    && (forall h :: h in store.heads ==> HeadsRun(commit, store, h))
    && (forall id :: id in store.logs ==> exists h :: h in store.heads && h.id == id)
  }

  /** The run reads, and starts with the events it had. */
  predicate Holds(before: Store, after: Store, id: nat)
    requires id in before.logs
  {
    Readable(after, id) && before.logs[id].events <= after.logs[id].events
  }

  lemma EntryLength(uuids: Uuids, h: Head)
    requires 0 < h.len <= MAX_LENGTH
    ensures RecordedLength(EntryFor(uuids, h).len) == Some(h.len)
  {
    DecimalRoundTrip(h.len);
  }

  /** An anchored run is intact exactly when the store still holds the events it was
      anchored at. */
  lemma IntactExactly(uuids: Uuids, commit: Commitment, before: Store, after: Store, h: Head)
    requires Canonical(uuids) && Binding(commit) && Sound(commit, before) && h in before.heads
    ensures uuids.parse(uuids.show(h.id)) == Some(h.id)
    ensures IsFailure(Judged(uuids, commit, after, EntryFor(uuids, h)).finding) <==> !Holds(before, after, h.id)
  {
    var e, events := EntryFor(uuids, h), before.logs[h.id].events;
    EntryLength(uuids, h);
    if Readable(after, h.id) && |after.logs[h.id].events| >= h.len {
      var now := after.logs[h.id].events;
      assert commit(now[..h.len]) == commit(events) ==> now[..h.len] == events;
      assert events <= now <==> now[..h.len] == events;
    }
  }

  lemma TakenNamesRuns(uuids: Uuids, spec: string, heads: seq<Head>)
    requires Canonical(uuids)
    ensures NamesRuns(uuids, Take(uuids, spec, heads).runs)
    ensures forall id: nat :: uuids.show(id) in Names(Take(uuids, spec, heads).runs) <==>
            exists h :: h in heads && h.id == id
  {
    var document := Take(uuids, spec, heads);
    forall e | e in document.runs
      ensures uuids.parse(e.run).Some?
    {
      TakenEntries(uuids, spec, heads, e);
    }
    forall id: nat
      ensures uuids.show(id) in Names(document.runs) <==> exists h :: h in heads && h.id == id
    {
      if uuids.show(id) in Names(document.runs) {
        var e :| e in document.runs && e.run == uuids.show(id);
        TakenEntries(uuids, spec, heads, e);
        var h :| h in heads && e == EntryFor(uuids, h);
        assert uuids.parse(uuids.show(h.id)) == Some(h.id);
        assert uuids.parse(uuids.show(id)) == Some(id);
      }
      if h :| h in heads && h.id == id {
        TakenEntries(uuids, spec, heads, EntryFor(uuids, h));
      }
    }
  }

  /** A run outside the anchor whose log the store refuses. */
  predicate BrokenOutside(before: Store, after: Store, h: Head) {
    h.id !in before.logs && h.id in after.logs && after.logs[h.id].refusal.Some?
  }

  /** The verdict on any later store, whatever was done to it: a verification
      against an anchor passes if and only if every run anchored still starts with
      the events it was anchored at, and no other run's log is refused. */
  lemma VerdictIsExact(uuids: Uuids, commit: Commitment, spec: string, before: Store, after: Store)
    requires Canonical(uuids) && Binding(commit) && Sound(commit, before)
    ensures NamesRuns(uuids, Take(uuids, spec, before.heads).runs)
    ensures ExitCode(Verify(uuids, commit, after, Take(uuids, spec, before.heads))) == EXIT_INTACT <==>
            (forall id :: id in before.logs ==> Holds(before, after, id)) &&
            (forall h :: h in after.heads ==> !BrokenOutside(before, after, h))
  {
    var document := Take(uuids, spec, before.heads);
    TakenNamesRuns(uuids, spec, before.heads);
    VerifyIsWellJudged(uuids, commit, after, document);
    var anchored := AnchoredFindings(uuids, commit, after, document.runs);
    var others := OtherFindings(uuids, commit, after, after.heads, Names(document.runs));
    CountsClose(document, anchored, others);
    AnchoredVerdict(uuids, commit, spec, before, after);
    OthersVerdict(uuids, commit, spec, before, after);
  }

  /** Each anchored run has a finding, and each finding is of an anchored run. */
  lemma FindingOfRun(uuids: Uuids, commit: Commitment, spec: string, before: Store, after: Store, h: Head)
    requires NamesRuns(uuids, Take(uuids, spec, before.heads).runs)
    requires uuids.parse(uuids.show(h.id)).Some? && h in before.heads
    ensures Judged(uuids, commit, after, EntryFor(uuids, h)) in
            AnchoredFindings(uuids, commit, after, Take(uuids, spec, before.heads).runs)
  {
    var runs := Take(uuids, spec, before.heads).runs;
    TakenEntries(uuids, spec, before.heads, EntryFor(uuids, h));
    var i :| 0 <= i < |runs| && runs[i] == EntryFor(uuids, h);
    assert AnchoredFindings(uuids, commit, after, runs)[i] in AnchoredFindings(uuids, commit, after, runs);
  }

  lemma RunOfFinding(uuids: Uuids, commit: Commitment, spec: string, before: Store, after: Store,
                     r: RunFinding) returns (h: Head)
    requires Canonical(uuids) && NamesRuns(uuids, Take(uuids, spec, before.heads).runs)
    requires r in AnchoredFindings(uuids, commit, after, Take(uuids, spec, before.heads).runs)
    ensures h in before.heads && uuids.parse(uuids.show(h.id)).Some? &&
            r == Judged(uuids, commit, after, EntryFor(uuids, h))
  {
    var runs := Take(uuids, spec, before.heads).runs;
    var i :| 0 <= i < |runs| && AnchoredFindings(uuids, commit, after, runs)[i] == r;
    TakenEntries(uuids, spec, before.heads, runs[i]);
    h :| h in before.heads && runs[i] == EntryFor(uuids, h);
  }

  lemma AnchoredVerdict(uuids: Uuids, commit: Commitment, spec: string, before: Store, after: Store)
    requires Canonical(uuids) && Binding(commit) && Sound(commit, before)
    requires NamesRuns(uuids, Take(uuids, spec, before.heads).runs)
    ensures var anchored := AnchoredFindings(uuids, commit, after, Take(uuids, spec, before.heads).runs);
            (forall r :: r in anchored ==> !IsFailure(r.finding)) <==>
            (forall id :: id in before.logs ==> Holds(before, after, id))
  {
    var anchored := AnchoredFindings(uuids, commit, after, Take(uuids, spec, before.heads).runs);
    if r :| r in anchored && IsFailure(r.finding) {
      var id := LostByFailure(uuids, commit, spec, before, after, r);
      assert !Holds(before, after, id);
    }
    if id :| id in before.logs && !Holds(before, after, id) {
      var r := FailureOfLost(uuids, commit, spec, before, after, id);
      assert r in anchored;
    }
  }

  lemma LostByFailure(uuids: Uuids, commit: Commitment, spec: string, before: Store, after: Store,
                      r: RunFinding) returns (id: nat)
    requires Canonical(uuids) && Binding(commit) && Sound(commit, before)
    requires NamesRuns(uuids, Take(uuids, spec, before.heads).runs)
    requires r in AnchoredFindings(uuids, commit, after, Take(uuids, spec, before.heads).runs) && IsFailure(r.finding)
    ensures id in before.logs && !Holds(before, after, id)
  {
    var h := RunOfFinding(uuids, commit, spec, before, after, r);
    IntactExactly(uuids, commit, before, after, h);
    id := h.id;
  }

  lemma FailureOfLost(uuids: Uuids, commit: Commitment, spec: string, before: Store, after: Store,
                      id: nat) returns (r: RunFinding)
    requires Canonical(uuids) && Binding(commit) && Sound(commit, before)
    requires NamesRuns(uuids, Take(uuids, spec, before.heads).runs)
    requires id in before.logs && !Holds(before, after, id)
    ensures r in AnchoredFindings(uuids, commit, after, Take(uuids, spec, before.heads).runs) && IsFailure(r.finding)
  {
    var h :| h in before.heads && h.id == id;
    IntactExactly(uuids, commit, before, after, h);
    FindingOfRun(uuids, commit, spec, before, after, h);
    r := Judged(uuids, commit, after, EntryFor(uuids, h));
  }

  lemma OthersVerdict(uuids: Uuids, commit: Commitment, spec: string, before: Store, after: Store)
    requires Canonical(uuids) && Sound(commit, before)
    ensures var others := OtherFindings(uuids, commit, after, after.heads, Names(Take(uuids, spec, before.heads).runs));
            (forall r :: r in others ==> !IsFailure(r.finding)) <==>
            (forall h :: h in after.heads ==> !BrokenOutside(before, after, h))
  {
    var names := Names(Take(uuids, spec, before.heads).runs);
    var others := OtherFindings(uuids, commit, after, after.heads, names);
    TakenNamesRuns(uuids, spec, before.heads);
    if forall r :: r in others ==> !IsFailure(r.finding) {
      forall h | h in after.heads
        ensures !BrokenOutside(before, after, h)
      {
        if BrokenOutside(before, after, h) {
          OthersHold(uuids, commit, after, after.heads, names, Unanchored(uuids, commit, after, h).value);
        }
      }
    }
    if forall h :: h in after.heads ==> !BrokenOutside(before, after, h) {
      forall r | r in others
        ensures !IsFailure(r.finding)
      {
        OthersHold(uuids, commit, after, after.heads, names, r);
      }
    }
  }

  // --- what the verdict is worth --------------------------------------------

  /** The store after one event more, on a run it has or on a new one. */
  ghost predicate Appended(commit: Commitment, before: Store, after: Store, id: nat, event: string) {
    && Sound(commit, after)
    && after.logs == before.logs[id := Log((if id in before.logs then before.logs[id].events else []) + [event], None)]
  }

  ghost predicate OneMore(commit: Commitment, before: Store, after: Store) {
    exists id, event :: Appended(commit, before, after, id, event)
  }

  /** Stores of which each is the one before it with one event more. */
  ghost predicate Grows(commit: Commitment, stores: seq<Store>) {
    forall i :: 0 < i < |stores| ==> OneMore(commit, stores[i - 1], stores[i])
  }

  lemma AppendedHolds(commit: Commitment, first: Store, before: Store, after: Store)
    requires forall id :: id in first.logs ==> Holds(first, before, id)
    requires OneMore(commit, before, after)
    ensures forall id :: id in first.logs ==> Holds(first, after, id)
  {
    var id, event :| Appended(commit, before, after, id, event);
    assert Readable(after, id);
  }

  lemma {:induction false} GrownHolds(commit: Commitment, stores: seq<Store>)
    requires stores != [] && Sound(commit, stores[0]) && Grows(commit, stores)
    ensures Sound(commit, stores[|stores| - 1])
    ensures forall id :: id in stores[0].logs ==> Holds(stores[0], stores[|stores| - 1], id)
    decreases |stores|
  {
    if |stores| > 1 {
      var n := |stores| - 1;
      GrownHolds(commit, stores[..n]);
      assert OneMore(commit, stores[n - 1], stores[n]);
      AppendedHolds(commit, stores[0], stores[n - 1], stores[n]);
    }
  }

  /** A store that only appends after its anchor is taken always verifies. */
  lemma AppendOnlyPasses(uuids: Uuids, commit: Commitment, spec: string, stores: seq<Store>)
    requires Canonical(uuids) && Binding(commit)
    requires stores != [] && Sound(commit, stores[0]) && Grows(commit, stores)
    ensures var document := Take(uuids, spec, stores[0].heads);
            NamesRuns(uuids, document.runs) &&
            ExitCode(Verify(uuids, commit, stores[|stores| - 1], document)) == EXIT_INTACT
  {
    GrownHolds(commit, stores);
    VerdictIsExact(uuids, commit, spec, stores[0], stores[|stores| - 1]);
  }

  /** Removing an anchored run, cutting it short, or changing any event that was
      anchored is caught, however the store's own chain was rebuilt. */
  lemma TamperingIsCaught(uuids: Uuids, commit: Commitment, spec: string, before: Store, after: Store, id: nat, k: nat)
    requires Canonical(uuids) && Binding(commit) && Sound(commit, before)
    requires id in before.logs && k < |before.logs[id].events|
    requires id in after.logs && k < |after.logs[id].events| ==> after.logs[id].events[k] != before.logs[id].events[k]
    ensures NamesRuns(uuids, Take(uuids, spec, before.heads).runs)
    ensures ExitCode(Verify(uuids, commit, after, Take(uuids, spec, before.heads))) == EXIT_TAMPER
  {
    VerdictIsExact(uuids, commit, spec, before, after);
    assert !Holds(before, after, id);
  }

  // --- one finding a run ----------------------------------------------------

  /** No two findings are about one run, however they spell it. */
  ghost predicate DistinctRuns(uuids: Uuids, findings: seq<RunFinding>) {
    forall i, j :: 0 <= i < j < |findings| ==> uuids.parse(findings[i].run) != uuids.parse(findings[j].run)
  }

  /** No two entries name one run, however they spell it. */
  ghost predicate DistinctEntries(uuids: Uuids, entries: seq<AnchoredRun>) {
    forall i, j :: 0 <= i < j < |entries| ==> uuids.parse(entries[i].run) != uuids.parse(entries[j].run)
  }

  /** The entry names the run of a head that the store would list as a run, and does
      not spell it as the store does. */
  predicate Misspells(uuids: Uuids, commit: Commitment, store: Store, e: AnchoredRun, h: Head) {
    && uuids.parse(e.run) == Some(h.id)
    && uuids.show(h.id) != e.run
    && Unanchored(uuids, commit, store, h).Some?
  }

  /** Every entry for a run of the store spells it as the store does. */
  ghost predicate SpelledAsStored(uuids: Uuids, commit: Commitment, store: Store, entries: seq<AnchoredRun>) {
    forall e, h :: e in entries && h in store.heads ==> !Misspells(uuids, commit, store, e, h)
  }

  ghost predicate OneHeadEach(store: Store) {
    forall i, j :: 0 <= i < j < |store.heads| ==> store.heads[i].id != store.heads[j].id
  }

  lemma {:induction false} OthersDistinct(uuids: Uuids, commit: Commitment, store: Store, heads: seq<Head>,
                                          names: set<string>)
    requires Canonical(uuids) && forall i, j :: 0 <= i < j < |heads| ==> heads[i].id != heads[j].id
    ensures DistinctRuns(uuids, OtherFindings(uuids, commit, store, heads, names))
    decreases |heads|
  {
    if heads != [] {
      var rest := OtherFindings(uuids, commit, store, heads[1..], names);
      OthersDistinct(uuids, commit, store, heads[1..], names);
      forall r | r in rest
        ensures uuids.parse(r.run) != Some(heads[0].id)
      {
        OthersHold(uuids, commit, store, heads[1..], names, r);
        var h :| h in heads[1..] && Unanchored(uuids, commit, store, h) == Some(r);
        assert uuids.parse(uuids.show(h.id)) == Some(h.id);
      }
      assert uuids.parse(uuids.show(heads[0].id)) == Some(heads[0].id);
    }
  }

  /** An anchored finding and another one are about one run exactly when an entry
      misspells the run of a head and no entry spells it as the store does. */
  lemma AcrossDistinct(uuids: Uuids, commit: Commitment, store: Store, entries: seq<AnchoredRun>, e: AnchoredRun)
    requires Canonical(uuids) && NamesRuns(uuids, entries) && e in entries
    ensures (exists r :: r in OtherFindings(uuids, commit, store, store.heads, Names(entries)) &&
                         uuids.parse(r.run) == uuids.parse(e.run)) <==>
            (exists h :: h in store.heads && Misspells(uuids, commit, store, e, h) &&
                         uuids.show(h.id) !in Names(entries))
  {
    var names := Names(entries);
    var others := OtherFindings(uuids, commit, store, store.heads, names);
    if r :| r in others && uuids.parse(r.run) == uuids.parse(e.run) {
      OthersHold(uuids, commit, store, store.heads, names, r);
      var h :| h in store.heads && uuids.show(h.id) !in names && Unanchored(uuids, commit, store, h) == Some(r);
      assert uuids.parse(uuids.show(h.id)) == Some(h.id);
      assert Misspells(uuids, commit, store, e, h);
    }
    if h :| h in store.heads && Misspells(uuids, commit, store, e, h) && uuids.show(h.id) !in names {
      var r := Unanchored(uuids, commit, store, h).value;
      OthersHold(uuids, commit, store, store.heads, names, r);
      assert uuids.parse(uuids.show(h.id)) == Some(h.id);
    }
  }

  /** Two entries for one run give two findings for it. */
  lemma EntriesDistinct(uuids: Uuids, commit: Commitment, store: Store, document: Document)
    requires NamesRuns(uuids, document.runs) && DistinctRuns(uuids, Findings(uuids, commit, store, document))
    ensures DistinctEntries(uuids, document.runs)
  {
    var runs, findings := document.runs, Findings(uuids, commit, store, document);
    forall i, j | 0 <= i < j < |runs|
      ensures uuids.parse(runs[i].run) != uuids.parse(runs[j].run)
    {
      assert findings[i].run == runs[i].run && findings[j].run == runs[j].run;
    }
  }

  /** An entry whose run is found outside the anchor too. */
  lemma OtherRepeats(uuids: Uuids, commit: Commitment, store: Store, document: Document, i: nat)
    requires NamesRuns(uuids, document.runs) && i < |document.runs|
    requires exists r :: r in OtherFindings(uuids, commit, store, store.heads, Names(document.runs)) &&
                         uuids.parse(r.run) == uuids.parse(document.runs[i].run)
    ensures !DistinctRuns(uuids, Findings(uuids, commit, store, document))
  {
    var runs, findings := document.runs, Findings(uuids, commit, store, document);
    var others := OtherFindings(uuids, commit, store, store.heads, Names(runs));
    var k :| 0 <= k < |others| && uuids.parse(others[k].run) == uuids.parse(runs[i].run);
    assert findings[i].run == runs[i].run && findings[|runs| + k] == others[k];
  }

  /** An entry that misspells the run of a head: either another entry spells it as
      the store does, or the run is found twice. */
  lemma MisspelledTwice(uuids: Uuids, commit: Commitment, store: Store, document: Document, e: AnchoredRun, h: Head)
    requires Canonical(uuids) && NamesRuns(uuids, document.runs)
    requires e in document.runs && h in store.heads && Misspells(uuids, commit, store, e, h)
    ensures !DistinctRuns(uuids, Findings(uuids, commit, store, document))
  {
    var runs := document.runs;
    var i :| 0 <= i < |runs| && runs[i] == e;
    assert uuids.parse(uuids.show(h.id)) == Some(h.id);
    if uuids.show(h.id) in Names(runs) {
      var j :| 0 <= j < |runs| && runs[j].run == uuids.show(h.id);
      if DistinctRuns(uuids, Findings(uuids, commit, store, document)) {
        EntriesDistinct(uuids, commit, store, document);
      }
    } else {
      AcrossDistinct(uuids, commit, store, runs, e);
      OtherRepeats(uuids, commit, store, document, i);
    }
  }

  lemma AllDistinct(uuids: Uuids, commit: Commitment, store: Store, document: Document)
    requires Canonical(uuids) && NamesRuns(uuids, document.runs) && OneHeadEach(store)
    requires DistinctEntries(uuids, document.runs) && SpelledAsStored(uuids, commit, store, document.runs)
    ensures DistinctRuns(uuids, Findings(uuids, commit, store, document))
  {
    var runs, findings := document.runs, Findings(uuids, commit, store, document);
    var others := OtherFindings(uuids, commit, store, store.heads, Names(runs));
    OthersDistinct(uuids, commit, store, store.heads, Names(runs));
    forall i, j | 0 <= i < j < |findings|
      ensures uuids.parse(findings[i].run) != uuids.parse(findings[j].run)
    {
      if j < |runs| {
        assert findings[i].run == runs[i].run && findings[j].run == runs[j].run;
      } else if i < |runs| {
        assert findings[i].run == runs[i].run && findings[j] == others[j - |runs|];
        AcrossDistinct(uuids, commit, store, runs, runs[i]);
      } else {
        assert findings[i] == others[i - |runs|] && findings[j] == others[j - |runs|];
      }
    }
  }

  /** When each run gets one finding: an anchor that the check accepts, against a
      store of one head a run, gives no two findings for one run if and only if no
      two entries name one run and no entry spells a run of the store in another
      way than the store. */
  lemma OneFindingEach(uuids: Uuids, commit: Commitment, store: Store, document: Document)
    requires Canonical(uuids) && Answers(uuids, document.runs, Accepted) && OneHeadEach(store)
    ensures NamesRuns(uuids, document.runs)
    ensures DistinctRuns(uuids, Findings(uuids, commit, store, document)) <==>
            DistinctEntries(uuids, document.runs) && SpelledAsStored(uuids, commit, store, document.runs)
  {
    AnswerIsExact(uuids, document.runs, Accepted, Accepted);
    if DistinctRuns(uuids, Findings(uuids, commit, store, document)) {
      EntriesDistinct(uuids, commit, store, document);
      forall e, h | e in document.runs && h in store.heads
        ensures !Misspells(uuids, commit, store, e, h)
      {
        if Misspells(uuids, commit, store, e, h) {
          MisspelledTwice(uuids, commit, store, document, e, h);
        }
      }
    } else if DistinctEntries(uuids, document.runs) && SpelledAsStored(uuids, commit, store, document.runs) {
      AllDistinct(uuids, commit, store, document);
    }
  }

  /** An entry for a run spelled in some way. */
  function EntryAs(run: string, length: nat, hash: string): AnchoredRun {
    AnchoredRun(run, Num(Decimal(length)), hash)
  }

  /** A store that holds one run, of one event. */
  function OneRun(commit: Commitment, id: nat, event: string): Store {
    Store(map[id := Log([event], None)], [Head(id, 1, commit([event]))])
  }

  lemma OneRunStands(uuids: Uuids, commit: Commitment, run: string, id: nat, event: string)
    requires IsChainHash(commit([event])) && uuids.parse(run) == Some(id)
    ensures var e := EntryAs(run, 1, commit([event]));
            && FieldProblem(uuids, e).None?
            && Judged(uuids, commit, OneRun(commit, id, event), e).finding == Intact(1, 1, 0)
  {
    DecimalRoundTrip(1);
    assert [event][..1] == [event];
  }

  lemma NothingElse(uuids: Uuids, commit: Commitment, id: nat, event: string, names: set<string>)
    requires uuids.show(id) in names
    ensures OtherFindings(uuids, commit, OneRun(commit, id, event), OneRun(commit, id, event).heads, names) == []
  {
    assert OneRun(commit, id, event).heads[1..] == [];
  }

  /** An entry that spells its run in its own way: the anchor is accepted, and its
      one run is counted once as it stands and once more as new. */
  lemma OtherSpellingPasses(uuids: Uuids, commit: Commitment, b: string, id: nat, event: string)
    requires IsChainHash(commit([event])) && uuids.parse(b) == Some(id) && uuids.show(id) != b
    ensures var runs := [EntryAs(b, 1, commit([event]))];
            var document := Document(ANCHOR_SPEC, "", runs);
            && Answers(uuids, runs, Accepted)
            && NamesRuns(uuids, runs)
            && Findings(uuids, commit, OneRun(commit, id, event), document) ==
               [RunFinding(b, Intact(1, 1, 0)), RunFinding(uuids.show(id), New(1))]
            && var v := Verify(uuids, commit, OneRun(commit, id, event), document);
               v.ok && v.anchored == 1 && v.intact == 1 && v.unseen == 1
  {
    var store := OneRun(commit, id, event);
    var runs := [EntryAs(b, 1, commit([event]))];
    var document := Document(ANCHOR_SPEC, "", runs);
    OneRunStands(uuids, commit, b, id, event);
    VerifyIsWellJudged(uuids, commit, store, document);
    assert runs[0] in runs;
    OneMoreIsNew(uuids, commit, id, event, Names(runs));
    var anchored := AnchoredFindings(uuids, commit, store, runs);
    var others := OtherFindings(uuids, commit, store, store.heads, Names(runs));
    assert anchored == [RunFinding(b, Intact(1, 1, 0))];
    OneOfEach(document, anchored, others);
  }

  lemma OneMoreIsNew(uuids: Uuids, commit: Commitment, id: nat, event: string, names: set<string>)
    requires uuids.show(id) !in names
    ensures OtherFindings(uuids, commit, OneRun(commit, id, event), OneRun(commit, id, event).heads, names) ==
            [RunFinding(uuids.show(id), New(1))]
  {
    assert OneRun(commit, id, event).heads[1..] == [];
  }

  lemma OneOfEach(document: Document, anchored: seq<RunFinding>, others: seq<RunFinding>)
    requires |document.runs| == 1 && WellJudged(document, anchored, others) && |others| == 1
    requires anchored[0].finding == Intact(1, 1, 0) && others[0].finding == New(1)
    ensures var v := Assemble(document, anchored + others); v.ok && v.anchored == 1 && v.intact == 1 && v.unseen == 1
  {
    CountsClose(document, anchored, others);
    Tallied(document, anchored, others);
    AnchoredCounts(document, anchored, others);
    OtherCounts(document, anchored, others);
    NoFailures(document, anchored, others);
  }

  lemma PairCloses(document: Document, anchored: seq<RunFinding>)
    requires |document.runs| == 2 && WellJudged(document, anchored, [])
    requires anchored[0].finding == Intact(1, 1, 0) == anchored[1].finding
    ensures var v := Assemble(document, anchored); v.ok && v.anchored == 2 && v.intact == 2
  {
    assert anchored + [] == anchored;
    CountsClose(document, anchored, []);
  }

  /** Spelling one run in two ways gets past the check for a run named twice: the
      anchor is accepted, and its one run is counted as two that stand. */
  lemma TwoSpellingsPass(uuids: Uuids, commit: Commitment, a: string, b: string, id: nat, event: string)
    requires IsChainHash(commit([event])) && a != b && uuids.parse(a) == uuids.parse(b) == Some(id) &&
             uuids.show(id) == a
    ensures var runs := [EntryAs(a, 1, commit([event])), EntryAs(b, 1, commit([event]))];
            && Answers(uuids, runs, Accepted)
            && NamesRuns(uuids, runs)
            && var v := Verify(uuids, commit, OneRun(commit, id, event), Document(ANCHOR_SPEC, "", runs));
               v.ok && v.anchored == 2 && v.intact == 2
  {
    var store := OneRun(commit, id, event);
    var runs := [EntryAs(a, 1, commit([event])), EntryAs(b, 1, commit([event]))];
    var document := Document(ANCHOR_SPEC, "", runs);
    OneRunStands(uuids, commit, a, id, event);
    OneRunStands(uuids, commit, b, id, event);
    VerifyIsWellJudged(uuids, commit, store, document);
    assert runs[0] in runs;
    NothingElse(uuids, commit, id, event, Names(runs));
    var anchored := AnchoredFindings(uuids, commit, store, runs);
    PairCloses(document, anchored);
    assert anchored + [] == anchored;
  }

  // --- the command ----------------------------------------------------------

  /** The file is an anchor this program can compare with a store. */
  predicate Comparable(uuids: Uuids, chain: string, document: Document) {
    && document.anchor == ANCHOR_SPEC && document.chain == chain
    && (forall i :: 0 <= i < |document.runs| ==> FieldProblem(uuids, document.runs[i]).None?)
    && (forall i, j :: 0 <= i < j < |document.runs| ==> document.runs[i].run != document.runs[j].run)
  }

  /** There is something to compare, and something to compare it with. */
  predicate Compares(uuids: Uuids, chain: string, store: Option<Store>, file: Option<Document>, allowEmpty: bool) {
    store.Some? && file.Some? && Comparable(uuids, chain, file.value) && (file.value.runs != [] || allowEmpty)
  }

  /** The exit code a verification has to give. */
  function CodeFor(uuids: Uuids, commit: Commitment, store: Store, failures: Failures, document: Document): int
    requires NamesRuns(uuids, document.runs)
  {
    if ReadFails(uuids, failures, store, document) then EXIT_ERROR
    else ExitCode(Verify(uuids, commit, store, document))
  }

  /** Not checked exactly when nothing was compared; otherwise the verdict, unless a
      read fails. */
  method VerifyCommand(uuids: Uuids, commit: Commitment, chain: string, store: Option<Store>, failures: Failures,
                       file: Option<Document>, allowEmpty: bool)
    returns (code: int)
    ensures code != EXIT_NOT_CHECKED <==> Compares(uuids, chain, store, file, allowEmpty)
    ensures Compares(uuids, chain, store, file, allowEmpty) ==>
              NamesRuns(uuids, file.value.runs) && code == CodeFor(uuids, commit, store.value, failures, file.value)
  {
    if store.None? || file.None? {
      return EXIT_NOT_CHECKED;
    }
    var document := file.value;
    if document.anchor != ANCHOR_SPEC || document.chain != chain {
      return EXIT_NOT_CHECKED;
    }
    var answer := CheckEntries(uuids, document.runs);
    AnswerIsExact(uuids, document.runs, answer, answer);
    if answer.Rejected? || (document.runs == [] && !allowEmpty) {
      return EXIT_NOT_CHECKED;
    }
    var v := VerifyStore(uuids, commit, store.value, failures, document);
    code := if v.Some? then ExitCode(v.value) else EXIT_ERROR;
  }

  lemma TakenAreDistinct(uuids: Uuids, spec: string, heads: seq<Head>)
    requires Canonical(uuids) && forall i, j :: 0 <= i < j < |heads| ==> heads[i].id != heads[j].id
    ensures var runs := Take(uuids, spec, heads).runs;
            forall i, j :: 0 <= i < j < |runs| ==> runs[i].run != runs[j].run
  {
    var entries, runs := EntriesFor(uuids, heads), Take(uuids, spec, heads).runs;
    ByEntryRanks();
    SortKeeps(entries, ByEntry());
    forall i, j | 0 <= i < j < |entries|
      ensures entries[i] != entries[j]
    {
      assert uuids.parse(uuids.show(heads[i].id)) == Some(heads[i].id);
      assert uuids.parse(uuids.show(heads[j].id)) == Some(heads[j].id);
    }
    DistinctAnyOrder(entries, runs);
    forall i, j | 0 <= i < j < |runs|
      ensures runs[i].run != runs[j].run
    {
      TakenEntries(uuids, spec, heads, runs[i]);
      TakenEntries(uuids, spec, heads, runs[j]);
      var g :| g in heads && runs[i] == EntryFor(uuids, g);
      var h :| h in heads && runs[j] == EntryFor(uuids, h);
      assert g != h;
      assert uuids.parse(uuids.show(g.id)) == Some(g.id) && uuids.parse(uuids.show(h.id)) == Some(h.id);
    }
  }

  /** An anchor taken over a sound store, of one head a run and hashes of the shape
      the store writes, is one that this program can compare. */
  lemma TakenIsComparable(uuids: Uuids, commit: Commitment, chain: string, before: Store)
    requires Canonical(uuids) && Sound(commit, before) && OneHeadEach(before)
    requires forall h :: h in before.heads ==> IsChainHash(h.hash)
    ensures Comparable(uuids, chain, Take(uuids, chain, before.heads))
  {
    var runs := Take(uuids, chain, before.heads).runs;
    TakenAreDistinct(uuids, chain, before.heads);
    forall i | 0 <= i < |runs|
      ensures FieldProblem(uuids, runs[i]).None?
    {
      TakenEntries(uuids, chain, before.heads, runs[i]);
      var h :| h in before.heads && runs[i] == EntryFor(uuids, h);
      assert uuids.parse(uuids.show(h.id)) == Some(h.id);
      EntryLength(uuids, h);
    }
  }

  /** The command against an anchor the program took itself: it exits 0 exactly when
      every read succeeds, every anchored run still starts with the events it was
      anchored at, and no other run's log is refused. */
  lemma CommandIsExact(uuids: Uuids, commit: Commitment, chain: string, before: Store, after: Store, failures: Failures,
                       allowEmpty: bool)
    requires Canonical(uuids) && Binding(commit) && Sound(commit, before) && OneHeadEach(before)
    requires forall h :: h in before.heads ==> IsChainHash(h.hash)
    requires before.heads != [] || allowEmpty
    ensures var document := Take(uuids, chain, before.heads);
            && Compares(uuids, chain, Some(after), Some(document), allowEmpty)
            && NamesRuns(uuids, document.runs)
            && (CodeFor(uuids, commit, after, failures, document) == EXIT_INTACT <==>
                && !ReadFails(uuids, failures, after, document)
                && (forall id :: id in before.logs ==> Holds(before, after, id))
                && (forall h :: h in after.heads ==> !BrokenOutside(before, after, h)))
  {
    TakenIsComparable(uuids, commit, chain, before);
    VerdictIsExact(uuids, commit, chain, before, after);
    if before.heads != [] {
      TakenEntries(uuids, chain, before.heads, EntryFor(uuids, before.heads[0]));
      assert before.heads[0] in before.heads;
    }
  }
}
