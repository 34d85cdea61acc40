/** The generated block of release facts: what it is derived from, and why the one
    written before a tag is the one derived after it. */
module Release {
  import opened Sequences
  import opened Splice
  import opened Text
  import opened Versions

  // --- the repository -------------------------------------------------------

  type Commit = nat

  /** A workflow file: the patterns its tag trigger has, if it has one, and the
      commits that add it, newest first. */
  datatype Workflow = Workflow(name: string, patterns: Option<seq<string>>, adds: seq<Commit>)

  /** The tags as git lists them, the commits in each ref's history, the workflow
      files, the version the workspace is stamped with, and the facts that are
      copied from other files. */
  datatype Repository = Repository(tags: seq<string>, history: map<string, set<Commit>>, workflows: seq<Workflow>,
                                   workspace: string, facts: Facts)

  datatype Facts = Facts(targets: seq<string>, installers: seq<string>, publishJobs: seq<string>, crates: seq<string>)

  const HEAD := "HEAD"

  predicate Reaches(repository: Repository, ref: string, commit: Commit) {
    ref in repository.history && commit in repository.history[ref]
  }

  // --- the first version with a workflow ------------------------------------

  function InHistory(repository: Repository, ref: string): Commit -> bool {
    (c: Commit) => Reaches(repository, ref, c)
  }

  /** The commit that first added a file, as the log from HEAD has it. */
  function FirstAdd(repository: Repository, w: Workflow): Option<Commit> {
    var commits := Retain(w.adds, InHistory(repository, HEAD));
    if commits == [] then None else Some(commits[|commits| - 1])
  }

  /** The ref that stands for a version: HEAD for one that is not tagged yet. */
  function RefFor(untagged: Option<string>, version: string): string {
    if untagged == Some(version) then HEAD else version
  }

  predicate Holds(repository: Repository, untagged: Option<string>, version: string, added: Commit) {
    Reaches(repository, RefFor(untagged, version), added)
  }

  /** The earliest of the versions whose history holds the commit, or none when no
      history does. */
  ghost predicate IsFirst(repository: Repository, versions: seq<string>, untagged: Option<string>, added: Commit,
                          first: Option<string>) {
    match first
    case None => forall i :: 0 <= i < |versions| ==> !Holds(repository, untagged, versions[i], added)
    case Some(version) =>
      exists i :: 0 <= i < |versions| && versions[i] == version && Holds(repository, untagged, version, added) &&
        forall k :: 0 <= k < i ==> !Holds(repository, untagged, versions[k], added)
  }

  function FirstContaining(repository: Repository, versions: seq<string>, untagged: Option<string>,
                           added: Commit): Option<string> {
    if versions == [] then None
    else if Holds(repository, untagged, versions[0], added) then Some(versions[0])
    else FirstContaining(repository, versions[1..], untagged, added)
  }

  method FirstVersionContaining(repository: Repository, w: Workflow, versions: seq<string>, untagged: Option<string>)
    returns (ok: bool, version: Option<string>)
    ensures ok == FirstAdd(repository, w).Some?
    ensures ok ==> IsFirst(repository, versions, untagged, FirstAdd(repository, w).value, version)
    ensures ok ==> version == FirstContaining(repository, versions, untagged, FirstAdd(repository, w).value)
  {
    var added := FirstAdd(repository, w);
    if added.None? {
      return false, None;
    }
    var i := 0;
    while i < |versions|
      invariant i <= |versions|
      invariant forall k :: 0 <= k < i ==> !Holds(repository, untagged, versions[k], added.value)
      invariant FirstContaining(repository, versions, untagged, added.value) ==
                FirstContaining(repository, versions[i..], untagged, added.value)
    {
      if Holds(repository, untagged, versions[i], added.value) {
        return true, Some(versions[i]);
      }
      i := i + 1;
    }
    return true, None;
  }

  // --- the block ------------------------------------------------------------

  /** Whether one of GitHub's ref patterns matches a tag. */
  type Matches = (string, string) -> bool

  datatype Row = Row(name: string, patterns: seq<string>, first: Option<string>)

  /** What the block states; its wording is a parameter. */
  datatype Block = Block(versions: seq<string>, current: string, rows: seq<Row>, workflows: nat, facts: Facts)

  predicate Triggered(matches: Matches, w: Workflow, current: string) {
    w.patterns.Some? && exists p :: p in w.patterns.value && matches(p, current)
  }

  function Rows(matches: Matches, repository: Repository, workflows: seq<Workflow>, current: string,
                versions: seq<string>, untagged: Option<string>): Option<seq<Row>> {
    if workflows == [] then Some([])
    else
      var w := workflows[0];
      if !Triggered(matches, w, current) then Rows(matches, repository, workflows[1..], current, versions, untagged)
      else
        var added :- FirstAdd(repository, w);
        var rest :- Rows(matches, repository, workflows[1..], current, versions, untagged);
        Some([Row(w.name, w.patterns.value, FirstContaining(repository, versions, untagged, added))] + rest)
  }

  /** The version a block is for: the one that is named, unless that is no text, or
      the latest. */
  function Current(versions: seq<string>, override: Option<string>): string
    requires versions != []
  {
    if override.Some? && override.value != "" then override.value else versions[|versions| - 1]
  }

  /** The block for the current version, which may be one that is about to be
      tagged; nothing when something it needs cannot be derived. */
  function Render(matches: Matches, repository: Repository, override: Option<string>): (block: Option<Block>)
    ensures block.Some? ==>
              Shipped(repository.tags).Some? && block.value.current == Current(Shipped(repository.tags).value, override)
  {
    var versions :- Shipped(repository.tags);
    var current := Current(versions, override);
    if current in versions then RenderOver(matches, repository, versions, current, None)
    else if ParseTag(current).None? then None
    else RenderOver(matches, repository, Sort(versions + [current], ByVersion()), current, Some(current))
  }

  function RenderOver(matches: Matches, repository: Repository, versions: seq<string>, current: string,
                      untagged: Option<string>): (block: Option<Block>)
    ensures block.Some? ==> block.value.current == current
  {
    var rows :- Rows(matches, repository, repository.workflows, current, versions, untagged);
    Some(Block(versions, current, rows, |repository.workflows|, repository.facts))
  }

  /** The version that a check takes as current: the workspace's when it is above
      every tag, and otherwise the latest tag. */
  function CheckedVersion(repository: Repository): Option<string> {
    var versions :- Shipped(repository.tags);
    var latest := versions[|versions| - 1];
    if ParseTag(repository.workspace).None? then None
    else Some(if KeyLower(KeyOfTag(latest), KeyOfTag(repository.workspace)) then repository.workspace else latest)
  }

  // --- before and after a tag -----------------------------------------------

  /** The new version is above every tag there is. */
  predicate AboveAll(tags: seq<string>, version: string) {
    ParseTag(version).Some? && forall t :: t in tags ==> KeyLower(KeyOfTag(t), KeyOfTag(version))
  }

  /** The version is no lower than any tag listed before it, and higher than any listed
      after it. */
  predicate Leads(a: seq<string>, version: string, b: seq<string>) {
    && (forall t :: t in a ==> !KeyLower(KeyOfTag(version), KeyOfTag(t)))
    && (forall t :: t in b ==> KeyLower(KeyOfTag(t), KeyOfTag(version)))
  }

  /** The version has been tagged: git lists it somewhere among the tags there were;
      its history holds all that HEAD's did, and so does HEAD's now; no commit since
      adds a workflow file; and nothing else the block is derived from has changed. */
  ghost predicate Tagged(before: Repository, after: Repository, version: string) {
    exists a, b :: TaggedAt(before, after, a, version, b)
  }

  ghost predicate TaggedAt(before: Repository, after: Repository, a: seq<string>, version: string, b: seq<string>) {
    && before.tags == a + b && after.tags == a + [version] + b && version !in a + b
    && after.workflows == before.workflows && after.facts == before.facts
    && (forall t :: t in before.tags ==> forall c :: Reaches(before, t, c) <==> Reaches(after, t, c))
    && (forall c :: Reaches(before, HEAD, c) ==> Reaches(after, version, c) && Reaches(after, HEAD, c))
    && (forall w, c :: w in before.workflows && c in w.adds ==>
                         Reaches(after, HEAD, c) || Reaches(after, version, c) ==> Reaches(before, HEAD, c))
  }

  lemma KeyIrreflexive(k: Key)
    ensures !KeyLower(k, k)
  {
    KeyTrichotomy(k, k);
  }

  /** The versions listed before the tag, with the new one treated as shipped, are
      those listed after it. */
  lemma SameVersions(before: Repository, after: Repository, a: seq<string>, version: string, b: seq<string>)
    requires Shipped(before.tags).Some? && ParseTag(version).Some? && Leads(a, version, b)
    requires TaggedAt(before, after, a, version, b)
    ensures version !in Shipped(before.tags).value
    ensures Shipped(after.tags) == Some(Shipped(before.tags).value + [version])
    ensures Sort(Shipped(before.tags).value + [version], ByVersion()) == Shipped(before.tags).value + [version]
  {
    var versions := Shipped(before.tags).value;
    ByVersionRanks();
    ShippedSorts(before.tags);
    SortHighest(a, version, b, ByVersion());
    forall t
      ensures t in versions <==> t in before.tags
      ensures t in b ==> !ByVersion()(version, t)
    {
      SortMember(before.tags, ByVersion(), t);
      assert t in b ==> ByVersion()(t, version);
    }
    SortedTwice(before.tags);
    SortHighest(versions, version, [], ByVersion());
    assert versions + [version] + [] == versions + [version] && versions + [] == versions;
  }

  lemma SortedTwice(tags: seq<string>)
    ensures Sort(Sort(tags, ByVersion()), ByVersion()) == Sort(tags, ByVersion())
  {
    ByVersionRanks();
    SortKeeps(tags, ByVersion());
    SortedIsSorted(Sort(tags, ByVersion()));
  }

  lemma {:induction false} SortedIsSorted(s: seq<string>)
    requires IsSorted(s, ByVersion())
    ensures Sort(s, ByVersion()) == s
  {
    if s != [] {
      var n := |s| - 1;
      SortedIsSorted(s[..n]);
      assert forall y :: y in s[..n] ==> !ByVersion()(s[n], y);
      InsertHighest(s[..n], s[n], ByVersion());
    }
  }

  lemma SameFirstAdd(before: Repository, after: Repository, version: string, w: Workflow)
    requires Tagged(before, after, version) && w in before.workflows
    ensures FirstAdd(after, w) == FirstAdd(before, w)
    ensures FirstAdd(before, w).Some? ==>
              FirstAdd(before, w).value in w.adds && Reaches(before, HEAD, FirstAdd(before, w).value)
  {
    RetainSame(w.adds, InHistory(after, HEAD), InHistory(before, HEAD));
    var commits := Retain(w.adds, InHistory(before, HEAD));
    assert commits != [] ==> commits[|commits| - 1] in commits;
  }

  lemma {:induction false} RetainSame<T(!new)>(s: seq<T>, a: T -> bool, b: T -> bool)
    requires forall x :: x in s ==> a(x) == b(x)
    ensures Retain(s, a) == Retain(s, b)
  {
    if s != [] {
      RetainSame(s[1..], a, b);
    }
  }

  /** The first version that holds a commit is the same by the new version's tag as by
      HEAD. */
  lemma {:induction false} SameFirstContaining(before: Repository, after: Repository, version: string,
                                               versions: seq<string>, w: Workflow, added: Commit)
    requires Tagged(before, after, version) && w in before.workflows && added in w.adds && Reaches(before, HEAD, added)
    requires forall t :: t in versions ==> t == version || t in before.tags
    ensures FirstContaining(before, versions, Some(version), added) == FirstContaining(after, versions, None, added)
    decreases |versions|
  {
    if versions != [] {
      assert versions[0] in versions;
      SameFirstContaining(before, after, version, versions[1..], w, added);
    }
  }

  lemma {:induction false} SameRows(matches: Matches, before: Repository, after: Repository, version: string,
                                    versions: seq<string>, workflows: seq<Workflow>)
    requires Tagged(before, after, version)
    requires forall w :: w in workflows ==> w in before.workflows
    requires forall t :: t in versions ==> t == version || t in before.tags
    ensures Rows(matches, before, workflows, version, versions, Some(version)) ==
            Rows(matches, after, workflows, version, versions, None)
    decreases |workflows|
  {
    if workflows != [] {
      var w := workflows[0];
      SameRows(matches, before, after, version, versions, workflows[1..]);
      SameFirstAdd(before, after, version, w);
      if FirstAdd(before, w).Some? {
        SameFirstContaining(before, after, version, versions, w, FirstAdd(before, w).value);
      }
    }
  }

  /** The block written for a version that is about to be tagged is the block derived
      once it is, whether the version is named or taken from the tags. */
  lemma WrittenIsDerived(matches: Matches, before: Repository, after: Repository, a: seq<string>, version: string,
                         b: seq<string>)
    requires Shipped(before.tags).Some? && ParseTag(version).Some? && Leads(a, version, b)
    requires TaggedAt(before, after, a, version, b)
    ensures Render(matches, before, Some(version)) == Render(matches, after, Some(version))
    ensures Render(matches, after, Some(version)) == Render(matches, after, None)
  {
    SameVersions(before, after, a, version, b);
    ShippedSorts(before.tags);
    var shipped := Shipped(before.tags).value;
    var versions := shipped + [version];
    ByVersionRanks();
    forall t | t in versions
      ensures t == version || t in before.tags
    {
      SortMember(before.tags, ByVersion(), t);
    }
    assert versions[|versions| - 1] == version;
    SameRows(matches, before, after, version, versions, before.workflows);
  }

  lemma LeadsByVersion(a: seq<string>, version: string, b: seq<string>)
    ensures Leads(a, version, b) <==>
            (forall t :: t in a ==> !ByVersion()(version, t)) && (forall t :: t in b ==> ByVersion()(t, version))
  {
  }

  lemma SortedLast(a: seq<string>, version: string, b: seq<string>, versions: seq<string>)
    requires versions == Sort(a + [version] + b, ByVersion()) && version !in a + b
    ensures versions != [] && (versions[|versions| - 1] == version <==> Leads(a, version, b))
  {
    ByVersionRanks();
    SortLast(a, version, b, ByVersion());
    LeadsByVersion(a, version, b);
  }

  /** Which version is last of the sorted tags depends on where ties are listed. */
  lemma LatestAt(a: seq<string>, version: string, b: seq<string>)
    requires Shipped(a + [version] + b).Some? && version !in a + b
    ensures var versions := Shipped(a + [version] + b).value;
            versions[|versions| - 1] == version <==> Leads(a, version, b)
  {
    ShippedSorts(a + [version] + b);
    SortedLast(a, version, b, Shipped(a + [version] + b).value);
  }

  /** When the block written before a tag is the one derived after it: exactly when the
      version is no lower than any tag listed before it, and higher than any listed
      after it. */
  lemma WrittenIsDerivedExactly(matches: Matches, before: Repository, after: Repository, a: seq<string>,
                                version: string, b: seq<string>)
    requires Shipped(before.tags).Some? && ParseTag(version).Some? && TaggedAt(before, after, a, version, b)
    requires Render(matches, before, Some(version)).Some?
    ensures Render(matches, before, Some(version)) == Render(matches, after, None) <==> Leads(a, version, b)
  {
    if Leads(a, version, b) {
      WrittenIsDerived(matches, before, after, a, version, b);
    } else if Render(matches, after, None).Some? {
      LatestAt(a, version, b);
      NamedIsCurrent(matches, before, version);
    }
  }

  /** Of two tags that tie, each leads only if it is listed last. */
  lemma TiesGoByListing(v: string, w: string)
    requires KeyOfTag(v) == KeyOfTag(w)
    ensures Leads([v], w, []) && !Leads([], w, [v])
  {
    KeyIrreflexive(KeyOfTag(w));
    assert v in [v];
  }

  /** There are such tags: build metadata does not count. */
  lemma BuildsTie()
    ensures ParseTag("v1.0.0").Some? && ParseTag("v1.0.0+1").Some? && KeyOfTag("v1.0.0") == KeyOfTag("v1.0.0+1")
  {
    var v, w := Version("1", "0", "0", None, None), Version("1", "0", "0", None, Some("1"));
    assert TagText(v) == "v1.0.0" && TagText(w) == "v1.0.0+1";
    TextIsRead(v);
    TextIsRead(w);
  }

  lemma NamedIsCurrent(matches: Matches, repository: Repository, version: string)
    requires Render(matches, repository, Some(version)).Some? && ParseTag(version).Some?
    ensures Render(matches, repository, Some(version)).value.current == version
  {
  }

  /** A block written for a version below some tag is not the one derived from the
      tags. */
  lemma BelowIsStale(matches: Matches, before: Repository, after: Repository, override: Option<string>, tag: string)
    requires Render(matches, before, override).Some? && Render(matches, after, None).Some?
    requires tag in after.tags && KeyLower(KeyOfTag(Render(matches, before, override).value.current), KeyOfTag(tag))
    ensures Render(matches, before, override) != Render(matches, after, None)
  {
    LastShipped(after.tags, tag);
  }

  lemma LastShipped(tags: seq<string>, tag: string)
    requires Shipped(tags).Some? && tag in tags
    ensures var versions := Shipped(tags).value;
            versions[|versions| - 1] in tags && !KeyLower(KeyOfTag(versions[|versions| - 1]), KeyOfTag(tag))
  {
    ShippedSorts(tags);
    LatestKey(tags, Shipped(tags).value, tag);
  }

  lemma LastBelow(tags: seq<string>, version: string)
    requires Shipped(tags).Some? && AboveAll(tags, version)
    ensures var versions := Shipped(tags).value; KeyLower(KeyOfTag(versions[|versions| - 1]), KeyOfTag(version))
  {
    ShippedSorts(tags);
    LastShipped(tags, tags[0]);
  }

  lemma CheckedBefore(before: Repository, version: string)
    requires Shipped(before.tags).Some? && AboveAll(before.tags, version) && before.workspace == version
    ensures CheckedVersion(before) == Some(version)
  {
    LastBelow(before.tags, version);
    CheckedAbove(before, version);
  }

  lemma CheckedAbove(repository: Repository, version: string)
    requires Shipped(repository.tags).Some? && repository.workspace == version && ParseTag(version).Some?
    requires var versions := Shipped(repository.tags).value;
      KeyLower(KeyOfTag(versions[|versions| - 1]), KeyOfTag(version))
    ensures CheckedVersion(repository) == Some(version)
  {
  }

  lemma CheckedAfter(after: Repository, shipped: seq<string>, version: string)
    requires Shipped(after.tags) == Some(shipped + [version]) && after.workspace == version && ParseTag(version).Some?
    ensures CheckedVersion(after) == Some(version)
  {
    KeyIrreflexive(KeyOfTag(version));
    assert (shipped + [version])[|shipped|] == version;
  }

  // --- writing and checking -------------------------------------------------

  /** The block as text. */
  type Wording = Block -> string

  /** Every block's text opens with the begin marker and closes with the end marker. */
  ghost predicate WellWorded(wording: Wording) {
    forall block :: Framed(BlockLines(wording(block)))
  }

  /** What writing leaves in the document, if it can. */
  function Written(matches: Matches, wording: Wording, repository: Repository, override: Option<string>,
                   document: string): Option<string> {
    var block :- Render(matches, repository, override);
    match Replace(document, wording(block))
    case Replaced(text) => Some(text)
    case Refused(_) => None
  }

  /** A check passes: writing for the version it takes as current would change
      nothing. */
  predicate Checks(matches: Matches, wording: Wording, repository: Repository, document: string) {
    CheckedVersion(repository).Some? &&
    Written(matches, wording, repository, CheckedVersion(repository), document) == Some(document)
  }

  /** Writing is a fixpoint: what has been written would be written again. */
  lemma WrittenAgain(matches: Matches, wording: Wording, repository: Repository, override: Option<string>,
                     document: string)
    requires WellWorded(wording) && Written(matches, wording, repository, override, document).Some?
    ensures var written := Written(matches, wording, repository, override, document).value;
            Written(matches, wording, repository, override, written) == Some(written)
  {
    var block := Render(matches, repository, override).value;
    assert Framed(BlockLines(wording(block)));
    SpliceIsFixpoint(document, wording(block));
  }

  lemma AboveLeads(tags: seq<string>, a: seq<string>, version: string, b: seq<string>)
    requires AboveAll(tags, version) && tags == a + b
    ensures Leads(a, version, b)
  {
    forall t | t in a
      ensures !KeyLower(KeyOfTag(version), KeyOfTag(t))
    {
      assert t in tags;
      KeyTrichotomy(KeyOfTag(t), KeyOfTag(version));
    }
  }

  /** A document written for the next version before it is tagged passes the check
      from the commit that stamps the workspace on, and still once the tag exists. */
  lemma WriteThenTag(matches: Matches, wording: Wording, before: Repository, after: Repository, version: string,
                     document: string)
    requires WellWorded(wording) && Written(matches, wording, before, Some(version), document).Some?
    requires AboveAll(before.tags, version) && Tagged(before, after, version)
    ensures var written := Written(matches, wording, before, Some(version), document).value;
            && Checks(matches, wording, before.(workspace := version), written)
            && (after.workspace == version ==> Checks(matches, wording, after, written))
  {
    var stamped := before.(workspace := version);
    WrittenAgain(matches, wording, before, Some(version), document);
    CheckedBefore(stamped, version);
    StampedRenders(matches, before, version, Some(version));
    var a, b :| TaggedAt(before, after, a, version, b);
    AboveLeads(before.tags, a, version, b);
    WrittenIsDerived(matches, before, after, a, version, b);
    if after.workspace == version {
      SameVersions(before, after, a, version, b);
      CheckedAfter(after, Shipped(before.tags).value, version);
    }
  }

  /** The block does not depend on the workspace's version. */
  lemma {:induction false} StampedRows(matches: Matches, repository: Repository, stamp: string,
                                       workflows: seq<Workflow>, current: string,
                                       versions: seq<string>, untagged: Option<string>)
    ensures Rows(matches, repository.(workspace := stamp), workflows, current, versions, untagged) ==
            Rows(matches, repository, workflows, current, versions, untagged)
  {
    if workflows != [] {
      var w, stamped := workflows[0], repository.(workspace := stamp);
      StampedRows(matches, repository, stamp, workflows[1..], current, versions, untagged);
      RetainSame(w.adds, InHistory(stamped, HEAD), InHistory(repository, HEAD));
      if FirstAdd(repository, w).Some? {
        StampedFirst(repository, stamp, versions, untagged, FirstAdd(repository, w).value);
      }
    }
  }

  lemma {:induction false} StampedFirst(repository: Repository, stamp: string, versions: seq<string>,
                                        untagged: Option<string>, added: Commit)
    ensures FirstContaining(repository.(workspace := stamp), versions, untagged, added) ==
            FirstContaining(repository, versions, untagged, added)
  {
    if versions != [] {
      StampedFirst(repository, stamp, versions[1..], untagged, added);
    }
  }

  lemma StampedRenderOver(matches: Matches, repository: Repository, stamp: string, versions: seq<string>,
                          current: string, untagged: Option<string>)
    ensures RenderOver(matches, repository.(workspace := stamp), versions, current, untagged) ==
            RenderOver(matches, repository, versions, current, untagged)
  {
    StampedRows(matches, repository, stamp, repository.workflows, current, versions, untagged);
  }

  lemma StampedRenders(matches: Matches, repository: Repository, stamp: string, override: Option<string>)
    ensures Render(matches, repository.(workspace := stamp), override) == Render(matches, repository, override)
  {
    if Shipped(repository.tags).Some? {
      var versions := Shipped(repository.tags).value;
      var current := Current(versions, override);
      if current in versions {
        StampedRenderOver(matches, repository, stamp, versions, current, None);
      } else {
        StampedRenderOver(matches, repository, stamp, Sort(versions + [current], ByVersion()), current, Some(current));
      }
    }
  }
}
