# Verified model of salvor's editor, ledgers, anchors and release tooling

Salvor keeps a graph document by editing commands, keeps money-moving tools exactly-once, anchors its run logs, and
generates release facts. This project models the parts of it that carry the hard arguments, and proves them.

**The graph editor.** A command list is the state and the document is a fold of it. `Tokenizer` has the two scanners
as loops over an index and as recursive definitions; `Json` and `JsonTokens` have the compact printer, a reader for
JSON text (RFC 8259), and the induction that carries the brace scanner over printed values. `Parser` is the grammar as
functions of tokens; `Scanning` is the cursor with its loops, proved against it; `Printer` dumps a command as pieces
with a space between them. `RoundTrip` and `References` prove that a command comes back from its own line exactly when
it has neither of two shapes; `Lost` shows a typed line for each shape. The hard half of that is a best-by reference
with whitespace: it is dumped without quotes, so every later token is read out of step, and `References` shows that no
reference, however it places quotes and option names of its own, can make the rest of the line give the whole of it
back. `Editing` and `Editor` have the document fold and the class; `Sessions` feeds a dumped script back and
`Replaying` says which sessions that rebuilds; `HostSeam` completes a line that names a file. `Completion` has the
help forms as data, `Finishing` proves that what is offered finishes lines, and `Offering` that nothing is left out.

**The line wrapper.** `Wrap` has the loop and the proof that its greedy layout has the fewest lines.

**Exactly-once payment.** `Payroll` has the ledger class and a transition system of any number of processes that lock,
read a line at a time, append, unlock, and may die at any step. `Provider` has the sequential ledger.

**Anchors.** `Anchor` has the file check and the comparison with a store; `Judgement` proves what the counts and exit
codes mean over every later store.

**Release facts.** `Versions` reads tags and orders them; `Splice` replaces the generated region; `Release` derives
the block before and after a tag.

## What is a parameter

- The graph crate's JSON form and its validator enter as three functions (`Graph.Codec`). Where a property needs it,
  `Faithful` says that a document which came from JSON is encoded as an object, with its members in whatever order the
  encoder has them and its numbers literals, and that the compact text of that object is read as the document again.
- JSON numbers keep their literal text, which is what the printer prints; an object that was read keeps its members
  sorted, one per name.
- Run identifiers (`Anchor.Uuids`), the chain's hash (`Anchor.Commitment`, injective on event lists of one length),
  the provider's identifier digest (`Provider.Mint`), ref-pattern matching and the block's wording (`Release.Matches`,
  `Release.Wording`) are functions about which only what is stated is assumed.
- A hash that a host resolves, a path, a terminal width and a store read are arguments.

## What the code does that its documentation does not say

- `Command::to_line` is documented as exactly what `parse` accepts. It is not for two shapes, and `RoundTripExactly`
  has the exact condition.
- Completion offers branch ids wherever a positional may stand, also where a `case` already has both of its names and
  lacks only how it is decided, because it takes names that look like options for options. There a name finishes the
  line only if it is `--model`; everywhere else that a word finishes the line, every name on offer does
  (`OfferedNamesFinish`).
- `wrap` says columns and counts bytes; `BytesAreColumns` says when the bytes are as many as the characters. A column
  is taken to be a character there; wide characters take two columns and combining ones none, which is not modelled.
- `pay_employee` says exactly once per employee and period; its key joins the two with a colon, so `KeysMeet` has the
  exact condition under which two employees share one.
- `check_entries` says one entry per run; it compares spellings. An entry that is spelled differently from the store,
  or two entries for one run, pass the check and give the run two findings (`OtherSpellingPasses`,
  `TwoSpellingsPass`), and `OneFindingEach` has the exact condition.
- `verify` has three exit codes for intact, tampered and not checked; a read that fails in the middle ends the program
  with 1 (crates/salvor-cli/src/main.rs:14-37), the code of a tampered store, so only exit 0 is told apart from it
  (`CommandIsExact`).
- The block written before a tag is said to be the one derived after it. Where the version ties with a tag, that
  depends on which of them git lists last, because the sort is stable; `WrittenIsDerivedExactly` has the exact
  condition.
- `version_sort_key` says SemVer order; its pattern allows leading zeros, which the standard does not. Tags can then
  tie that differ in more than build metadata (`LeadingZeroTies`), and `TiesExactly` says which do.

## Model

| member | source | states |
|---|---|---|
| Tokenizer.Tokenize | crates/salvor-cli-core/src/graph_editor.rs:1510-1596 | the scanning loop computes exactly the tokens, or the first failure, that the recursive definition of the three token forms gives |
| Tokenizer.ScanQuoted | crates/salvor-cli-core/src/graph_editor.rs:1520-1547 | the quoted-token loop: the text with its escapes undone and where the scan stopped, or that the quote never closes |
| Tokenizer.ScanBalanced | crates/salvor-cli-core/src/graph_editor.rs:1548-1585 | the brace loop: how far the run goes with strings and escapes inside it respected, or that openers are left unclosed |
| Tokenizer.SplitPartial | crates/salvor-cli-core/src/graph_editor.rs:2741-2825 | the lenient loop never fails and computes the finished words and the word the cursor is in |
| Tokenizer.ScannersAgree | crates/salvor-cli-core/src/graph_editor.rs:2741-2825 | on every line the lenient scanner's finished words are the strict scanner's tokens before a failure; without a failure all of them when the line ends in whitespace and all but the last when it does not; what stands before the current text scans to exactly the finished words, and the current text is the one token or failing token that remains |
| Tokenizer.AgreementIsUnique | crates/salvor-cli-core/src/graph_editor.rs:2741-2825 | no other answer agrees with the strict scanner in that way, so agreement says exactly what the lenient scanner has to compute |
| Tokenizer.QuotingIsLossless | crates/salvor-cli-core/src/graph_editor.rs:1332-1356 | any sequence of strings, printed as words and joined by spaces, tokenizes back to the same sequence, and the line has no newline |
| JsonTokens.JsonIsOneToken | crates/salvor-cli-core/src/graph_editor.rs:1548-1585 | a printed object or array, its members in any order and whatever follows it, is scanned as exactly one token equal to itself, whatever braces, quotes and backslashes its strings hold |
| JsonTokens.JsonTokenReadsBack | crates/salvor-cli-core/src/graph_editor.rs:1318-1322 | the token that a printed JSON value is scanned as reads back as that value if and only if the value is not a bare string |
| Json.ReadPrint | crates/salvor-cli-core/src/graph_editor.rs:1318-1328 | reading compact JSON text gives back every well-formed value it was printed from |
| Json.ReadWellFormed | crates/salvor-cli-core/src/graph_editor.rs:1643-1650 | whatever JSON text reads as is well formed: literal numbers, members sorted with one per name |
| Scanning.ParseLine | crates/salvor-cli-core/src/graph_editor.rs:1729-1763 | the parser, with its cursor and option loops, computes exactly what the grammar gives, errors included |
| Scanning.Scan.Options | crates/salvor-cli-core/src/graph_editor.rs:1797-1837 | an option loop over the cursor computes the options the rest of the tokens set, or the first error |
| Parsed.ParsedWellFormed | crates/salvor-cli-core/src/graph_editor.rs:1729-2132 | what holds of every command a line can parse to, and of every draft a host may complete: well-formed JSON, sorted input mappings whose names hold no `=`, subgraphs that came from JSON, no empty best-by reference, no cases on an added branch |
| RoundTrip.PrintParse | crates/salvor-cli-core/src/graph_editor.rs:1167-1356 | outside whitespace in a best-by reference, the line of a document-changing command other than a read parses back to exactly that command if and only if no schema is a bare JSON string |
| References.SpacedReferenceIsLost | crates/salvor-cli-core/src/graph_editor.rs:1310-1316 | a fold whose best-by reference holds whitespace never comes back from its own line, whatever quotes, braces and option names the reference holds |
| References.RoundTripExactly | crates/salvor-cli-core/src/graph_editor.rs:1167-1356 | for every document-changing command but a read: its own line parses back to it if and only if no schema is a bare JSON string and no best-by reference holds whitespace |
| Lost.GivenComesBack | crates/salvor-cli-core/src/graph_editor.rs:1167-1356 | the same if-and-only-if for every command that any typed line gives, on its own or once the host has resolved a hash |
| Lost.BareStringIsLost | crates/salvor-cli-core/src/graph_editor.rs:1318-1322 | a gate whose schema is the string `5` can be typed, and its dump gives the number 5 instead |
| Lost.SpacedReferenceIsRefused | crates/salvor-cli-core/src/graph_editor.rs:1310-1316 | a fold with the reference `a b` can be typed in quotes, and its dump is refused at `b` |
| HostSeam.FileThenHashIsHash | crates/salvor-cli-core/src/graph_editor.rs:304-313 | for every `add agent` or `add branch` option list in any order: with `--file p` or `--hash h` at a place where an option may start, both lines parse exactly when the others parse and give neither; and then completing the first line's draft with `h` is the second line's command |
| Editing.DeriveDocument | crates/salvor-cli-core/src/graph_editor.rs:768-824 | the loop that changes nodes and edges in place computes the fold of the command list |
| Editing.RemoveNodeExactly | crates/salvor-cli-core/src/graph_editor.rs:648-693 | removing a node is refused exactly when there is none, reports exactly how many edges go, takes exactly the edges that name it, and leaves every other node and edge as often and in the order it was |
| Editing.RemoveEdgesExactly | crates/salvor-cli-core/src/graph_editor.rs:648-693 | removing edges is refused exactly when none matches, and takes exactly the reported and matching ones |
| Editing.AddCaseExactly | crates/salvor-cli-core/src/graph_editor.rs:606-618 | an accepted case lands last on the first branch of that id, which had no case of that name, and nothing else moves |
| Editing.RemoveCaseExactly | crates/salvor-cli-core/src/graph_editor.rs:648-693 | an accepted case removal takes exactly the cases of that name off the named branch, and nothing else moves |
| Editing.StepKeepsUnique | crates/salvor-cli-core/src/graph_editor.rs:562-693 | an accepted command keeps node ids unique, and case names unique within a branch |
| Editor.Editor.Apply | crates/salvor-cli-core/src/graph_editor.rs:455-549 | applying a command to the mutable editor gives exactly the next state and outcome, and the cached document stays the fold of the history |
| Editor.Editor.Script | crates/salvor-cli-core/src/graph_editor.rs:433-446 | the loop that dumps the history computes one line per recorded command, in order |
| Editor.Editor.FromHistory | crates/salvor-cli-core/src/graph_editor.rs:404-417 | an editor built from a history holds that history and the document it derives |
| Editor.StepEffect | crates/salvor-cli-core/src/graph_editor.rs:455-549 | an applied change is recorded last and takes effect on the document as it stands; a refusal or a query changes nothing |
| Editor.ReachableIsConsistent | crates/salvor-cli-core/src/graph_editor.rs:455-549 | in every reachable state the cached document is the fold of the history, and every recorded command is accepted in the document its prefix derives |
| Editor.UndoInverts | crates/salvor-cli-core/src/graph_editor.rs:455-549 | undo after any applied change gives back the identical editor |
| Editor.UndoneChangeCanBeCut | crates/salvor-cli-core/src/graph_editor.rs:455-549 | an applied change and its undo can be cut out of a session anywhere without changing where it ends |
| Editor.SessionIsItsSurvivors | crates/salvor-cli-core/src/graph_editor.rs:404-417 | any session, undos included, ends as the editor built from the commands that survive it |
| Editor.RunKeepsUnique | crates/salvor-cli-core/src/graph_editor.rs:562-693 | when everything read in has unique node ids and case names, so has every reachable document |
| Sessions.SessionReplays | crates/salvor-cli-core/src/graph_editor.rs:433-446 | for every session whose recorded commands come back: feeding its script line by line to an empty editor refuses nothing, needs no host, rebuilds the identical document, and dumps the identical script; reads come back normalised |
| Sessions.TypedSessionReplays | crates/salvor-cli-core/src/graph_editor.rs:433-446 | the same for every session of typed lines, host completions and reads, whatever was typed and undone in it |
| Replaying.SessionReplaysExactly | crates/salvor-cli-core/src/graph_editor.rs:433-446 | as long as no recorded best-by reference holds a newline, a session is rebuilt from its script if and only if every recorded command comes back from its own line |
| Completion.Complete | crates/salvor-cli-core/src/graph_editor.rs:2877-2896 | completion of a half-typed line computes the words its position allows that start as typed, each once, or that the position names a path |
| Completion.ListOptions | crates/salvor-cli-core/src/graph_editor.rs:2699-2723 | the loops over forms and groups compute the options a command can still be given |
| Finishing.Completes | crates/salvor-cli-core/src/graph_editor.rs:2741-2825 | putting a word where the cursor is gives a line whose tokens are the finished words and that word |
| Finishing.OfferedNamesFinish | crates/salvor-cli-core/src/graph_editor.rs:2899-2969 | in a document whose names are single words, wherever some word, plain or quoted, finishes the line: a name on offer finishes it if and only if the line is no `case` with a branch, a name and at most `--model` flags, or the name is `--model` |
| Finishing.CandidateCompletes | crates/salvor-cli-core/src/graph_editor.rs:2899-2969 | at an edge's endpoint or label, at `rm node`, `rm edge` and `rm case`, at `show` and at `help`, every name offered completes the line to exactly the command that names it |
| Finishing.OptionOnlyPosition | crates/salvor-cli-core/src/graph_editor.rs:2899-2969 | an instance: after the line `case --a --b ` every branch of the document is on offer, and a word finishes the line exactly if it is `--model` |
| Offering.CandidatesAreNames | crates/salvor-cli-core/src/graph_editor.rs:2972-3079 | at those positions the candidates are exactly the document's names that fit and start as typed, each once |
| Offering.OptionsOffered | crates/salvor-cli-core/src/graph_editor.rs:2699-2723 | the options offered are exactly those in a group with nothing on the line that may not repeat, of a form that allows every option given |
| Offering.FormsNameTheOptions | crates/salvor-cli-core/src/graph_editor.rs:2266-2398 | the help forms name exactly the options that the parser takes: some form of a command has a name if and only if the parser knows it there |
| Offering.ConflictsAreNotOffered | crates/salvor-cli-core/src/graph_editor.rs:2699-2723 | no option is offered beside its alternative, `--hash` and `--file`, `--body` and `--body-subgraph` or `--when` and `--model`, and of the options already given only a tool's `--input` is offered again |
| Wrap.Wrap | crates/salvor-cli-core/src/render.rs:67-85 | the loop over the words writes exactly the greedy layout under the two prefixes |
| Wrap.GreedyKeepsWords | crates/salvor-cli-core/src/render.rs:67-85 | the greedy layout keeps every word, in order |
| Wrap.GreedyFits | crates/salvor-cli-core/src/render.rs:67-85 | a line holds a word, and is wider than the width only if it holds one word |
| Wrap.GreedyIsOptimal | crates/salvor-cli-core/src/render.rs:67-85 | of all ways to break the words into lines that fit or hold one word, none has fewer lines |
| Wrap.WrappedKeepsWords | crates/salvor-cli-core/src/render.rs:67-85 | under prefixes of whitespace, the text that comes out has exactly the words that went in |
| Wrap.BytesAreColumns | crates/salvor-cli-core/src/render.rs:70-81 | the width that is counted, in bytes of UTF-8, is the number of characters exactly when all are ASCII |
| Payroll.Ledger.KeyPresent | examples/payroll/server.py:264-270 | the loop over the ledger finds the key exactly when some line has it |
| Payroll.Ledger.PayEmployee | examples/payroll/server.py:273-319 | one call alone appends its line and charges, or finds its key and changes nothing |
| Payroll.StepSafe | examples/payroll/server.py:292-314 | every step of every process keeps mutual exclusion, what each process knows of the ledger, and one ledger line for every process that wrote |
| Payroll.ExactlyOnce | examples/payroll/server.py:273-319 | in every interleaving of any number of processes that may die at any step: lines are never lost, a key gets at most one line, an answered call has its key in the ledger, and at most one call under a key answers that it charged |
| Payroll.Linearizable | examples/payroll/server.py:273-319 | every run leaves the ledger, and gives every answer, of some sequence of payments made one at a time, with at most one payment of each process |
| Payroll.EffectsInOrder | examples/payroll/server.py:273-319 | that sequence keeps real time: what was answered before another call started comes before it |
| Payroll.KeysMeet | examples/payroll/server.py:284-288 | two employees of two periods share a key exactly when they are the same, or one period continues, after a colon, with the start of the other's id |
| Payroll.KeyIsInjective | examples/payroll/server.py:284-288 | as long as no period holds a colon, a key names one employee of one period |
| Payroll.SharedKeySkipsOne | examples/payroll/server.py:288 | a period that holds a colon can keep an employee from being paid |
| Provider.Ledger.Existing | examples/client-tools/provider.py:86-96 | the loop finds the first entry that created something under the key, and no other |
| Provider.Ledger.Run | examples/client-tools/provider.py:106-172 | one call files one entry and prints its reply, or refuses and files nothing |
| Provider.OneCreation | examples/client-tools/provider.py:106-172 | after any calls, each entry is numbered by its place, at most one under an action and a key created something, and every later one repeats its identifier and amount |
| Provider.RetriesMoveNothing | examples/client-tools/provider.py:106-172 | the payments on the ledger, and their total, are those of the same calls with every retry left out |
| Provider.SameReply | examples/client-tools/provider.py:106-172 | whatever happens between two calls under one key, the later is told what the earlier was |
| Anchor.CheckEntries | crates/salvor-cli/src/anchor.rs:271-313 | the loop over entries answers with the least offending position and what is wrong there, or accepts |
| Anchor.AnswerIsExact | crates/salvor-cli/src/anchor.rs:271-313 | it accepts exactly the anchors whose entries are all well formed and pairwise distinct, and any other answer is the only right one |
| Anchor.VerifyStore | crates/salvor-cli/src/commands.rs:1650-1703 | the two loops over anchored runs and store heads assemble exactly the specified findings, or end without a result exactly when a read they make fails |
| Judgement.TakeAnchor | crates/salvor-cli/src/anchor.rs:174-195 | taking an anchor records every head, sorted by run |
| Judgement.CountsClose | crates/salvor-cli/src/anchor.rs:603-653 | the counts close: intact and failed make up the anchored runs, with new and broken ones they make up all findings, and the verification passes exactly when no finding is a failure |
| Judgement.VerdictIsExact | crates/salvor-cli/src/anchor.rs:468-500 | against any later store: exit 0 if and only if every anchored run still starts with the events it was anchored at and no other run's log is refused |
| Judgement.AppendOnlyPasses | crates/salvor-cli/src/anchor.rs:468-500 | a store that only appends after its anchor is taken always verifies with exit 0 |
| Judgement.TamperingIsCaught | crates/salvor-cli/src/anchor.rs:468-500 | removing an anchored run, cutting it short or changing any anchored event gives exit 1 |
| Judgement.OneFindingEach | crates/salvor-cli/src/anchor.rs:271-313 | an accepted anchor, against a store of one head a run, gives no run two findings if and only if no two entries name one run and no entry spells a run of the store differently from the store |
| Judgement.TwoSpellingsPass | crates/salvor-cli/src/anchor.rs:271-313 | an anchor that spells one run in two ways is accepted and counted as two runs that stand |
| Judgement.OtherSpellingPasses | crates/salvor-cli/src/commands.rs:1650-1703 | an anchor with one entry, spelled differently from the store, is accepted, and its run is found twice: as it stands, and as new |
| Judgement.VerifyCommand | crates/salvor-cli/src/commands.rs:1742-1788 | the third exit code is given exactly when nothing was compared; otherwise the code is the verdict, or that of an error when a read fails |
| Judgement.CommandIsExact | crates/salvor-cli/src/commands.rs:1742-1788 | an anchor taken over a sound store is one the command compares; and then it exits 0 if and only if every read succeeds, every anchored run still starts with the events it was anchored at, and no other run's log is refused |
| Versions.KeyIsPrecedence | scripts/release-facts.py:108-128 | the sort key orders versions exactly by the precedence of section 11 of SemVer 2.0.0 |
| Versions.TiesExactly | scripts/release-facts.py:108-128 | any two versions tie if and only if they differ in nothing but build metadata and leading zeros, and then neither precedes the other |
| Versions.TiesAreBuilds | scripts/release-facts.py:108-128 | so versions without leading zeros tie exactly when they differ in nothing but build metadata |
| Versions.LeadingZeroTies | scripts/release-facts.py:83-128 | the tags `v1.0.0-1` and `v1.0.0-01` are read, tie, and differ in more than build metadata |
| Versions.TagIsText | scripts/release-facts.py:83 | a tag is exactly the text of what it is read as |
| Versions.TextIsRead | scripts/release-facts.py:83 | and every version whose parts are as the pattern has them is what its own text is read as |
| Versions.LastIsHighest | scripts/release-facts.py:131-140 | the sorted tags are all the tags, and none has higher precedence than the last |
| Splice.SpliceBlock | scripts/release-facts.py:529-545 | the loop over the lines replaces the region from the first begin marker to the last end marker, or says why it cannot |
| Splice.SpliceIsFixpoint | scripts/release-facts.py:529-545 | with a framed block, splicing twice is splicing once, and the text outside the region is untouched |
| Splice.SpliceAbsorbs | scripts/release-facts.py:529-545 | splicing a second block in gives the same as if the first had never been there |
| Splice.FramedBlock | scripts/release-facts.py:68-74 | a block whose first line holds the begin marker and whose last line holds the end marker is framed |
| Release.FirstVersionContaining | scripts/release-facts.py:162-199 | the loop returns the earliest version whose history holds the commit that first added the file, none when no history does, and fails when no commit adds it |
| Release.WrittenIsDerived | scripts/release-facts.py:421-442 | for a version that no tag listed before it is above and that is above every tag listed after it, the block written before it is tagged is the block derived after, when the tag descends from HEAD and adds no workflow file |
| Release.WrittenIsDerivedExactly | scripts/release-facts.py:421-442 | and for any version not tagged yet, ties included, the written block is the derived one if and only if that holds |
| Release.TiesGoByListing | scripts/release-facts.py:131-140 | of two tags that tie, each leads only where it is listed last |
| Release.WriteThenTag | scripts/release-facts.py:573-589 | a document written for the next version passes the check from the commit that stamps the workspace, and still once the tag exists |
| Release.WrittenAgain | scripts/release-facts.py:590-597 | writing is a fixpoint: what has been written would be written again |
| Release.BelowIsStale | scripts/release-facts.py:421-442 | a block written for a version below some tag is not the block derived from the tags |

## Left out

- The runtime, replay cursor, budgets, store and hash-chain implementation: their code is not part of this model.
- The graph crate's serde code and validator: they enter as `Graph.Codec`; `validate` shows only whether a document passes.
- Message wording, `show`, the `help` text, colours and tables: only the counts and names that messages report are kept.
- Reading the help forms out of their text (`shape`, `form_chunks`, `option_group`, `fixed_values`): the forms are data in `Completion`.
- `format_duration` and the other display helpers of render.rs: easy members.
- JSON number normalisation and the recursion limit of the JSON library: a number keeps its literal text and nesting is unbounded.
- The in-place sort of `Anchor.take` is an insertion sort on sequences: the library's sort is stable too, and only its result matters.
- Writing, flushing and forcing a ledger line to disk are one step, and a failed write is not modelled; a torn line is not either.
- Editor.Editor.Apply: the source's `apply` consumes the editor and returns it; here the object is changed, so the two states are compared through `Now()`.
- Editing.DeriveDocument: filtering a vector in place is a reassignment of a sequence, so aliasing is not captured.
- Replaying.SessionReplaysExactly: says nothing of a best-by reference with a newline, which breaks its own line in two.
- Finishing.OfferedNamesFinish: says nothing of the value `best-by:`, which is offered for `--join` and is only the start of a word.
- Wrap.WrappedKeepsWords: is about prefixes of whitespace, because a prefix with words of its own adds them to the text.
- Splice.SpliceBlock: a carriage return and newline pair counts as two line ends; the file is read with newlines already normalised.
- Versions.KeyIsPrecedence: digits are ASCII; the source's pattern also takes other Unicode digits.
- Release.WrittenIsDerived: the facts copied from other files are compared as values, not parsed from TOML, YAML or shell text.
- Provider.RetriesMoveNothing: calls are one after another, as the source has no lock; concurrent calls are not modelled.
- The clap trees, the wasm mirror, shell completion of the host program, agent file checks, clocks and the network.
