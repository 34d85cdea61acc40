/** The host seam: a line that names an agent file, completed with the file's
    hash, is the line that gives the hash itself. */
module HostSeam {
  import opened Commands
  import opened Errors
  import opened Graph
  import opened Parser
  import RoundTrip
  import opened Text

  function Or<T>(first: Option<T>, second: Option<T>): Option<T> {
    if first.Some? then first else second
  }

  /** The options with neither a hash nor a file. */
  function Cleared(o: Options): Options {
    o.(hash := None, file := None)
  }

  /** The options with this hash and file where they have none of their own. */
  function Over(o: Options, hash: Option<string>, file: Option<string>): Options {
    o.(hash := Or(o.hash, hash), file := Or(o.file, file))
  }

  /** Storing an option over a hash and a file given earlier is storing it, and then
      putting them where there is none. */
  ghost predicate StoresOver(codec: Codec, form: Form, opt: Opt, raw: string, o: Options, hash: Option<string>,
                             file: Option<string>) {
    Store(codec, form, opt, raw, Over(o, hash, file)) ==
    match Store(codec, form, opt, raw, o)
    case Err(error) => Err(error)
    case Ok(next) => Ok(Over(next, hash, file))
  }

  lemma JsonOver(codec: Codec, form: Form, opt: Opt, raw: string, o: Options, hash: Option<string>,
                 file: Option<string>)
    requires opt in [InputSchema, OutputSchema, ApprovalSchema, AccumulatorSchema]
    ensures StoresOver(codec, form, opt, raw, o, hash, file)
  {
  }

  lemma ParsedOver(codec: Codec, form: Form, opt: Opt, raw: string, o: Options, hash: Option<string>,
                   file: Option<string>)
    requires opt in [Input, Concurrency, BodySubgraph, MaxIterations, JoinRule, Bound, Seconds]
    ensures StoresOver(codec, form, opt, raw, o, hash, file)
  {
  }

  lemma StoreOver(codec: Codec, form: Form, opt: Opt, raw: string, o: Options, hash: Option<string>,
                  file: Option<string>)
    ensures StoresOver(codec, form, opt, raw, o, hash, file)
  {
    if opt in [InputSchema, OutputSchema, ApprovalSchema, AccumulatorSchema] {
      JsonOver(codec, form, opt, raw, o, hash, file);
    } else if opt in [Input, Concurrency, BodySubgraph, MaxIterations, JoinRule, Bound, Seconds] {
      ParsedOver(codec, form, opt, raw, o, hash, file);
    }
  }

  /** Reading over a hash and a file given earlier is reading, and then putting them
      where the rest gives none. */
  ghost predicate ReadsOver(codec: Codec, form: Form, tokens: seq<string>, o: Options, hash: Option<string>,
                            file: Option<string>) {
    ReadOptions(codec, form, tokens, Over(o, hash, file)) ==
    match ReadOptions(codec, form, tokens, o)
    case Err(error) => Err(error)
    case Ok(r) => Ok(Over(r, hash, file))
  }

  lemma PairOver(codec: Codec, form: Form, opt: Opt, tokens: seq<string>, o: Options, hash: Option<string>,
                 file: Option<string>)
    requires |tokens| > 1 && OptionOf(form, tokens[0]) == Some(opt) && !opt.Model?
    requires var stored := Store(codec, form, opt, tokens[1], o);
             stored.Ok? ==> ReadsOver(codec, form, tokens[2..], stored.value, hash, file)
    ensures ReadsOver(codec, form, tokens, o, hash, file)
  {
    StoreOver(codec, form, opt, tokens[1], o, hash, file);
    ReadNext(codec, form, opt, tokens, o);
    ReadNext(codec, form, opt, tokens, Over(o, hash, file));
  }

  lemma FlagOver(codec: Codec, form: Form, tokens: seq<string>, o: Options, hash: Option<string>, file: Option<string>)
    requires tokens != [] && OptionOf(form, tokens[0]) == Some(Model)
    requires ReadsOver(codec, form, tokens[1..], o.(model := true), hash, file)
    ensures ReadsOver(codec, form, tokens, o, hash, file)
  {
    RoundTrip.FlagReads(codec, form, tokens, o);
    RoundTrip.FlagReads(codec, form, tokens, Over(o, hash, file));
  }

  lemma StuckOver(codec: Codec, form: Form, tokens: seq<string>, o: Options, hash: Option<string>, file: Option<string>)
    requires tokens != [] ==>
               OptionOf(form, tokens[0]).None? || (|tokens| == 1 && OptionOf(form, tokens[0]) != Some(Model))
    ensures ReadsOver(codec, form, tokens, o, hash, file)
  {
  }

  /** A hash and a file given earlier only show where the rest gives none. */
  lemma {:induction false} ReadOver(codec: Codec, form: Form, tokens: seq<string>, o: Options, hash: Option<string>,
                                    file: Option<string>)
    ensures ReadsOver(codec, form, tokens, o, hash, file)
    decreases |tokens|
  {
    if tokens == [] || OptionOf(form, tokens[0]).None? {
      StuckOver(codec, form, tokens, o, hash, file);
    } else {
      var opt := OptionOf(form, tokens[0]).value;
      if opt == Model {
        ReadOver(codec, form, tokens[1..], o.(model := true), hash, file);
        FlagOver(codec, form, tokens, o, hash, file);
      } else if |tokens| == 1 {
        StuckOver(codec, form, tokens, o, hash, file);
      } else {
        var stored := Store(codec, form, opt, tokens[1], o);
        if stored.Ok? {
          ReadOver(codec, form, tokens[2..], stored.value, hash, file);
        }
        PairOver(codec, form, opt, tokens, o, hash, file);
      }
    }
  }

  lemma ReadNext(codec: Codec, form: Form, opt: Opt, tokens: seq<string>, o: Options)
    requires |tokens| > 1 && OptionOf(form, tokens[0]) == Some(opt) && !opt.Model?
    ensures ReadOptions(codec, form, tokens, o) ==
            match Store(codec, form, opt, tokens[1], o)
            case Err(error) => Err(error)
            case Ok(next) => ReadOptions(codec, form, tokens[2..], next)
  {
  }

  /** Options that end where an option may start are read first, then the rest. */
  lemma {:induction false} ReadAppend(codec: Codec, form: Form, a: seq<string>, b: seq<string>, o: Options)
    requires ReadOptions(codec, form, a, o).Ok?
    ensures ReadOptions(codec, form, a + b, o) == ReadOptions(codec, form, b, ReadOptions(codec, form, a, o).value)
    decreases |a|
  {
    if a == [] {
      assert a + b == b;
    } else {
      match OptionOf(form, a[0])
      case Some(opt) =>
        if opt.Model? {
          assert (a + b)[1..] == a[1..] + b;
          ReadAppend(codec, form, a[1..], b, o.(model := true));
        } else {
          assert (a + b)[2..] == a[2..] + b;
          ReadAppend(codec, form, a[2..], b, Store(codec, form, opt, a[1], o).value);
        }
    }
  }

  /** The line of an agent or a branch: its id, then options. */
  function ParseHashed(codec: Codec, form: Form, id: string, options: seq<string>): Result<Line, ParseError>
    requires form.AddAgent? || form.AddBranch?
  {
    if form.AddAgent? then ParseAddAgent(codec, [id] + options) else ParseAddBranch(codec, [id] + options)
  }

  function Build(form: Form, id: string, o: Options): Result<Line, ParseError>
    requires form.AddAgent? || form.AddBranch?
  {
    if form.AddAgent? then BuildAgent(id, o) else BuildBranch(id, o)
  }

  lemma ParseHashedIs(codec: Codec, form: Form, id: string, options: seq<string>)
    requires form.AddAgent? || form.AddBranch?
    ensures ParseHashed(codec, form, id, options) ==
            match ReadOptions(codec, form, options, NO_OPTIONS)
            case Err(error) => Err(error)
            case Ok(o) => Build(form, id, o)
  {
    assert ([id] + options)[1..] == options;
  }

  /** Reads options with `--file` or `--hash` and its value in the middle. */
  lemma MiddleOption(codec: Codec, form: Form, before: seq<string>, opt: Opt, raw: string, after: seq<string>)
    requires form.AddAgent? || form.AddBranch?
    requires opt.Hash? || opt.File?
    requires ReadOptions(codec, form, before, NO_OPTIONS).Ok?
    ensures var m := ReadOptions(codec, form, before, NO_OPTIONS).value;
            ReadOptions(codec, form, before + [OptText(opt), raw] + after, NO_OPTIONS) ==
            ReadOptions(codec, form, after, if opt.Hash? then m.(hash := Some(raw)) else m.(file := Some(raw)))
  {
    var m := ReadOptions(codec, form, before, NO_OPTIONS).value;
    var rest := [OptText(opt), raw] + after;
    assert before + [OptText(opt), raw] + after == before + rest;
    ReadAppend(codec, form, before, rest, NO_OPTIONS);
    assert rest[0] == OptText(opt) && rest[1] == raw && rest[2..] == after;
    RoundTrip.OptionReads(codec, form, opt, rest, m);
  }

  /** For every option list, in any order: put `--file path` or `--hash hash` at a
      place where an option may start. Both lines parse exactly when the other
      options parse and give neither a hash nor a file of their own; and then the
      first asks the host for `path`, and completing its draft with `hash` is the
      command of the second. */
  lemma FileThenHashIsHash(codec: Codec, form: Form, id: string, before: seq<string>, after: seq<string>,
                           path: string, hash: string)
    requires form.AddAgent? || form.AddBranch?
    requires ReadOptions(codec, form, before, NO_OPTIONS).Ok?
    ensures var named := ParseHashed(codec, form, id, before + ["--file", path] + after);
            var given := ParseHashed(codec, form, id, before + ["--hash", hash] + after);
            var others := ReadOptions(codec, form, before + after, NO_OPTIONS);
            && (named.Ok? && given.Ok? <==> others.Ok? && others.value.hash.None? && others.value.file.None?)
            && (named.Ok? && given.Ok? ==>
                  && named.value.Host? && named.value.request.AgentFile?
                  && named.value.request.path == path
                  && given.value == CommandLine(WithHash(named.value.request.draft, hash)))
  {
    var m := ReadOptions(codec, form, before, NO_OPTIONS).value;
    var base := ReadOptions(codec, form, after, Cleared(m));
    MiddleOption(codec, form, before, File, path, after);
    MiddleOption(codec, form, before, Hash, hash, after);
    ReadAppend(codec, form, before, after, NO_OPTIONS);
    ReadOver(codec, form, after, Cleared(m), m.hash, m.file);
    ReadOver(codec, form, after, Cleared(m), m.hash, Some(path));
    ReadOver(codec, form, after, Cleared(m), Some(hash), m.file);
    assert Over(Cleared(m), m.hash, m.file) == m;
    assert Over(Cleared(m), m.hash, Some(path)) == m.(file := Some(path));
    assert Over(Cleared(m), Some(hash), m.file) == m.(hash := Some(hash));
    ParseHashedIs(codec, form, id, before + ["--file", path] + after);
    ParseHashedIs(codec, form, id, before + ["--hash", hash] + after);
    if base.Ok? {
      BuildsMatch(form, id, base.value, m.hash, m.file, path, hash);
    }
  }

  lemma BuildsMatch(form: Form, id: string, r: Options, earlierHash: Option<string>, earlierFile: Option<string>,
                    path: string, hash: string)
    requires form.AddAgent? || form.AddBranch?
    ensures var named := Build(form, id, Over(r, earlierHash, Some(path)));
            var given := Build(form, id, Over(r, Some(hash), earlierFile));
            var others := Over(r, earlierHash, earlierFile);
            && (named.Ok? && given.Ok? <==> others.hash.None? && others.file.None?)
            && (named.Ok? && given.Ok? ==>
                  && named.value.Host? && named.value.request.AgentFile?
                  && named.value.request.path == path
                  && given.value == CommandLine(WithHash(named.value.request.draft, hash)))
  {
  }
}
