/** A best-by reference that holds whitespace never comes back.

    The reference is dumped without quoting, so the scanner reads the line apart
    at its first whitespace. Every later token is then read out of step with how
    it was written, and the rest of the reference is free to hold quotes, braces
    and option names of its own. What is shown here is that no such reference
    can arrange for the rest of the line to give the whole of it back. */
module References {
  import opened Commands
  import opened Errors
  import opened Graph
  import opened Json
  import opened JsonTokens
  import opened Parser
  import opened Printer
  import opened RoundTrip
  import opened Text
  import opened Tokenizer

  // --- quoted tokens that close beyond a point ------------------------------

  /** How long the end of the text is that has no quote and no backslash. */
  function PlainTail(s: string): (n: nat)
    ensures n <= |s|
  {
    if s == "" || Delimits(s[|s| - 1]) then 0 else 1 + PlainTail(s[..|s| - 1])
  }

  lemma {:induction false} PlainTailAppend(a: string, b: string)
    ensures PlainTail(a + b) == if PlainTail(b) < |b| then PlainTail(b) else |b| + PlainTail(a)
    decreases |b|
  {
    if b == "" {
      assert a + b == a;
    } else {
      assert (a + b)[..|a + b| - 1] == a + b[..|b| - 1];
      PlainTailAppend(a, b[..|b| - 1]);
    }
  }

  lemma PlainTailPair(a: string, e: char)
    ensures PlainTail(a + ['\\', e]) == if Delimits(e) then 0 else 1
    ensures PlainTail(a + [Unescaped(e)]) >= PlainTail(a + ['\\', e])
  {
    assert (a + ['\\', e])[..|a| + 1] == a + ['\\'];
  }

  /** Reading an escape does not shorten the plain end of what is read. */
  lemma PlainTailEscape(a: string, e: char, x: string)
    ensures PlainTail(a + ['\\', e] + x) <= PlainTail(a + [Unescaped(e)] + x)
  {
    PlainTailPair(a, e);
    PlainTailAppend(a + ['\\', e], x);
    PlainTailAppend(a + [Unescaped(e)], x);
  }

  /** The first quote or backslash of the text, if there is one, is a quote. */
  predicate QuoteFirst(s: string) {
    s == "" || s[0] == '"' || (s[0] != '\\' && QuoteFirst(s[1..]))
  }

  function QuoteAt(s: string): (n: nat)
    ensures n <= |s|
    ensures n < |s| ==> s[n] == '"'
  {
    if s == "" || s[0] == '"' then 0 else 1 + QuoteAt(s[1..])
  }

  lemma {:induction false} ClosesAtQuote(y: string, text: string)
    requires QuoteFirst(y)
    ensures ReadQuoted(y, text) ==
            if QuoteAt(y) < |y| then Closed(text + y[..QuoteAt(y)], y[QuoteAt(y) + 1..]) else Open
    ensures forall i :: 0 <= i < QuoteAt(y) ==> !Delimits(y[i])
    decreases |y|
  {
    if y != "" && y[0] != '"' {
      ClosesAtQuote(y[1..], text + [y[0]]);
      assert y[..QuoteAt(y)] == [y[0]] + y[1..][..QuoteAt(y[1..])];
      assert text + [y[0]] + y[1..][..QuoteAt(y[1..])] == text + y[..QuoteAt(y)];
    } else if y != "" {
      assert text + y[..0] == text;
    }
  }

  lemma {:induction false} AllPlainTail(m: string)
    requires forall i :: 0 <= i < |m| ==> !Delimits(m[i])
    ensures PlainTail(m) == |m|
  {
    if m != "" {
      AllPlainTail(m[..|m| - 1]);
    }
  }

  lemma ClosesAt(y: string, text: string)
    requires QuoteFirst(y) && (y == "" || y[0] == ' ')
    requires ReadQuoted(y, text).Closed?
    ensures PlainTail(ReadQuoted(y, text).text) > PlainTail(text)
  {
    var m := QuoteAt(y);
    ClosesAtQuote(y, text);
    AllPlainTail(y[..m]);
    PlainTailAppend(text, y[..m]);
  }

  /** A quoted token that starts in `x` and closes in `y` ends in more plain text
      than `x` does. */
  lemma {:induction false} ClosesBeyond(x: string, y: string, text: string)
    requires QuoteFirst(y) && (y == "" || y[0] == ' ')
    requires ReadQuoted(x + y, text).Closed? && |ReadQuoted(x + y, text).rest| < |y|
    ensures PlainTail(ReadQuoted(x + y, text).text) > PlainTail(text + x)
    decreases |x|
  {
    if x == "" {
      assert x + y == y && text + x == text;
      ClosesAt(y, text);
    } else if x[0] == '\\' && |x| == 1 {
      var s := x + y;
      assert s[0] == '\\' && s[1] == ' ' && s[2..] == y[1..];
      assert ReadQuoted(s, text) == ReadQuoted(y[1..], text + [' ']);
      assert ReadQuoted(y, text) == ReadQuoted(y[1..], text + [' ']);
      ClosesAt(y, text);
      assert (text + x)[|text|] == '\\';
    } else if x[0] == '\\' {
      assert (x + y)[2..] == x[2..] + y;
      ClosesBeyond(x[2..], y, text + [Unescaped(x[1])]);
      PlainTailEscape(text, x[1], x[2..]);
      assert text + ['\\', x[1]] + x[2..] == text + x;
    } else if x[0] != '"' {
      assert (x + y)[1..] == x[1..] + y;
      ClosesBeyond(x[1..], y, text + [x[0]]);
      assert text + [x[0]] + x[1..] == text + x;
    }
  }

  lemma {:induction false} QuotedIsShorter(s: string, text: string)
    requires ReadQuoted(s, text).Closed?
    ensures |ReadQuoted(s, text).text| + |ReadQuoted(s, text).rest| < |text| + |s|
    decreases |s|
  {
    if s[0] == '"' {
    } else if s[0] == '\\' {
      QuotedIsShorter(s[2..], text + [Unescaped(s[1])]);
    } else {
      QuotedIsShorter(s[1..], text + [s[0]]);
    }
  }

  /** The rule with a reference that holds a quote ends in no more plain text than
      what follows the quote. */
  lemma RuleTail(w: string, x: string)
    ensures PlainTail(BEST_BY + (w + ['"'] + x)) <= PlainTail(x)
    ensures |BEST_BY + (w + ['"'] + x)| > |x|
  {
    var front := BEST_BY + w + ['"'];
    PlainTailAppend(front, x);
    assert front[|front| - 1] == '"';
    assert front + x == BEST_BY + (w + ['"'] + x);
  }

  /** What a quoted token that starts in `x` reads: less text than `x`, or more plain
      text at the end. */
  lemma ReadsLessOrBeyond(x: string, y: string)
    requires QuoteFirst(y) && (y == "" || y[0] == ' ') && ReadQuoted(x + y, "").Closed?
    ensures var text := ReadQuoted(x + y, "").text;
            |text| < |x| || PlainTail(text) > PlainTail(x)
  {
    QuotedIsShorter(x + y, "");
    if |ReadQuoted(x + y, "").rest| < |y| {
      ClosesBeyond(x, y, "");
      assert "" + x == x;
    }
  }

  /** A token that opens with a quote of the reference is not the rule with that
      whole reference. `r` is `w`, the quote, and `x`; `y` is the rest of the line. */
  lemma NotFromReference(w: string, x: string, y: string)
    requires QuoteFirst(y) && (y == "" || y[0] == ' ')
    ensures NextToken(['"'] + x + y).Token? ==> NextToken(['"'] + x + y).text != BEST_BY + (w + ['"'] + x)
  {
    assert (['"'] + x + y)[1..] == x + y;
    if ReadQuoted(x + y, "").Closed? {
      RuleTail(w, x);
      ReadsLessOrBeyond(x, y);
    }
  }

  // --- quotes that cannot start the token -----------------------------------

  /** The last character of the text that is not whitespace. */
  function LastMark(last: char, s: string): char
    decreases |s|
  {
    if s == "" then last else LastMark(if IsWhitespace(s[0]) then last else s[0], s[1..])
  }

  lemma {:induction false} LastMarkAppend(last: char, a: string, b: string)
    ensures LastMark(last, a + b) == LastMark(LastMark(last, a), b)
    decreases |a|
  {
    if a == "" {
      assert a + b == b;
    } else {
      assert (a + b)[1..] == a[1..] + b;
      LastMarkAppend(if IsWhitespace(a[0]) then last else a[0], a[1..], b);
    }
  }

  predicate EndsField(c: char) {
    c == ',' || c == ':' || c == '}' || c == ']' || c == ' '
  }

  /** The token before ends in neither what `--join` ends in nor a quote, or what
      follows the quote cannot start the rule's text. */
  predicate Guarded(last: char, after: string) {
    (last != 'n' && last != '"') || after == "" || EndsField(after[0])
  }

  /** Every quote of the text is guarded. */
  predicate Fenced(last: char, s: string)
    decreases |s|
  {
    s == "" || ((s[0] == '"' ==> Guarded(last, s[1..])) && Fenced(LastMark(last, s[..1]), s[1..]))
  }

  /** `s` is fenced whatever fenced text follows it; unless `free`, only if that
      text is empty or ends a field. */
  ghost predicate Keeps(last: char, s: string, free: bool) {
    forall rest {:trigger Fenced(last, s + rest)} ::
      (free || rest == "" || EndsField(rest[0])) && Fenced(LastMark(last, s), rest) ==> Fenced(last, s + rest)
  }

  lemma KeepsNothing(last: char)
    ensures Keeps(last, "", true)
  {
    forall rest | Fenced(last, rest)
      ensures Fenced(last, "" + rest)
    {
      assert "" + rest == rest;
    }
  }

  lemma KeepsBoth(last: char, a: string, free: bool, b: string, free': bool)
    requires Keeps(last, a, free) && Keeps(LastMark(last, a), b, free')
    requires free || (b != "" && EndsField(b[0]))
    ensures Keeps(last, a + b, free')
  {
    LastMarkAppend(last, a, b);
    forall rest {:trigger Fenced(last, a + b + rest)} |
      (free' || rest == "" || EndsField(rest[0])) && Fenced(LastMark(last, a + b), rest)
      ensures Fenced(last, a + b + rest)
    {
      KeepsOne(last, a, free, b, free', rest);
    }
  }

  lemma KeepsOne(last: char, a: string, free: bool, b: string, free': bool, rest: string)
    requires Keeps(last, a, free) && Keeps(LastMark(last, a), b, free')
    requires free || (b != "" && EndsField(b[0]))
    requires (free' || rest == "" || EndsField(rest[0])) && Fenced(LastMark(LastMark(last, a), b), rest)
    ensures Fenced(last, a + b + rest)
  {
    KeepsUse(LastMark(last, a), b, free', rest);
    var more := b + rest;
    assert b != "" ==> more[0] == b[0];
    KeepsUse(last, a, free, more);
    assert a + b + rest == a + more;
  }

  lemma KeepsUse(last: char, s: string, free: bool, rest: string)
    requires Keeps(last, s, free) && Fenced(LastMark(last, s), rest)
    requires free || rest == "" || EndsField(rest[0])
    ensures Fenced(last, s + rest)
  {
  }

  lemma FencedFirst(last: char, c: char, rest: string)
    ensures Fenced(last, [c] + rest) <==>
            (c == '"' ==> Guarded(last, rest)) && Fenced(LastMark(last, [c]), rest)
  {
    var s := [c] + rest;
    assert s[..1] == [c] && s[1..] == rest;
  }

  lemma KeepsChar(last: char, c: char)
    ensures c != '"' ==> Keeps(last, [c], true)
    ensures c == '"' && last != 'n' && last != '"' ==> Keeps(last, [c], true)
    ensures Keeps(last, [c], false)
  {
    forall rest {
      FencedFirst(last, c, rest);
    }
  }

  lemma {:induction false} KeepsPlain(last: char, s: string)
    requires '"' !in s
    ensures Keeps(last, s, true)
    decreases |s|
  {
    if s == "" {
      KeepsNothing(last);
    } else {
      KeepsChar(last, s[0]);
      KeepsPlain(LastMark(last, [s[0]]), s[1..]);
      KeepsBoth(last, [s[0]], true, s[1..], true);
      assert [s[0]] + s[1..] == s;
    }
  }

  /** An escape: its quote, if it has one, follows the backslash. */
  lemma KeepsEscape(last: char, e: string)
    requires e != "" && (e[0] == '\\' ==> |e| >= 2 && '"' !in e[2..])
    requires e[0] != '\\' ==> '"' !in e
    ensures Keeps(last, e, true)
  {
    if e[0] == '\\' {
      KeepsChar(last, '\\');
      KeepsChar('\\', e[1]);
      KeepsBoth(last, ['\\'], true, [e[1]], true);
      KeepsPlain(LastMark(last, ['\\'] + [e[1]]), e[2..]);
      KeepsBoth(last, ['\\'] + [e[1]], true, e[2..], true);
      assert ['\\'] + [e[1]] + e[2..] == e;
    } else {
      KeepsPlain(last, e);
    }
  }

  lemma {:induction false} KeepsEscapeText(last: char, text: string)
    ensures Keeps(last, EscapeText(text), true)
    decreases |text|
  {
    if text == "" {
      KeepsNothing(last);
    } else {
      var e := EscapeChar(text[0]);
      EscapeCharForm(text[0]);
      KeepsEscape(last, e);
      KeepsEscapeText(LastMark(last, e), text[1..]);
      KeepsBoth(last, e, true, EscapeText(text[1..]), true);
    }
  }

  lemma {:induction false} KeepsEscapeWord(last: char, text: string)
    ensures Keeps(last, EscapeWord(text), true)
    decreases |text|
  {
    if text == "" {
      KeepsNothing(last);
    } else {
      var e := EscapeWordChar(text[0]);
      KeepsEscape(last, e);
      KeepsEscapeWord(LastMark(last, e), text[1..]);
      KeepsBoth(last, e, true, EscapeWord(text[1..]), true);
    }
  }

  lemma KeepsQuoted(last: char, inner: string)
    requires last != 'n' && last != '"'
    requires Keeps('"', inner, true)
    ensures Keeps(last, ['"'] + inner + ['"'], false)
  {
    KeepsChar(last, '"');
    assert LastMark(last, ['"']) == '"';
    KeepsBoth(last, ['"'], true, inner, true);
    KeepsChar(LastMark(last, ['"'] + inner), '"');
    KeepsBoth(last, ['"'] + inner, true, ['"'], false);
  }

  predicate Opens(last: char) {
    last != 'n' && last != '"'
  }

  lemma {:induction false} KeepsJson(last: char, j: Json)
    requires WellFormed(j) && Opens(last)
    ensures Keeps(last, Print(j), false)
    decreases j, 1
  {
    match j
    case Str(text) =>
      KeepsEscapeText('"', text);
      KeepsQuoted(last, EscapeText(text));
    case Arr(items) =>
      KeepsItems('[', items);
      KeepsWrapped(last, '[', PrintItems(items), ']');
    case Obj(members) =>
      KeepsMembers('{', members);
      KeepsWrapped(last, '{', PrintMembers(members), '}');
    case _ => KeepsPlain(last, Print(j));
  }

  lemma KeepsWrapped(last: char, open: char, inner: string, close: char)
    requires (open == '[' || open == '{') && (close == ']' || close == '}')
    requires Keeps(open, inner, false)
    ensures Keeps(last, [open] + inner + [close], false)
  {
    KeepsChar(last, open);
    assert LastMark(last, [open]) == open;
    KeepsBoth(last, [open], true, inner, false);
    KeepsChar(LastMark(last, [open] + inner), close);
    KeepsBoth(last, [open] + inner, false, [close], false);
  }

  lemma KeepsThenChar(last: char, s: string, c: char)
    requires Keeps(last, s, false) && (c == ',' || c == ':')
    ensures Keeps(last, s + [c], true) && LastMark(last, s + [c]) == c
  {
    KeepsChar(LastMark(last, s), c);
    KeepsBoth(last, s, false, [c], true);
    LastMarkAppend(last, s, [c]);
  }

  lemma {:induction false} KeepsItems(last: char, items: seq<Json>)
    requires Opens(last) && forall i :: 0 <= i < |items| ==> WellFormed(items[i])
    ensures Keeps(last, PrintItems(items), false)
    decreases items, 0
  {
    if items == [] {
      KeepsNothing(last);
    } else {
      KeepsJson(last, items[0]);
      if |items| > 1 {
        KeepsThenChar(last, Print(items[0]), ',');
        KeepsItems(',', items[1..]);
        KeepsBoth(last, Print(items[0]) + ",", true, PrintItems(items[1..]), false);
      }
    }
  }

  lemma KeepsMember(last: char, m: Member)
    requires Opens(last) && Keeps(':', Print(m.value), false)
    ensures Keeps(last, PrintMember(m), false)
  {
    KeepsEscapeText('"', m.name);
    KeepsQuoted(last, EscapeText(m.name));
    KeepsThenChar(last, PrintString(m.name), ':');
    KeepsBoth(last, PrintString(m.name) + ":", true, Print(m.value), false);
  }

  lemma {:induction false} KeepsMembers(last: char, members: seq<Member>)
    requires Opens(last) && forall i :: 0 <= i < |members| ==> WellFormed(members[i].value)
    ensures Keeps(last, PrintMembers(members), false)
    decreases members, 0
  {
    if members == [] {
      KeepsNothing(last);
    } else {
      KeepsJson(':', members[0].value);
      KeepsMember(last, members[0]);
      if |members| > 1 {
        KeepsThenChar(last, PrintMember(members[0]), ',');
        KeepsMembers(',', members[1..]);
        KeepsBoth(last, PrintMember(members[0]) + ",", true, PrintMembers(members[1..]), false);
      }
    }
  }

  // --- the rest of a fold's line --------------------------------------------

  /** Pieces that go on with a line, each after a space. */
  function Spaced(pieces: seq<string>): string {
    if pieces == [] then "" else " " + pieces[0] + Spaced(pieces[1..])
  }

  lemma {:induction false} JoinSpaced(a: seq<string>, b: seq<string>)
    requires a != []
    ensures Join(a + b) == Join(a) + Spaced(b)
    decreases |a| + |b|
  {
    if |a| > 1 {
      assert (a + b)[1..] == a[1..] + b;
      JoinSpaced(a[1..], b);
      assert Join(a + b) == a[0] + " " + (Join(a[1..]) + Spaced(b));
    } else if b == [] {
      assert a + b == a;
    } else {
      assert (a + b)[1..] == b && b == [b[0]] + b[1..];
      JoinSpaced([b[0]], b[1..]);
    }
  }

  lemma {:induction false} SpacedAppend(a: seq<string>, b: seq<string>)
    ensures Spaced(a + b) == Spaced(a) + Spaced(b)
    decreases |a|
  {
    if a == [] {
      assert a + b == b;
    } else {
      assert (a + b)[1..] == a[1..] + b;
      SpacedAppend(a[1..], b);
    }
  }

  lemma WrittenAppend(a: seq<Piece>, b: seq<Piece>)
    ensures Written(a + b) == Written(a) + Written(b)
  {
  }

  function BoundText(bound: Option<OnBound>): string {
    match bound case None => "" case Some(b) => " --on-bound " + OnBoundText(b)
  }

  function SchemaText(schema: Option<Json>): string {
    match schema case None => "" case Some(j) => " --accumulator-schema " + Print(j)
  }

  function NameText(name: Option<string>): string {
    match name case None => "" case Some(text) => " --name " + Word(text)
  }

  /** What a fold's line goes on with after its join rule. */
  function RestText(node: Node): string
    requires node.FoldNode?
  {
    BoundText(node.onBound) + (SchemaText(node.accumulatorSchema) + NameText(node.name))
  }

  lemma SpacedOption(opt: Opt, piece: Piece)
    ensures Spaced(Written(Option1(opt, piece))) == " " + OptText(opt) + " " + piece.Written()
  {
    var w := Written(Option1(opt, piece));
    assert w == [OptText(opt), piece.Written()];
    SpacedPair(OptText(opt), piece.Written());
  }

  lemma SpacedPair(a: string, b: string)
    ensures Spaced([a, b]) == " " + a + " " + b
  {
    assert [a, b][1..] == [b];
    assert [b][1..] == [];
    assert Spaced([b]) == " " + b + "";
  }

  lemma BoundIs(bound: Option<OnBound>)
    ensures Spaced(Written(OnBoundOption(bound))) == BoundText(bound)
  {
    if bound.Some? {
      SpacedOption(Bound, Literal(OnBoundText(bound.value)));
    }
  }

  lemma SchemaLabel()
    ensures " " + OptText(AccumulatorSchema) + " " == " --accumulator-schema "
  {
  }

  lemma SchemaIs(schema: Option<Json>)
    ensures Spaced(Written(JsonOption(AccumulatorSchema, schema))) == SchemaText(schema)
  {
    if schema.Some? {
      SpacedOption(AccumulatorSchema, JsonOf(schema.value));
      SchemaLabel();
    }
  }

  lemma NameIs(name: Option<string>)
    ensures Spaced(Written(WordOption(Name, name))) == NameText(name)
  {
    if name.Some? {
      SpacedOption(Name, WordOf(name.value));
    }
  }

  lemma SpacedPieces(a: seq<Piece>, b: seq<Piece>)
    ensures Spaced(Written(a + b)) == Spaced(Written(a)) + Spaced(Written(b))
  {
    WrittenAppend(a, b);
    SpacedAppend(Written(a), Written(b));
  }

  lemma RestIs(node: Node)
    requires node.FoldNode?
    ensures Spaced(Written(FoldBack(node))) == RestText(node)
  {
    var schema, name := JsonOption(AccumulatorSchema, node.accumulatorSchema), WordOption(Name, node.name);
    BoundIs(node.onBound);
    SchemaIs(node.accumulatorSchema);
    NameIs(node.name);
    SpacedPieces(schema, name);
    SpacedPieces(OnBoundOption(node.onBound), schema + name);
  }

  lemma LastMarkSpaced(last: char, s: string, c: char)
    requires !IsWhitespace(c)
    ensures LastMark(last, s + [c, ' ']) == c
  {
    LastMarkAppend(last, s, [c, ' ']);
    assert [c, ' '][1..] == [' '];
    assert [' '][1..] == [];
    assert LastMark(c, [' ']) == LastMark(c, []);
  }

  lemma BoundKeeps(last: char, bound: Option<OnBound>)
    ensures Keeps(last, BoundText(bound), true)
  {
    KeepsPlain(last, BoundText(bound));
  }

  lemma SchemaKeeps(last: char, schema: Option<Json>)
    requires WellFormedSchema(schema)
    ensures Keeps(last, SchemaText(schema), false)
  {
    match schema
    case None => KeepsNothing(last);
    case Some(j) =>
      var front := " --accumulator-schema ";
      KeepsPlain(last, front);
      LastMarkSpaced(last, " --accumulator-schem", 'a');
      assert front == " --accumulator-schem" + ['a', ' '];
      KeepsJson('a', j);
      KeepsBoth(last, front, true, Print(j), false);
  }

  lemma NameKeeps(last: char, name: Option<string>)
    ensures Keeps(last, NameText(name), false)
  {
    match name
    case None => KeepsNothing(last);
    case Some(text) =>
      var front := " --name ";
      KeepsPlain(last, front);
      LastMarkSpaced(last, " --nam", 'e');
      assert front == " --nam" + ['e', ' '];
      if PlainWord(text) {
        KeepsPlain('e', Word(text));
        KeepsBoth(last, front, true, Word(text), true);
      } else {
        KeepsEscapeWord('"', text);
        KeepsQuoted('e', EscapeWord(text));
        KeepsBoth(last, front, true, Word(text), false);
      }
  }

  /** Whatever comes before it, no quote in the rest of the line can start the
      rule's text right after a `--join`. */
  lemma RestFenced(last: char, node: Node)
    requires node.FoldNode? && WellFormedSchema(node.accumulatorSchema)
    ensures Fenced(last, RestText(node))
  {
    var bound, schema, name := BoundText(node.onBound), SchemaText(node.accumulatorSchema), NameText(node.name);
    var afterBound := LastMark(last, bound);
    var afterSchema := LastMark(afterBound, schema);
    BoundKeeps(last, node.onBound);
    SchemaKeeps(afterBound, node.accumulatorSchema);
    NameKeeps(afterSchema, node.name);
    assert name + "" == name;
    KeepsUse(afterSchema, name, false, "");
    KeepsUse(afterBound, schema, false, name);
    KeepsUse(last, bound, true, schema + name);
  }

  lemma {:induction false} QuoteFirstAppend(a: string, b: string)
    requires QuoteFirst(a) && QuoteFirst(b)
    ensures QuoteFirst(a + b)
    decreases |a|
  {
    if a == "" {
      assert a + b == b;
    } else if a[0] != '"' {
      assert (a + b)[1..] == a[1..] + b;
      QuoteFirstAppend(a[1..], b);
    }
  }

  lemma {:induction false} NoBackslash(s: string)
    requires forall i :: 0 <= i < |s| ==> s[i] != '\\'
    ensures QuoteFirst(s)
    decreases |s|
  {
    if s != "" {
      NoBackslash(s[1..]);
    }
  }

  lemma {:induction false} JsonQuoteFirst(j: Json)
    requires WellFormed(j)
    ensures QuoteFirst(Print(j))
    decreases j, 1
  {
    match j
    case Str(text) => assert Print(j)[0] == '"';
    case Arr(items) =>
      ItemsQuoteFirst(items);
      QuoteFirstAppend("[", PrintItems(items));
      QuoteFirstAppend("[" + PrintItems(items), "]");
    case Obj(members) =>
      MembersQuoteFirst(members);
      QuoteFirstAppend("{", PrintMembers(members));
      QuoteFirstAppend("{" + PrintMembers(members), "}");
    case _ => NoBackslash(Print(j));
  }

  lemma MembersQuoteFirst(members: seq<Member>)
    ensures QuoteFirst(PrintMembers(members))
  {
    if members != [] {
      assert PrintMember(members[0])[0] == '"';
      assert PrintMembers(members)[0] == '"';
    }
  }

  lemma {:induction false} ItemsQuoteFirst(items: seq<Json>)
    requires forall i :: 0 <= i < |items| ==> WellFormed(items[i])
    ensures QuoteFirst(PrintItems(items))
    decreases items, 0
  {
    if items != [] {
      JsonQuoteFirst(items[0]);
      if |items| > 1 {
        ItemsQuoteFirst(items[1..]);
        QuoteFirstAppend(Print(items[0]), ",");
        QuoteFirstAppend(Print(items[0]) + ",", PrintItems(items[1..]));
      }
    }
  }

  lemma WordQuoteFirst(text: string)
    ensures QuoteFirst(Word(text))
  {
    if PlainWord(text) {
      NoBackslash(text);
    }
  }

  /** Text after a space, with no backslash before its first quote; or none. */
  predicate FieldText(s: string) {
    QuoteFirst(s) && (s == "" || s[0] == ' ')
  }

  lemma FieldsQuoteFirst(a: string, b: string)
    requires FieldText(a) && FieldText(b)
    ensures FieldText(a + b)
  {
    QuoteFirstAppend(a, b);
  }

  lemma SchemaQuoteFirst(schema: Option<Json>)
    requires WellFormedSchema(schema)
    ensures FieldText(SchemaText(schema))
  {
    if schema.Some? {
      NoBackslash(" --accumulator-schema ");
      JsonQuoteFirst(schema.value);
      QuoteFirstAppend(" --accumulator-schema ", Print(schema.value));
    }
  }

  lemma NameQuoteFirst(name: Option<string>)
    ensures FieldText(NameText(name))
  {
    if name.Some? {
      NoBackslash(" --name ");
      WordQuoteFirst(name.value);
      QuoteFirstAppend(" --name ", Word(name.value));
    }
  }

  lemma RestQuoteFirst(node: Node)
    requires node.FoldNode? && WellFormedSchema(node.accumulatorSchema)
    ensures FieldText(RestText(node))
  {
    var bound, schema, name := BoundText(node.onBound), SchemaText(node.accumulatorSchema), NameText(node.name);
    NoBackslash(bound);
    SchemaQuoteFirst(node.accumulatorSchema);
    NameQuoteFirst(node.name);
    FieldsQuoteFirst(schema, name);
    FieldsQuoteFirst(bound, schema + name);
  }

  // --- scanning the rest ----------------------------------------------------

  /** The reference from its first whitespace on, and the rest of the line. */
  predicate Splits(r: string, z: string, y: string) {
    && |z| <= |r| && r[|r| - |z|..] == z
    && QuoteFirst(y) && (y == "" || y[0] == ' ')
    && forall last :: Fenced(last, y)
  }

  /** The token is the bare or the quoted spelling of `--join`, so it ends in what
      that ends in. */
  lemma JoinTokenEnds(u: string)
    requires u != "" && !IsWhitespace(u[0])
    requires NextToken(u).Token? && NextToken(u).text == "--join"
    ensures var taken := u[..|u| - |NextToken(u).rest|];
            taken != "" && (taken[|taken| - 1] == 'n' || taken[|taken| - 1] == '"')
  {
    if u[0] == '"' {
      QuotedTakes(u[1..], "");
    } else {
      UnquotedTakes(u);
      assert "--join"[5] == 'n';
    }
  }

  /** A token that is not quoted is the text it takes. */
  lemma UnquotedTakes(u: string)
    requires u != "" && !IsWhitespace(u[0]) && u[0] != '"'
    requires NextToken(u).Token?
    ensures NextToken(u).text == u[..|u| - |NextToken(u).rest|]
    ensures NextToken(u).text != "" && NextToken(u).text[0] == u[0]
    ensures u[0] != '{' && u[0] != '[' ==>
              forall i :: 0 <= i < |NextToken(u).text| ==> !IsWhitespace(NextToken(u).text[i])
  {
    if u[0] == '{' || u[0] == '[' {
      OpenerTakesSome(u);
    }
  }

  lemma {:induction false} QuotedTakes(s: string, text: string)
    requires ReadQuoted(s, text).Closed?
    ensures var n := |s| - |ReadQuoted(s, text).rest|;
            0 < n <= |s| && s[n - 1] == '"'
    decreases |s|
  {
    if s[0] == '\\' {
      QuotedTakes(s[2..], text + [Unescaped(s[1])]);
    } else if s[0] != '"' {
      QuotedTakes(s[1..], text + [s[0]]);
    }
  }

  lemma LastMarkOf(last: char, s: string)
    requires s != "" && !IsWhitespace(s[|s| - 1])
    ensures LastMark(last, s) == s[|s| - 1]
  {
    assert s == s[..|s| - 1] + [s[|s| - 1]];
    LastMarkAppend(last, s[..|s| - 1], [s[|s| - 1]]);
  }

  lemma {:induction false} FencedFrom(last: char, a: string, b: string)
    requires Fenced(last, a + b)
    ensures Fenced(LastMark(last, a), b)
    decreases |a|
  {
    if a == "" {
      assert a + b == b;
    } else {
      assert a + b == [a[0]] + (a[1..] + b);
      FencedFirst(last, a[0], a[1..] + b);
      FencedFrom(LastMark(last, [a[0]]), a[1..], b);
      assert a == [a[0]] + a[1..];
      LastMarkAppend(last, [a[0]], a[1..]);
    }
  }

  /** A quoted token whose quote is guarded by what follows it does not start with
      the rule's first letter. */
  lemma FieldEndIsNotRule(after: string)
    requires after == "" || EndsField(after[0])
    ensures ReadQuoted(after, "").Closed? ==> ReadQuoted(after, "").text == "" || ReadQuoted(after, "").text[0] != 'b'
  {
    if after != "" {
      assert "" + [after[0]] == [after[0]];
      assert ReadQuoted(after, "") == ReadQuoted(after[1..], [after[0]]);
      QuotedKeepsFront(after[1..], [after[0]]);
    }
  }

  lemma {:induction false} QuotedKeepsFront(s: string, text: string)
    ensures ReadQuoted(s, text).Closed? ==> text <= ReadQuoted(s, text).text
    decreases |s|
  {
    if s != "" && s[0] != '"' {
      if s[0] != '\\' {
        QuotedKeepsFront(s[1..], text + [s[0]]);
      } else if |s| > 1 {
        QuotedKeepsFront(s[2..], text + [Unescaped(s[1])]);
      }
    }
  }

  /** The token read at `at` is the whole rule only if it opens with a quote of the
      rest of the line, with neither of the two endings before it. */
  lemma RuleToken(r: string, z: string, y: string, at: nat)
    requires Splits(r, z, y) && HasWhitespace(r)
    requires at < |z + y| && !IsWhitespace((z + y)[at])
    requires NextToken((z + y)[at..]).Token? && NextToken((z + y)[at..]).text == BEST_BY + r
    ensures at >= |z| && Opens(LastMark('.', (z + y)[..at]))
  {
    var u := (z + y)[at..];
    RuleIsQuoted(r, u);
    if at < |z| {
      var x := z[at + 1..];
      var w := r[..|r| - |x| - 1];
      assert u == ['"'] + x + y;
      assert z[at] == r[|r| - |z| + at] == '"';
      assert r == w + ['"'] + x;
      NotFromReference(w, x, y);
      assert false;
    } else {
      var p := at - |z|;
      assert (z + y)[..at] == z + y[..p] && u == y[p..] && y == y[..p] + y[p..];
      var last := LastMark('.', z);
      LastMarkAppend('.', z, y[..p]);
      FencedFrom(last, y[..p], y[p..]);
      assert u == ['"'] + u[1..];
      FencedFirst(LastMark(last, y[..p]), '"', u[1..]);
      assert (BEST_BY + r)[0] == 'b';
      if !Opens(LastMark(last, y[..p])) {
        FieldEndIsNotRule(u[1..]);
      }
    }
  }

  /** The whole rule holds whitespace, so only a quoted token can be it. */
  lemma RuleIsQuoted(r: string, u: string)
    requires HasWhitespace(r)
    requires u != "" && !IsWhitespace(u[0])
    requires NextToken(u).Token? && NextToken(u).text == BEST_BY + r
    ensures u[0] == '"'
  {
    var i :| 0 <= i < |r| && IsWhitespace(r[i]);
    assert (BEST_BY + r)[|BEST_BY| + i] == r[i] && (BEST_BY + r)[0] == 'b';
    if u[0] != '"' {
      UnquotedTakes(u);
    }
  }

  predicate Pair(tokens: seq<string>, i: nat, a: string, b: string) {
    i + 1 < |tokens| && tokens[i] == a && tokens[i + 1] == b
  }

  /** Nothing from `at` on is a `--join` followed by the whole rule, and the
      rule comes first only where no `--join` ended. */
  ghost predicate Unruled(r: string, full: string, at: nat)
    requires at <= |full|
  {
    var tokens := TokensOf(full[at..]).tokens;
    && (forall i :: !Pair(tokens, i, "--join", BEST_BY + r))
    && (tokens != [] && tokens[0] == BEST_BY + r ==> Opens(LastMark('.', full[..at])))
  }

  lemma UnruledSpace(r: string, full: string, at: nat)
    requires at < |full| && IsWhitespace(full[at])
    requires Unruled(r, full, at + 1)
    ensures Unruled(r, full, at)
  {
    assert full[at..][1..] == full[at + 1..];
    assert full[..at + 1] == full[..at] + [full[at]];
    LastMarkAppend('.', full[..at], [full[at]]);
  }

  lemma PairFirst(first: string, more: seq<string>, a: string, b: string)
    requires forall i :: !Pair(more, i, a, b)
    requires !(first == a && more != [] && more[0] == b)
    ensures forall i :: !Pair([first] + more, i, a, b)
  {
    forall i: nat
      ensures !Pair([first] + more, i, a, b)
    {
      if i > 0 {
        assert !Pair(more, i - 1, a, b);
      }
    }
  }

  lemma UnruledToken(r: string, full: string, at: nat, next: nat)
    requires at < next <= |full| && !IsWhitespace(full[at])
    requires NextToken(full[at..]).Token? && NextToken(full[at..]).rest == full[next..]
    requires NextToken(full[at..]).text == BEST_BY + r ==> Opens(LastMark('.', full[..at]))
    requires Unruled(r, full, next)
    ensures Unruled(r, full, at)
  {
    var u := full[at..];
    var text, more := NextToken(u).text, TokensOf(full[next..]).tokens;
    assert TokensOf(u).tokens == [text] + more;
    if text == "--join" {
      JoinTokenEnds(u);
      assert u[..|u| - |full[next..]|] == full[at..next];
      LastMarkOf('.', full[..next]);
    }
    PairFirst(text, more, "--join", BEST_BY + r);
  }

  /** No `--join` in the rest of the line is followed by the whole rule. */
  lemma {:induction false} NoRuleAfterJoin(r: string, z: string, y: string, at: nat)
    requires Splits(r, z, y) && HasWhitespace(r)
    requires at <= |z + y| && TokensOf((z + y)[at..]).failure.None?
    ensures Unruled(r, z + y, at)
    decreases |z + y| - at
  {
    var full := z + y;
    if at < |full| {
      if IsWhitespace(full[at]) {
        assert full[at..][1..] == full[at + 1..];
        NoRuleAfterJoin(r, z, y, at + 1);
        UnruledSpace(r, full, at);
      } else {
        var next := |full| - |NextToken(full[at..]).rest|;
        assert full[at..][|full[at..]| - |full[next..]|..] == full[next..];
        NoRuleAfterJoin(r, z, y, next);
        if NextToken(full[at..]).text == BEST_BY + r {
          RuleToken(r, z, y, at);
        }
        UnruledToken(r, full, at, next);
      }
    }
  }

  // --- the options that are read --------------------------------------------

  lemma {:induction false} SpelledIs(opts: seq<Opt>, token: string)
    ensures Spelled(opts, token).Some? ==> OptText(Spelled(opts, token).value) == token
  {
    if opts != [] && OptText(opts[0]) != token {
      SpelledIs(opts[1..], token);
    }
  }

  lemma StoreJoin(codec: Codec, opt: Opt, raw: string, o: Options)
    ensures var s := Store(codec, AddFold, opt, raw, o);
            s.Ok? ==> s.value.join == if opt == JoinRule then OkOption(ParseJoin(raw)) else o.join
  {
  }

  lemma ParsedRule(raw: string, r: string)
    ensures ParseJoin(raw) == Ok(BestBy(r)) ==> raw == BEST_BY + r
  {
  }

  /** Options that set the rule hold the rule after a `--join`. */
  lemma {:induction false} RuleNeedsPair(codec: Codec, r: string, tokens: seq<string>, o: Options)
    requires o.join != Some(BestBy(r))
    requires forall i :: !Pair(tokens, i, "--join", BEST_BY + r)
    ensures var end := ReadOptions(codec, AddFold, tokens, o);
            end.Ok? ==> end.value.join != Some(BestBy(r))
    decreases |tokens|
  {
    if tokens != [] && OptionOf(AddFold, tokens[0]).Some? {
      var opt := OptionOf(AddFold, tokens[0]).value;
      SpelledIs(Allowed(AddFold), tokens[0]);
      if opt == Model {
        PairsAfter(tokens, 1, "--join", BEST_BY + r);
        RuleNeedsPair(codec, r, tokens[1..], o.(model := true));
      } else if |tokens| > 1 {
        StoreJoin(codec, opt, tokens[1], o);
        ParsedRule(tokens[1], r);
        PairsAfter(tokens, 2, "--join", BEST_BY + r);
        assert !Pair(tokens, 0, "--join", BEST_BY + r);
        if Store(codec, AddFold, opt, tokens[1], o).Ok? {
          RuleNeedsPair(codec, r, tokens[2..], Store(codec, AddFold, opt, tokens[1], o).value);
        }
      }
    }
  }

  lemma PairsAfter(tokens: seq<string>, n: nat, a: string, b: string)
    requires n <= |tokens| && forall i :: !Pair(tokens, i, a, b)
    ensures forall i :: !Pair(tokens[n..], i, a, b)
  {
    forall i: nat
      ensures !Pair(tokens[n..], i, a, b)
    {
      assert !Pair(tokens, n + i, a, b);
    }
  }

  // --- the line of a fold ---------------------------------------------------

  lemma PiecesScanOn(pieces: seq<Piece>, more: string)
    requires pieces != [] && AllFaithful(pieces) && AtBoundary(more)
    ensures TokensOf(Join(Written(pieces)) + more) == TokensOf(more).Prepend(Readings(pieces))
  {
    forall i | 0 <= i < |pieces|
      ensures ReadsAs(Written(pieces)[i], Readings(pieces)[i])
    {
      PieceReadsAs(pieces[i]);
    }
    JoinScansOn(Written(pieces), Readings(pieces), more);
  }

  /** Where the first whitespace is. */
  function SpaceAt(s: string): (n: nat)
    requires HasWhitespace(s)
    ensures n < |s| && IsWhitespace(s[n]) && !HasWhitespace(s[..n])
  {
    if IsWhitespace(s[0]) then 0
    else
      assert forall i :: 0 < i < |s| ==> s[i] == s[1..][i - 1];
      var n := SpaceAt(s[1..]);
      assert s[..n + 1] == [s[0]] + s[1..][..n];
      n + 1
  }

  /** What comes before a fold's rule. */
  function UpToRule(codec: Codec, node: Node): seq<Piece>
    requires node.FoldNode?
  {
    [Literal("add"), Literal("fold"), WordOf(node.id)] + FoldFront(codec, node) + [Literal("--join")]
  }

  lemma UpToRuleFaithful(codec: Codec, node: Node)
    requires Faithful(codec) && node.FoldNode? && WellFormedBody(codec, node.body)
    ensures AllFaithful(UpToRule(codec, node))
  {
    KeywordsFaithful();
    KindsFaithful(node);
    FoldFrontFaithful(codec, node);
    OptTextFaithful(JoinRule);
  }

  lemma UpToRuleReads(codec: Codec, node: Node)
    requires node.FoldNode?
    ensures Readings(UpToRule(codec, node)) ==
            ["add", "fold", node.id] + Readings(FoldFront(codec, node)) + ["--join"]
  {
  }

  lemma FoldPieces(codec: Codec, node: Node)
    requires node.FoldNode?
    ensures CommandPieces(codec, Add(node)) == UpToRule(codec, node) + [Literal(JoinText(node.join))] + FoldBack(node)
  {
    FoldParts(codec, node);
  }

  /** The line of a fold whose rule is cut at `n`: the pieces up to there, and
      what is left of the line. */
  lemma FoldLine(codec: Codec, node: Node, n: nat)
    requires node.FoldNode? && node.join.BestBy? && n <= |node.join.reference|
    ensures var r := node.join.reference;
            ToLine(codec, Add(node)) ==
            Join(Written(UpToRule(codec, node) + [Literal(BEST_BY + r[..n])])) + (r[n..] + RestText(node))
  {
    var r, front := node.join.reference, UpToRule(codec, node);
    var whole, cut := [Literal(BEST_BY + r)], [Literal(BEST_BY + r[..n])];
    FoldPieces(codec, node);
    WrittenAppend(front + whole, FoldBack(node));
    JoinSpaced(Written(front + whole), Written(FoldBack(node)));
    RestIs(node);
    JoinLast(front, BEST_BY + r);
    JoinLast(front, BEST_BY + r[..n]);
    assert BEST_BY + r == BEST_BY + r[..n] + r[n..];
    CutText(Join(Written(front)) + " ", BEST_BY + r[..n], r[n..], RestText(node));
  }

  lemma CutText(a: string, b: string, c: string, d: string)
    ensures a + (b + c) + d == a + b + (c + d)
  {
  }

  lemma JoinLast(front: seq<Piece>, text: string)
    requires front != []
    ensures Join(Written(front + [Literal(text)])) == Join(Written(front)) + " " + text
  {
    WrittenAppend(front, [Literal(text)]);
    assert Written([Literal(text)]) == [text];
    JoinSpaced(Written(front), [text]);
    assert Spaced([text]) == " " + text + Spaced([text][1..]);
  }

  // --- the converse ---------------------------------------------------------

  /** Tokens as pieces that read as them. */
  function Plainly(tokens: seq<string>): (pieces: seq<Piece>)
    ensures Readings(pieces) == tokens
  {
    seq(|tokens|, i requires 0 <= i < |tokens| => WordOf(tokens[i]))
  }

  /** What a fold's line gives, from its front options on. */
  function FoldEnd(codec: Codec, node: Node, tokens: seq<string>): Result<Line, ParseError>
    requires node.FoldNode?
  {
    var o :- ReadOptions(codec, AddFold, tokens, FoldFrontOptions(node));
    AsLine(BuildFold(node.id, o))
  }

  lemma FoldReadsOn(codec: Codec, node: Node, tokens: seq<string>)
    requires Faithful(codec) && node.FoldNode? && WellFormedBody(codec, node.body)
    ensures ParseTokens(codec, ["add", "fold", node.id] + Readings(FoldFront(codec, node)) + tokens) ==
            FoldEnd(codec, node, tokens)
  {
    var options := Readings(FoldFront(codec, node)) + tokens;
    FrontReads(codec, node, tokens);
    FoldDispatches(codec, node, options);
    FoldTokens(node.id, Readings(FoldFront(codec, node)), tokens);
  }

  lemma FoldTokens(id: string, front: seq<string>, tokens: seq<string>)
    ensures ["add", "fold", id] + front + tokens == ["add", "fold"] + ([id] + (front + tokens))
  {
  }

  lemma FoldDispatches(codec: Codec, node: Node, options: seq<string>)
    requires node.FoldNode?
    ensures ParseTokens(codec, ["add", "fold"] + ([node.id] + options)) ==
            match ReadOptions(codec, AddFold, options, NO_OPTIONS)
            case Ok(o) => AsLine(BuildFold(node.id, o))
            case Err(error) => Err(error)
  {
    AddDispatches(codec, node, [node.id] + options);
    assert ([node.id] + options)[1..] == options;
  }

  lemma FrontReads(codec: Codec, node: Node, tokens: seq<string>)
    requires Faithful(codec) && node.FoldNode? && WellFormedBody(codec, node.body)
    ensures ReadOptions(codec, AddFold, Readings(FoldFront(codec, node)) + tokens, NO_OPTIONS) ==
            ReadOptions(codec, AddFold, tokens, FoldFrontOptions(node))
  {
    var front := FoldFront(codec, node);
    FoldFrontLeads(codec, node);
    assert Readings(front + Plainly(tokens)) == Readings(front) + tokens;
  }

  /** A fold's line gives a fold with its rule only if a `--join` with the whole
      rule stands after its front options. */
  lemma FoldNeedsPair(codec: Codec, node: Node, tokens: seq<string>)
    requires node.FoldNode? && node.join.BestBy?
    requires forall i :: !Pair(tokens, i, "--join", BEST_BY + node.join.reference)
    ensures FoldEnd(codec, node, tokens) != Ok(CommandLine(Add(node)))
  {
    RuleNeedsPair(codec, node.join.reference, tokens, FoldFrontOptions(node));
  }

  lemma CutTokens(codec: Codec, node: Node, n: nat, more: seq<string>)
    requires node.FoldNode? && node.join.BestBy? && n < |node.join.reference|
    requires forall i :: !Pair(more, i, "--join", BEST_BY + node.join.reference)
    ensures var cut := ["--join", BEST_BY + node.join.reference[..n]];
            && (forall i :: !Pair(cut + more, i, "--join", BEST_BY + node.join.reference))
            && Readings(UpToRule(codec, node) + [Literal(BEST_BY + node.join.reference[..n])]) + more ==
               ["add", "fold", node.id] + Readings(FoldFront(codec, node)) + (cut + more)
  {
    var r := node.join.reference;
    var last := BEST_BY + r[..n];
    assert |last| < |BEST_BY + r| && last[0] == 'b';
    PairFirst(last, more, "--join", BEST_BY + r);
    PairFirst("--join", [last] + more, "--join", BEST_BY + r);
    assert ["--join", last] + more == ["--join"] + ([last] + more);
  }

  lemma RestSplits(r: string, n: nat, node: Node)
    requires n <= |r| && node.FoldNode? && WellFormedSchema(node.accumulatorSchema)
    ensures Splits(r, r[n..], RestText(node))
  {
    RestQuoteFirst(node);
    forall last {
      RestFenced(last, node);
    }
  }

  /** A fold whose best-by reference holds whitespace never comes back. */
  lemma SpacedReferenceIsLost(codec: Codec, node: Node)
    requires Faithful(codec) && node.FoldNode? && WellFormedNode(codec, node)
    requires node.join.BestBy? && HasWhitespace(node.join.reference)
    ensures Parse(codec, ToLine(codec, Add(node))) != Ok(Some(CommandLine(Add(node))))
  {
    var r := node.join.reference;
    var n := SpaceAt(r);
    var pieces := UpToRule(codec, node) + [Literal(BEST_BY + r[..n])];
    var more := r[n..] + RestText(node);
    HeadIsWord(codec, Add(node));
    FoldLine(codec, node, n);
    UpToRuleFaithful(codec, node);
    JoinTextFaithful(BestBy(r[..n]));
    PiecesScanOn(pieces, more);
    var scanned := TokensOf(more);
    if scanned.failure.None? {
      RestSplits(r, n, node);
      assert more[0..] == more;
      NoRuleAfterJoin(r, r[n..], RestText(node), 0);
      CutTokens(codec, node, n, scanned.tokens);
      FoldReadsOn(codec, node, ["--join", BEST_BY + r[..n]] + scanned.tokens);
      FoldNeedsPair(codec, node, ["--join", BEST_BY + r[..n]] + scanned.tokens);
    }
  }

  /** Printing and parsing are inverse on exactly the commands with neither of
      the two shapes: for every document-changing command but a read that a line
      can hold, its own line parses back to it if and only if no schema of it is
      a bare JSON string and no best-by reference of it holds whitespace. */
  lemma RoundTripExactly(codec: Codec, c: Command)
    requires Faithful(codec) && WellFormedCommand(codec, c)
    requires Changes(c) && !c.ReadDocument?
    ensures Parse(codec, ToLine(codec, c)) == Ok(Some(CommandLine(c))) <==> ComesBack(c)
  {
    if c.Add? && !PlainJoin(c.node) {
      SpacedReferenceIsLost(codec, c.node);
    } else {
      PrintParse(codec, c);
    }
  }
}
