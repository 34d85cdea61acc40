/** A printed JSON value as a token of a line.

    An object or an array scans as exactly one token equal to itself, whatever
    braces, quotes and backslashes its strings hold. A bare string does not: the
    scanner takes its quotes off, and no bare string survives that. */
module JsonTokens {
  import opened Text
  import opened Json
  import opened Tokenizer

  // --- the braces scan over printed text ------------------------------------

  function Plus(n: nat, more: Option<nat>): Option<nat> {
    match more
    case None => None
    case Some(m) => Some(n + m)
  }

  /** The characters that end or escape inside quotes. */
  predicate Delimits(c: char) {
    c == '"' || c == '\\'
  }

  /** The characters the braces scan looks at. */
  predicate Structural(c: char) {
    Delimits(c) || c == '{' || c == '}' || c == '[' || c == ']'
  }

  /** The scan goes over `s` without closing and turns `before` into `after`. */
  ghost predicate Passes(s: string, before: Braces, after: Braces) {
    forall rest :: BalancedLength(s + rest, before) == Plus(|s|, BalancedLength(rest, after))
  }

  lemma PassesEmpty(b: Braces)
    ensures Passes("", b, b)
  {
    forall rest
      ensures BalancedLength("" + rest, b) == Plus(0, BalancedLength(rest, b))
    {
      assert "" + rest == rest;
    }
  }

  lemma PassesChar(c: char, b: Braces)
    requires !Closes(b, c)
    ensures Passes([c], b, Advance(b, c))
  {
    forall rest
      ensures BalancedLength([c] + rest, b) == Plus(1, BalancedLength(rest, Advance(b, c)))
    {
      assert ([c] + rest)[1..] == rest;
    }
  }

  /** The scan over one text that it passes, and what follows it. */
  lemma PassesOver(s: string, before: Braces, after: Braces, rest: string)
    requires Passes(s, before, after)
    ensures BalancedLength(s + rest, before) == Plus(|s|, BalancedLength(rest, after))
  {
  }

  lemma PassesOverBoth(s: string, t: string, a: Braces, b: Braces, c: Braces, rest: string)
    requires Passes(s, a, b) && Passes(t, b, c)
    ensures BalancedLength(s + t + rest, a) == Plus(|s + t|, BalancedLength(rest, c))
  {
    Assoc(s, t, rest);
    PassesOver(s, a, b, t + rest);
    PassesOver(t, b, c, rest);
  }

  lemma PassesBoth(s: string, t: string, a: Braces, b: Braces, c: Braces)
    requires Passes(s, a, b) && Passes(t, b, c)
    ensures Passes(s + t, a, c)
  {
    forall rest
      ensures BalancedLength(s + t + rest, a) == Plus(|s + t|, BalancedLength(rest, c))
    {
      PassesOverBoth(s, t, a, b, c, rest);
    }
  }

  /** Text with no quote, backslash, brace or bracket leaves the scan as it was. */
  lemma {:induction false} PassesNeutral(s: string, b: Braces)
    requires !b.escaped && forall i :: 0 <= i < |s| ==> !Structural(s[i])
    ensures Passes(s, b, b)
  {
    if s == "" {
      PassesEmpty(b);
    } else {
      PassesChar(s[0], b);
      PassesNeutral(s[1..], b);
      PassesBoth([s[0]], s[1..], b, b, b);
      assert [s[0]] + s[1..] == s;
    }
  }

  /** A backslash pair, and whatever neutral text follows it, inside a string. */
  lemma PassesEscape(e: char, more: string, b: Braces)
    requires b.inString && !b.escaped && forall i :: 0 <= i < |more| ==> !Structural(more[i])
    ensures Passes(['\\', e] + more, b, b)
  {
    PassesChar('\\', b);
    PassesChar(e, b.(escaped := true));
    PassesBoth(['\\'], [e], b, b.(escaped := true), b);
    PassesNeutral(more, b);
    PassesBoth(['\\'] + [e], more, b, b, b);
    assert ['\\'] + [e] == ['\\', e];
  }

  lemma PassesEscapeChar(c: char, b: Braces)
    requires b.inString && !b.escaped
    ensures Passes(EscapeChar(c), b, b)
  {
    var s := EscapeChar(c);
    EscapeCharForm(c);
    if s[0] == '\\' {
      assert s == ['\\', s[1]] + s[2..];
      PassesEscape(s[1], s[2..], b);
    } else {
      PassesChar(c, b);
    }
  }

  lemma {:induction false} PassesEscapeText(text: string, b: Braces)
    requires b.inString && !b.escaped
    ensures Passes(EscapeText(text), b, b)
  {
    if text == "" {
      PassesEmpty(b);
    } else {
      PassesEscapeChar(text[0], b);
      PassesEscapeText(text[1..], b);
      PassesBoth(EscapeChar(text[0]), EscapeText(text[1..]), b, b, b);
    }
  }

  /** Outside strings, inside `d` openers. */
  function Inside(d: nat): Braces {
    Braces(d, false, false)
  }

  lemma PassesString(text: string, d: nat)
    ensures Passes(PrintString(text), Inside(d), Inside(d))
  {
    var within := Braces(d, true, false);
    PassesChar('"', Inside(d));
    PassesEscapeText(text, within);
    PassesBoth(['"'], EscapeText(text), Inside(d), within, within);
    PassesChar('"', within);
    PassesBoth(['"'] + EscapeText(text), ['"'], Inside(d), within, Inside(d));
  }

  /** A whole value inside `d` openers leaves as many unclosed as it found. */
  lemma {:induction false} PassesValue(j: Json, d: nat)
    requires LiteralNumbers(j) && d > 0
    ensures Passes(Print(j), Inside(d), Inside(d))
    decreases j, 1
  {
    match j
    case Str(text) => PassesString(text, d);
    case Arr(items) =>
      PassesItems(items, d + 1);
      PassesWrapped('[', PrintItems(items), ']', d);
    case Obj(members) =>
      PassesMembers(members, d + 1);
      PassesWrapped('{', PrintMembers(members), '}', d);
    case _ => PassesNeutral(Print(j), Inside(d));
  }

  lemma PassesWrapped(open: char, inner: string, close: char, d: nat)
    requires (open == '[' || open == '{') && (close == ']' || close == '}')
    requires d > 0 && Passes(inner, Inside(d + 1), Inside(d + 1))
    ensures Passes([open] + inner + [close], Inside(d), Inside(d))
  {
    PassesOpener(open, d);
    PassesBoth([open], inner, Inside(d), Inside(d + 1), Inside(d + 1));
    PassesCloser(close, d);
    PassesBoth([open] + inner, [close], Inside(d), Inside(d + 1), Inside(d));
  }

  lemma PassesOpener(open: char, d: nat)
    requires open == '[' || open == '{'
    ensures Passes([open], Inside(d), Inside(d + 1))
  {
    PassesChar(open, Inside(d));
  }

  lemma PassesCloser(close: char, d: nat)
    requires (close == ']' || close == '}') && d > 0
    ensures Passes([close], Inside(d + 1), Inside(d))
  {
    PassesChar(close, Inside(d + 1));
  }

  lemma {:induction false} PassesItems(items: seq<Json>, d: nat)
    requires d > 0 && forall i :: 0 <= i < |items| ==> LiteralNumbers(items[i])
    ensures Passes(PrintItems(items), Inside(d), Inside(d))
    decreases items, 0
  {
    if items == [] {
      PassesEmpty(Inside(d));
    } else {
      PassesValue(items[0], d);
      if |items| > 1 {
        PassesChar(',', Inside(d));
        PassesItems(items[1..], d);
        PassesBoth(Print(items[0]), ",", Inside(d), Inside(d), Inside(d));
        PassesBoth(Print(items[0]) + ",", PrintItems(items[1..]), Inside(d), Inside(d), Inside(d));
      }
    }
  }

  lemma PassesMember(m: Member, d: nat)
    requires Passes(Print(m.value), Inside(d), Inside(d))
    ensures Passes(PrintMember(m), Inside(d), Inside(d))
  {
    PassesString(m.name, d);
    PassesChar(':', Inside(d));
    PassesBoth(PrintString(m.name), ":", Inside(d), Inside(d), Inside(d));
    PassesBoth(PrintString(m.name) + ":", Print(m.value), Inside(d), Inside(d), Inside(d));
  }

  lemma {:induction false} PassesMembers(members: seq<Member>, d: nat)
    requires d > 0 && forall i :: 0 <= i < |members| ==> LiteralNumbers(members[i].value)
    ensures Passes(PrintMembers(members), Inside(d), Inside(d))
    decreases members, 0
  {
    if members == [] {
      PassesEmpty(Inside(d));
    } else {
      var m := members[0];
      PassesValue(m.value, d);
      PassesMember(m, d);
      if |members| > 1 {
        PassesChar(',', Inside(d));
        PassesMembers(members[1..], d);
        PassesBoth(PrintMember(m), ",", Inside(d), Inside(d), Inside(d));
        PassesBoth(PrintMember(m) + ",", PrintMembers(members[1..]), Inside(d), Inside(d), Inside(d));
      }
    }
  }

  /** The run that a wrapped text opens is that text, whatever follows it. */
  lemma WrappedLength(open: char, inner: string, close: char, rest: string)
    requires (open == '[' || open == '{') && (close == ']' || close == '}')
    requires Passes(inner, Inside(1), Inside(1))
    ensures BalancedLength([open] + inner + [close] + rest, START) == Some(|inner| + 2)
  {
    assert Advance(START, open) == Inside(1);
    PassesChar(open, START);
    PassesBoth([open], inner, START, Inside(1), Inside(1));
    ClosingLength([open] + inner, close, rest);
  }

  lemma ClosingLength(front: string, close: char, rest: string)
    requires close == ']' || close == '}'
    requires Passes(front, START, Inside(1))
    ensures BalancedLength(front + [close] + rest, START) == Some(|front| + 1)
  {
    var back := [close] + rest;
    assert front + [close] + rest == front + back;
    assert Closes(Inside(1), back[0]);
  }

  /** JSON as one token: a printed object or array, wherever a token may start
      and whatever follows it, is scanned as exactly itself. */
  lemma JsonIsOneToken(j: Json, rest: string)
    requires LiteralNumbers(j) && (j.Arr? || j.Obj?)
    ensures NextToken(Print(j) + rest) == Token(Print(j), rest)
  {
    if j.Arr? {
      PassesItems(j.items, 1);
      WrappedLength('[', PrintItems(j.items), ']', rest);
    } else {
      PassesMembers(j.members, 1);
      WrappedLength('{', PrintMembers(j.members), '}', rest);
    }
    var s := Print(j) + rest;
    assert s[0] == Print(j)[0];
    assert s[..|Print(j)|] == Print(j) && s[|Print(j)|..] == rest;
  }

  // --- a bare string --------------------------------------------------------

  /** What the scanner makes of one character of a printed string. */
  function TokenChar(c: char): string {
    if c == '\U{0008}' then "b"
    else if c == '\U{000C}' then "f"
    else if c == '\r' then "r"
    else if c < ' ' && c != '\n' && c != '\t' then
      "u00" + [HexDigit(c as nat / 16), HexDigit(c as nat % 16)]
    else [c]
  }

  /** What the scanner makes of a printed string: its text, unless it holds a
      control character other than newline and tab. */
  function TokenText(s: string): string {
    if s == "" then "" else TokenChar(s[0]) + TokenText(s[1..])
  }

  lemma {:induction false} NeutralQuoted(s: string, rest: string, before: string)
    requires forall i :: 0 <= i < |s| ==> !Delimits(s[i])
    ensures ReadQuoted(s + rest, before) == ReadQuoted(rest, before + s)
    decreases |s|
  {
    if s == "" {
      assert s + rest == rest && before + s == before;
    } else {
      assert (s + rest)[1..] == s[1..] + rest;
      NeutralQuoted(s[1..], rest, before + [s[0]]);
      assert before + [s[0]] + s[1..] == before + s;
    }
  }

  lemma PairQuoted(e: char, more: string, rest: string, before: string)
    requires forall i :: 0 <= i < |more| ==> !Delimits(more[i])
    ensures ReadQuoted(['\\', e] + more + rest, before) == ReadQuoted(rest, before + [Unescaped(e)] + more)
  {
    var s := ['\\', e] + more + rest;
    assert s[0] == '\\' && s[1] == e && s[2..] == more + rest;
    NeutralQuoted(more, rest, before + [Unescaped(e)]);
  }

  lemma ControlForm(a: char, b: char)
    requires a in "0123456789abcdef" && b in "0123456789abcdef"
    ensures var e := "\\u00" + [a, b];
            "u00" + [a, b] == [Unescaped(e[1])] + e[2..] && forall i :: 2 <= i < |e| ==> !Structural(e[i])
  {
  }

  lemma EscapeCharForm(c: char)
    ensures var e := EscapeChar(c);
            if e[0] == '\\' then
              |e| >= 2 && TokenChar(c) == [Unescaped(e[1])] + e[2..] &&
              forall i :: 2 <= i < |e| ==> !Structural(e[i])
            else e == [c] == TokenChar(c) && !Delimits(c)
  {
    if c < ' ' && c !in "\n\r\t\U{0008}\U{000C}" {
      ControlForm(HexDigit(c as nat / 16), HexDigit(c as nat % 16));
    } else if EscapeChar(c)[0] == '\\' {
      assert EscapeChar(c)[2..] == "";
    }
  }

  lemma CharQuoted(c: char, rest: string, before: string)
    ensures ReadQuoted(EscapeChar(c) + rest, before) == ReadQuoted(rest, before + TokenChar(c))
  {
    EscapeCharForm(c);
    var e, t := EscapeChar(c), TokenChar(c);
    EscapeQuoted(e, t, rest, before);
  }

  lemma EscapeQuoted(e: string, t: string, rest: string, before: string)
    requires e != ""
    requires e[0] == '\\' ==>
               |e| >= 2 && t == [Unescaped(e[1])] + e[2..] && forall i :: 2 <= i < |e| ==> !Delimits(e[i])
    requires e[0] != '\\' ==> t == e && |e| == 1 && !Delimits(e[0])
    ensures ReadQuoted(e + rest, before) == ReadQuoted(rest, before + t)
  {
    if e[0] == '\\' {
      assert e == ['\\', e[1]] + e[2..];
      PairQuoted(e[1], e[2..], rest, before);
      assert before + [Unescaped(e[1])] + e[2..] == before + t;
    } else {
      NeutralQuoted(e, rest, before);
    }
  }

  lemma {:induction false} TextQuoted(text: string, rest: string, before: string)
    ensures ReadQuoted(EscapeText(text) + ['"'] + rest, before) == Closed(before + TokenText(text), rest)
    decreases |text|
  {
    if text == "" {
      assert EscapeText(text) + ['"'] + rest == ['"'] + rest;
      assert before + TokenText(text) == before;
    } else {
      var tail := EscapeText(text[1..]) + ['"'] + rest;
      EscapedFirst(text, ['"'], rest);
      CharQuoted(text[0], tail, before);
      TextQuoted(text[1..], rest, before + TokenChar(text[0]));
      Assoc(before, TokenChar(text[0]), TokenText(text[1..]));
    }
  }

  lemma BareStringToken(text: string, rest: string)
    ensures NextToken(PrintString(text) + rest) == Token(TokenText(text), rest)
  {
    var inner := EscapeText(text) + ['"'] + rest;
    TextQuoted(text, rest, "");
    assert "" + TokenText(text) == TokenText(text);
    QuotedToken(inner, TokenText(text), rest);
    assert ['"'] + inner == PrintString(text) + rest;
  }

  /** The token a printed value is scanned as. */
  function JsonToken(j: Json): string {
    if j.Str? then TokenText(j.text) else Print(j)
  }

  lemma ScalarIsPlain(j: Json)
    requires LiteralNumbers(j) && !j.Str? && !j.Arr? && !j.Obj?
    ensures Print(j) != "" && Print(j)[0] !in "\"{["
    ensures forall i :: 0 <= i < |Print(j)| ==> !IsWhitespace(Print(j)[i])
  {
  }

  lemma PrintReadsAs(j: Json)
    requires LiteralNumbers(j)
    ensures ReadsAs(Print(j), JsonToken(j))
  {
    match j
    case Str(text) =>
      forall rest | AtBoundary(rest)
        ensures NextToken(Print(j) + rest) == Token(JsonToken(j), rest)
      {
        BareStringToken(text, rest);
      }
    case Arr(_) =>
      forall rest | AtBoundary(rest)
        ensures NextToken(Print(j) + rest) == Token(JsonToken(j), rest)
      {
        JsonIsOneToken(j, rest);
      }
    case Obj(_) =>
      forall rest | AtBoundary(rest)
        ensures NextToken(Print(j) + rest) == Token(JsonToken(j), rest)
      {
        JsonIsOneToken(j, rest);
      }
    case _ =>
      ScalarIsPlain(j);
      BareReadsAs(Print(j));
  }

  lemma TokenTextFrom(value: string, k: nat)
    requires k < |value|
    ensures |TokenText(value[k..])| == |TokenChar(value[k])| + |TokenText(value[k + 1..])|
  {
    assert value[k..][0] == value[k] && value[k..][1..] == value[k + 1..];
  }

  lemma TokenCharLength(c: char)
    ensures |TokenChar(c)| <= 5
    ensures c >= ' ' ==> |TokenChar(c)| == 1
  {
  }

  lemma SimpleEscapeLength(e: char)
    ensures SimpleEscape(e).Some? ==> |TokenChar(SimpleEscape(e).value)| == 1
  {
  }

  /** One character of a string literal, and the text after it. */
  lemma LiteralStep(s: string, text: string) returns (c: char, after: string)
    requires ReadString(s, text).Some? && s[0] != '"'
    ensures ReadString(s, text) == ReadString(after, text + [c])
    ensures |after| < |s| && |s| - |after| >= |TokenChar(c)|
  {
    if s[0] != '\\' {
      c, after := s[0], s[1..];
    } else if s[1] == 'u' {
      c, after := ReadUnicode(s[2..]).value.0, ReadUnicode(s[2..]).value.1;
    } else {
      c, after := SimpleEscape(s[1]).value, s[2..];
      SimpleEscapeLength(s[1]);
    }
    TokenCharLength(c);
  }

  /** A string literal is longer than the token its value scans to. */
  lemma {:induction false} LiteralIsLonger(s: string, text: string)
    requires ReadString(s, text).Some?
    ensures var (value, rest) := ReadString(s, text).value;
            text <= value && |s| > |TokenText(value[|text|..])| + |rest|
    decreases |s|
  {
    var (value, rest) := ReadString(s, text).value;
    if s[0] == '"' {
      assert value[|text|..] == "";
    } else {
      var c, after := LiteralStep(s, text);
      LiteralIsLonger(after, text + [c]);
      assert value[|text|] == (text + [c])[|text|] == c;
      TokenTextFrom(value, |text|);
    }
  }

  /** A value's token reads back as that value exactly when the value is not a
      bare string. */
  lemma JsonTokenReadsBack(j: Json)
    requires WellFormed(j)
    ensures Read(JsonToken(j)) == Some(j) <==> !j.Str?
  {
    if j.Str? {
      var token := TokenText(j.text);
      if Read(token) == Some(j) {
        var t := SkipSpace(token);
        assert t != "" && t[0] == '"';
        LiteralIsLonger(t[1..], "");
        assert false;
      }
    } else {
      ReadPrint(j);
    }
  }
}
