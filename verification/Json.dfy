/** JSON values, the compact printer, and a reader for JSON text (RFC 8259).

    An object keeps its members sorted by name, one per name, because the
    repository's JSON library keeps an object in an ordered map. */
module Json {
  import opened Ordered
  import opened Text

  datatype Json =
    | Null
    | Bool(value: bool)
    | Num(literal: string)
    | Str(text: string)
    | Arr(items: seq<Json>)
    | Obj(members: seq<Member>)

  type Member = Entry<Json>

  // --- well-formed values ---------------------------------------------------

  predicate IsNumberChar(c: char) {
    IsDigit(c) || c in "+-.eE"
  }

  /** The text after the longest run of digits at the front. */
  function AfterDigits(s: string): (rest: string)
    ensures |rest| <= |s|
  {
    if s != "" && IsDigit(s[0]) then AfterDigits(s[1..]) else s
  }

  /** RFC 8259, section 6: optional minus, an integer without leading zeros, an
      optional fraction, an optional exponent. */
  predicate IsNumber(s: string) {
    var unsigned := if s != "" && s[0] == '-' then s[1..] else s;
    && unsigned != "" && IsDigit(unsigned[0])
    && var afterInt := if unsigned[0] == '0' then unsigned[1..] else AfterDigits(unsigned);
    && (afterInt != "" && afterInt[0] == '.' ==> 1 < |afterInt| && IsDigit(afterInt[1]))
    && var afterFraction := if afterInt != "" && afterInt[0] == '.' then AfterDigits(afterInt[1..]) else afterInt;
    && (afterFraction == "" || IsExponent(afterFraction))
  }

  predicate IsExponent(s: string) {
    && s != "" && (s[0] == 'e' || s[0] == 'E')
    && var digits := if 1 < |s| && (s[1] == '+' || s[1] == '-') then s[2..] else s[1..];
    && digits != "" && AfterDigits(digits) == ""
  }

  predicate NumberLiteral(s: string) {
    && (forall i :: 0 <= i < |s| ==> IsNumberChar(s[i]))
    && IsNumber(s)
  }

  /** Every number is a literal: a value that JSON text can hold. */
  predicate LiteralNumbers(j: Json)
    decreases j, 0
  {
    match j
    case Num(literal) => NumberLiteral(literal)
    case Arr(items) => forall i :: 0 <= i < |items| ==> LiteralNumbers(items[i])
    case Obj(members) => forall i :: 0 <= i < |members| ==> LiteralNumbers(members[i].value)
    case _ => true
  }

  /** Every number is a literal and every object's names are strictly sorted. */
  predicate WellFormed(j: Json): (wellFormed: bool)
    ensures wellFormed ==> LiteralNumbers(j)
    decreases j, 0
  {
    match j
    case Num(literal) => NumberLiteral(literal)
    case Arr(items) => forall i :: 0 <= i < |items| ==> WellFormed(items[i])
    case Obj(members) =>
      && Sorted(members)
      && forall i :: 0 <= i < |members| ==> WellFormed(members[i].value)
    case _ => true
  }

  // --- printing -------------------------------------------------------------

  function HexDigit(n: nat): (c: char)
    requires n < 16
    ensures c in "0123456789abcdef"
    ensures HexValue(c) == Some(n)
  {
    "0123456789abcdef"[n]
  }

  function HexValue(c: char): Option<nat> {
    if '0' <= c <= '9' then Some(c as nat - '0' as nat)
    else if 'a' <= c <= 'f' then Some(c as nat - 'a' as nat + 10)
    else if 'A' <= c <= 'F' then Some(c as nat - 'A' as nat + 10)
    else None
  }

  function EscapeChar(c: char): (s: string)
    ensures s != ""
    ensures forall x :: x in s ==> x >= ' '
  {
    if c == '"' then ['\\', '"']
    else if c == '\\' then ['\\', '\\']
    else if c == '\U{0008}' then "\\b"
    else if c == '\U{000C}' then "\\f"
    else if c == '\n' then "\\n"
    else if c == '\r' then "\\r"
    else if c == '\t' then "\\t"
    else if c < ' ' then "\\u00" + [HexDigit(c as nat / 16), HexDigit(c as nat % 16)]
    else [c]
  }

  function EscapeText(s: string): string {
    if s == "" then "" else EscapeChar(s[0]) + EscapeText(s[1..])
  }

  function PrintString(s: string): string {
    ['"'] + EscapeText(s) + ['"']
  }

  /** The compact form: no whitespace outside strings. */
  function Print(j: Json): string
    decreases j, 0
  {
    match j
    case Null => "null"
    case Bool(b) => if b then "true" else "false"
    case Num(literal) => literal
    case Str(text) => PrintString(text)
    case Arr(items) => "[" + PrintItems(items) + "]"
    case Obj(members) => "{" + PrintMembers(members) + "}"
  }

  function PrintItems(items: seq<Json>): string
    decreases items, 1
  {
    if |items| == 0 then ""
    else if |items| == 1 then Print(items[0])
    else Print(items[0]) + "," + PrintItems(items[1..])
  }

  function PrintMember(m: Member): string
    decreases m, 1
  {
    PrintString(m.name) + ":" + Print(m.value)
  }

  function PrintMembers(members: seq<Member>): string
    decreases members, 2
  {
    if |members| == 0 then ""
    else if |members| == 1 then PrintMember(members[0])
    else PrintMember(members[0]) + "," + PrintMembers(members[1..])
  }

  // --- reading --------------------------------------------------------------

  function SkipSpace(s: string): (rest: string)
    ensures |rest| <= |s|
  {
    if s != "" && s[0] in " \t\n\r" then SkipSpace(s[1..]) else s
  }

  function Hex4(s: string): Option<nat>
    requires |s| >= 4
    ensures Hex4(s).Some? ==> Hex4(s).value < 0x1_0000
  {
    var a :- HexValue(s[0]);
    var b :- HexValue(s[1]);
    var c :- HexValue(s[2]);
    var d :- HexValue(s[3]);
    Some(((a * 16 + b) * 16 + c) * 16 + d)
  }

  /** One `\uXXXX` escape, or two that form a surrogate pair; `s` starts after
      the `u`. A lone surrogate is refused. */
  function ReadUnicode(s: string): (r: Option<(char, string)>)
    ensures r.Some? ==> |r.value.1| + 4 <= |s|
  {
    if |s| < 4 then None else
    var unit :- Hex4(s);
    if unit < 0xD800 || 0xE000 <= unit then Some((unit as char, s[4..]))
    else if 0xDC00 <= unit || |s| < 10 || s[4] != '\\' || s[5] != 'u' then None
    else
      var low :- Hex4(s[6..]);
      if low < 0xDC00 || 0xE000 <= low then None
      else Some(((0x1_0000 + (unit - 0xD800) * 0x400 + (low - 0xDC00)) as char, s[10..]))
  }

  function SimpleEscape(c: char): Option<char> {
    if c == '"' then Some('"')
    else if c == '\\' then Some('\\')
    else if c == '/' then Some('/')
    else if c == 'b' then Some('\U{0008}')
    else if c == 'f' then Some('\U{000C}')
    else if c == 'n' then Some('\n')
    else if c == 'r' then Some('\r')
    else if c == 't' then Some('\t')
    else None
  }

  /** The rest of a string literal whose opening quote has been read. */
  function ReadString(s: string, text: string): (r: Option<(string, string)>)
    ensures r.Some? ==> |r.value.1| < |s|
    decreases |s|
  {
    if s == "" || s[0] < ' ' then None
    else if s[0] == '"' then Some((text, s[1..]))
    else if s[0] != '\\' then ReadString(s[1..], text + [s[0]])
    else if |s| == 1 then None
    else if s[1] == 'u' then
      var (c, rest) :- ReadUnicode(s[2..]);
      ReadString(rest, text + [c])
    else
      var c :- SimpleEscape(s[1]);
      ReadString(s[2..], text + [c])
  }

  function NumberRun(s: string): (n: nat)
    ensures n <= |s|
    ensures forall i :: 0 <= i < n ==> IsNumberChar(s[i])
    ensures n < |s| ==> !IsNumberChar(s[n])
  {
    if s != "" && IsNumberChar(s[0]) then 1 + NumberRun(s[1..]) else 0
  }

  function ReadValue(s: string): (r: Option<(Json, string)>)
    ensures r.Some? ==> |r.value.1| < |s|
    decreases |s|, 0
  {
    var t := SkipSpace(s);
    if t == "" then None
    else if t[0] == '"' then
      var (text, rest) :- ReadString(t[1..], "");
      Some((Str(text), rest))
    else if t[0] == '[' then
      var u := SkipSpace(t[1..]);
      if u != "" && u[0] == ']' then Some((Arr([]), u[1..])) else ReadItems(u, [])
    else if t[0] == '{' then
      var u := SkipSpace(t[1..]);
      if u != "" && u[0] == '}' then Some((Obj([]), u[1..])) else ReadMembers(u, [])
    else if StartsWith(t, "null") then Some((Null, t[4..]))
    else if StartsWith(t, "true") then Some((Bool(true), t[4..]))
    else if StartsWith(t, "false") then Some((Bool(false), t[5..]))
    else
      var n := NumberRun(t);
      if n != 0 && IsNumber(t[..n]) then Some((Num(t[..n]), t[n..])) else None
  }

  function ReadItems(s: string, items: seq<Json>): (r: Option<(Json, string)>)
    ensures r.Some? ==> |r.value.1| < |s| && r.value.0.Arr?
    decreases |s|, 1
  {
    var (item, rest) :- ReadValue(s);
    var t := SkipSpace(rest);
    if t == "" then None
    else if t[0] == ']' then Some((Arr(items + [item]), t[1..]))
    else if t[0] == ',' then ReadItems(t[1..], items + [item])
    else None
  }

  /** A member's name and the colon after it. */
  function ReadName(s: string): (r: Option<(string, string)>)
    ensures r.Some? ==> |r.value.1| < |s|
  {
    var t := SkipSpace(s);
    if t == "" || t[0] != '"' then None else
    var (name, afterName) :- ReadString(t[1..], "");
    var u := SkipSpace(afterName);
    if u == "" || u[0] != ':' then None else Some((name, u[1..]))
  }

  function ReadMembers(s: string, members: seq<Member>): (r: Option<(Json, string)>)
    ensures r.Some? ==> |r.value.1| < |s| && r.value.0.Obj?
    decreases |s|, 1
  {
    var (name, afterColon) :- ReadName(s);
    var (value, afterValue) :- ReadValue(afterColon);
    var t := SkipSpace(afterValue);
    var grown := Put(members, Entry(name, value));
    if t == "" then None
    else if t[0] == '}' then Some((Obj(grown), t[1..]))
    else if t[0] == ',' then ReadMembers(t[1..], grown)
    else None
  }

  /** A whole text as one value: anything but whitespace after it is refused. */
  function Read(s: string): Option<Json> {
    var (j, rest) :- ReadValue(s);
    if SkipSpace(rest) == "" then Some(j) else None
  }

  // --- what was printed reads back ------------------------------------------

  lemma SimpleEscapeReads(c: char, e: char, rest: string, text: string)
    requires e != 'u' && SimpleEscape(e) == Some(c)
    ensures ReadString(['\\', e] + rest, text) == ReadString(rest, text + [c])
  {
    var s := ['\\', e] + rest;
    assert s[0] == '\\' && s[1] == e && s[2..] == rest;
  }

  lemma ControlEscapeReads(c: char, rest: string, text: string)
    requires c < ' '
    ensures ReadString("\\u00" + [HexDigit(c as nat / 16), HexDigit(c as nat % 16)] + rest, text)
         == ReadString(rest, text + [c])
  {
    var unit := "00" + [HexDigit(c as nat / 16), HexDigit(c as nat % 16)] + rest;
    ControlUnit(c, rest);
    UnicodeReads(unit, c, rest, text);
    ControlText(HexDigit(c as nat / 16), HexDigit(c as nat % 16), rest);
  }

  lemma UnicodeReads(unit: string, c: char, rest: string, text: string)
    requires ReadUnicode(unit) == Some((c, rest))
    ensures ReadString(['\\', 'u'] + unit, text) == ReadString(rest, text + [c])
  {
    assert (['\\', 'u'] + unit)[2..] == unit;
  }

  lemma ControlText(a: char, b: char, rest: string)
    ensures "\\u00" + [a, b] + rest == ['\\', 'u'] + ("00" + [a, b] + rest)
  {
  }

  lemma ControlUnit(c: char, rest: string)
    requires c < ' '
    ensures ReadUnicode("00" + [HexDigit(c as nat / 16), HexDigit(c as nat % 16)] + rest) == Some((c, rest))
  {
    var u := "00" + [HexDigit(c as nat / 16), HexDigit(c as nat % 16)] + rest;
    assert u[4..] == rest;
    ControlHex(u, c as nat);
  }

  lemma ControlHex(u: string, n: nat)
    requires n < 32 && |u| >= 4
    requires u[0] == '0' && u[1] == '0' && u[2] == HexDigit(n / 16) && u[3] == HexDigit(n % 16)
    ensures Hex4(u) == Some(n)
  {
    assert HexValue('0') == Some(0);
  }

  lemma EscapeCharReads(c: char, rest: string, text: string)
    ensures ReadString(EscapeChar(c) + rest, text) == ReadString(rest, text + [c])
  {
    if c == '"' {
      SimpleEscapeReads(c, '"', rest, text);
    } else if c == '\\' {
      SimpleEscapeReads(c, '\\', rest, text);
    } else if c == '\U{0008}' {
      SimpleEscapeReads(c, 'b', rest, text);
    } else if c == '\U{000C}' {
      SimpleEscapeReads(c, 'f', rest, text);
    } else if c == '\n' {
      SimpleEscapeReads(c, 'n', rest, text);
    } else if c == '\r' {
      SimpleEscapeReads(c, 'r', rest, text);
    } else if c == '\t' {
      SimpleEscapeReads(c, 't', rest, text);
    } else if c < ' ' {
      ControlEscapeReads(c, rest, text);
    } else {
      assert ([c] + rest)[1..] == rest;
    }
  }

  lemma FirstMoved(text: string, s: string)
    requires s != ""
    ensures text + [s[0]] + s[1..] == text + s
  {
  }

  lemma EscapedFirst(s: string, end: string, rest: string)
    requires s != ""
    ensures EscapeText(s) + end + rest == EscapeChar(s[0]) + (EscapeText(s[1..]) + end + rest)
  {
    Regrouped(EscapeChar(s[0]), EscapeText(s[1..]), end, rest);
  }

  lemma Regrouped(a: string, b: string, c: string, d: string)
    ensures a + b + c + d == a + (b + c + d)
  {
  }

  lemma {:induction false} EscapeTextReads(s: string, rest: string, text: string)
    ensures ReadString(EscapeText(s) + ['"'] + rest, text) == Some((text + s, rest))
    decreases |s|
  {
    if s == "" {
      assert EscapeText(s) + ['"'] + rest == ['"'] + rest;
      assert text + s == text;
    } else {
      var tail := EscapeText(s[1..]) + ['"'] + rest;
      EscapedFirst(s, ['"'], rest);
      EscapeCharReads(s[0], tail, text);
      EscapeTextReads(s[1..], rest, text + [s[0]]);
      FirstMoved(text, s);
    }
  }

  /** What may follow a value inside a printed text. */
  predicate EndsNumber(rest: string) {
    rest == "" || !IsNumberChar(rest[0])
  }

  lemma {:induction false} NumberRunIs(literal: string, rest: string)
    requires forall i :: 0 <= i < |literal| ==> IsNumberChar(literal[i])
    requires EndsNumber(rest)
    ensures NumberRun(literal + rest) == |literal|
    decreases |literal|
  {
    if literal != "" {
      assert (literal + rest)[1..] == literal[1..] + rest;
      NumberRunIs(literal[1..], rest);
    } else {
      assert literal + rest == rest;
    }
  }

  /** The first character of a printed value is never whitespace or a closer. */
  lemma PrintStarts(j: Json)
    requires WellFormed(j)
    ensures Print(j) != "" && (Print(j)[0] in "\"[{ntf-" || IsDigit(Print(j)[0]))
  {
  }

  lemma StringReads(text: string, rest: string)
    ensures ReadValue(PrintString(text) + rest) == Some((Str(text), rest))
  {
    var s := PrintString(text) + rest;
    assert SkipSpace(s) == s && s[1..] == EscapeText(text) + ['"'] + rest;
    EscapeTextReads(text, rest, "");
    assert "" + text == text;
  }

  lemma NumberReads(literal: string, rest: string)
    requires NumberLiteral(literal) && EndsNumber(rest)
    ensures ReadValue(literal + rest) == Some((Num(literal), rest))
  {
    var s := literal + rest;
    assert s[0] == literal[0] && (s[0] == '-' || IsDigit(s[0]));
    assert SkipSpace(s) == s;
    NumberRunIs(literal, rest);
    assert s[..|literal|] == literal && s[|literal|..] == rest;
  }

  lemma KeywordReads(j: Json, rest: string)
    requires j.Null? || j.Bool?
    ensures ReadValue(Print(j) + rest) == Some((j, rest))
  {
    var s := Print(j) + rest;
    assert s[0] == Print(j)[0] && SkipSpace(s) == s;
    assert s[|Print(j)|..] == rest && s[..|Print(j)|] == Print(j);
    assert StartsWith(s, Print(j));
  }

  lemma OpenBracket(inner: string)
    requires inner != "" && SkipSpace(inner) == inner
    ensures inner[0] == ']' ==> ReadValue("[" + inner) == Some((Arr([]), inner[1..]))
    ensures inner[0] != ']' ==> ReadValue("[" + inner) == ReadItems(inner, [])
  {
    var s := "[" + inner;
    assert SkipSpace(s) == s && s[1..] == inner;
  }

  lemma OpenBrace(inner: string)
    requires inner != "" && SkipSpace(inner) == inner
    ensures inner[0] == '}' ==> ReadValue("{" + inner) == Some((Obj([]), inner[1..]))
    ensures inner[0] != '}' ==> ReadValue("{" + inner) == ReadMembers(inner, [])
  {
    var s := "{" + inner;
    assert SkipSpace(s) == s && s[1..] == inner;
  }

  lemma {:induction false} PrintReads(j: Json, rest: string)
    requires WellFormed(j) && EndsNumber(rest)
    ensures ReadValue(Print(j) + rest) == Some((j, rest))
    decreases j, 3
  {
    match j
    case Arr(items) => ArrayReads(items, rest);
    case Obj(members) => ObjectReads(members, rest);
    case Str(text) => StringReads(text, rest);
    case Num(literal) => NumberReads(literal, rest);
    case _ => KeywordReads(j, rest);
  }

  lemma Wrapped(open: string, inner: string, close: string, rest: string)
    ensures open + inner + close + rest == open + (inner + (close + rest))
  {
  }

  lemma {:induction false} ArrayReads(items: seq<Json>, rest: string)
    requires forall i :: 0 <= i < |items| ==> WellFormed(items[i])
    ensures ReadValue("[" + PrintItems(items) + "]" + rest) == Some((Arr(items), rest))
    decreases items, 2
  {
    var inner := PrintItems(items) + ("]" + rest);
    Wrapped("[", PrintItems(items), "]", rest);
    if items == [] {
      assert inner == "]" + rest;
    } else {
      PrintStarts(items[0]);
      assert inner[0] == Print(items[0])[0];
      PrintItemsRead(items, [], rest);
      assert [] + items == items;
    }
    OpenBracket(inner);
  }

  lemma {:induction false} ObjectReads(members: seq<Member>, rest: string)
    requires Sorted(members) && forall i :: 0 <= i < |members| ==> WellFormed(members[i].value)
    ensures ReadValue("{" + PrintMembers(members) + "}" + rest) == Some((Obj(members), rest))
    decreases members, 2
  {
    var inner := PrintMembers(members) + ("}" + rest);
    Wrapped("{", PrintMembers(members), "}", rest);
    if members == [] {
      EmptyObject(rest);
    } else {
      MembersOpen(members, rest);
      assert [] + members == members;
      PrintMembersRead(members, [], rest);
      OpenBrace(inner);
    }
  }

  lemma EmptyObject(rest: string)
    ensures ReadValue("{" + (PrintMembers([]) + ("}" + rest))) == Some((Obj([]), rest))
  {
    var inner := PrintMembers([]) + ("}" + rest);
    assert inner == "}" + rest && inner[1..] == rest;
    OpenBrace(inner);
  }

  lemma MembersOpen(members: seq<Member>, rest: string)
    requires members != []
    ensures var inner := PrintMembers(members) + ("}" + rest);
            inner != "" && inner[0] == '"' && SkipSpace(inner) == inner
  {
    MembersStart(members);
  }

  lemma MembersStart(members: seq<Member>)
    requires members != []
    ensures PrintMembers(members) != "" && PrintMembers(members)[0] == '"'
  {
    assert PrintMember(members[0])[0] == '"';
  }

  lemma {:induction false} PrintItemsRead(items: seq<Json>, before: seq<Json>, rest: string)
    requires items != [] && forall i :: 0 <= i < |items| ==> WellFormed(items[i])
    ensures ReadItems(PrintItems(items) + ("]" + rest), before) == Some((Arr(before + items), rest))
    decreases items, 1
  {
    var tail := if |items| == 1 then "]" + rest else "," + (PrintItems(items[1..]) + ("]" + rest));
    assert PrintItems(items) + ("]" + rest) == Print(items[0]) + tail;
    PrintReads(items[0], tail);
    assert SkipSpace(tail) == tail;
    if |items| == 1 {
      assert before + [items[0]] == before + items;
      assert tail[1..] == rest;
    } else {
      assert tail[1..] == PrintItems(items[1..]) + ("]" + rest);
      PrintItemsRead(items[1..], before + [items[0]], rest);
      assert before + [items[0]] + items[1..] == before + items;
    }
  }

  lemma NameText(name: string, rest: string)
    ensures PrintString(name) + ":" + rest == ['"'] + (EscapeText(name) + ['"'] + (":" + rest))
  {
  }

  lemma NameReads(name: string, rest: string)
    ensures ReadName(PrintString(name) + ":" + rest) == Some((name, rest))
  {
    var afterName := ":" + rest;
    var inner := EscapeText(name) + ['"'] + afterName;
    NameText(name, rest);
    assert SkipSpace(['"'] + inner) == ['"'] + inner && (['"'] + inner)[1..] == inner;
    EscapeTextReads(name, afterName, "");
    assert "" + name == name;
    assert SkipSpace(afterName) == afterName && afterName[1..] == rest;
  }

  /** One `"name":value` and what follows it. */
  lemma MemberReads(m: Member, before: seq<Member>, tail: string)
    requires tail != "" && (tail[0] == ',' || tail[0] == '}')
    requires ReadValue(Print(m.value) + tail) == Some((m.value, tail))
    ensures ReadMembers(PrintMember(m) + tail, before) ==
            if tail[0] == '}' then Some((Obj(Put(before, m)), tail[1..])) else ReadMembers(tail[1..], Put(before, m))
  {
    var rest := Print(m.value) + tail;
    assert PrintMember(m) + tail == PrintString(m.name) + ":" + rest;
    NameReads(m.name, rest);
    assert SkipSpace(tail) == tail;
  }

  lemma {:induction false} PrintMembersRead(members: seq<Member>, before: seq<Member>, rest: string)
    requires members != [] && Sorted(before + members)
    requires forall i :: 0 <= i < |members| ==> WellFormed(members[i].value)
    ensures ReadMembers(PrintMembers(members) + ("}" + rest), before) == Some((Obj(before + members), rest))
    decreases members, 1
  {
    var m := members[0];
    var tail := MembersTail(members, rest);
    PrintReads(m.value, tail);
    MemberReads(m, before, tail);
    PutNext(before, members);
    if |members| > 1 {
      PrintMembersRead(members[1..], before + [m], rest);
    } else {
      assert before + [m] == before + members;
    }
  }

  /** What follows the first member of a printed object. */
  ghost function MembersTail(members: seq<Member>, rest: string): (tail: string)
    requires members != []
    ensures PrintMembers(members) + ("}" + rest) == PrintMember(members[0]) + tail
    ensures tail != "" && tail[0] == (if |members| == 1 then '}' else ',')
    ensures tail[1..] == if |members| == 1 then rest else PrintMembers(members[1..]) + ("}" + rest)
  {
    if |members| == 1 then "}" + rest else "," + (PrintMembers(members[1..]) + ("}" + rest))
  }

  /** Reading inverts printing, for every well-formed value. */
  lemma ReadPrint(j: Json)
    requires WellFormed(j)
    ensures Read(Print(j)) == Some(j)
  {
    assert Print(j) + "" == Print(j);
    PrintReads(j, "");
  }

  // --- whatever reads is well-formed ----------------------------------------

  lemma {:induction false} ReadValueWellFormed(s: string)
    ensures ReadValue(s).Some? ==> WellFormed(ReadValue(s).value.0)
    decreases |s|, 0
  {
    var t := SkipSpace(s);
    if t != "" && t[0] == '[' {
      var u := SkipSpace(t[1..]);
      ReadItemsWellFormed(u, []);
    } else if t != "" && t[0] == '{' {
      var u := SkipSpace(t[1..]);
      ReadMembersWellFormed(u, []);
    }
  }

  lemma {:induction false} ReadItemsWellFormed(s: string, items: seq<Json>)
    requires forall i :: 0 <= i < |items| ==> WellFormed(items[i])
    ensures ReadItems(s, items).Some? ==> WellFormed(ReadItems(s, items).value.0)
    decreases |s|, 1
  {
    ReadValueWellFormed(s);
    if ReadValue(s).Some? {
      var (item, rest) := ReadValue(s).value;
      var t := SkipSpace(rest);
      if t != "" && t[0] == ',' {
        ReadItemsWellFormed(t[1..], items + [item]);
      }
    }
  }

  lemma {:induction false} ReadMembersWellFormed(s: string, members: seq<Member>)
    requires Sorted(members) && forall x :: x in members ==> WellFormed(x.value)
    ensures ReadMembers(s, members).Some? ==> WellFormed(ReadMembers(s, members).value.0)
    decreases |s|, 1
  {
    if ReadName(s).Some? {
      var (name, afterColon) := ReadName(s).value;
      ReadValueWellFormed(afterColon);
      if ReadValue(afterColon).Some? {
        var (value, afterValue) := ReadValue(afterColon).value;
        PutKeepsSorted(members, Entry(name, value));
        var t := SkipSpace(afterValue);
        if t != "" && t[0] == ',' {
          ReadMembersWellFormed(t[1..], Put(members, Entry(name, value)));
        }
      }
    }
  }

  lemma ReadWellFormed(s: string)
    ensures Read(s).Some? ==> WellFormed(Read(s).value)
  {
    ReadValueWellFormed(s);
  }
}
