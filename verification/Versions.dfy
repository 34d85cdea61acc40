/** Version tags: how they are read, the key they are sorted by, and that the key
    orders them by the precedence of section 11 of SemVer 2.0.0. */
module Versions {
  import opened Sequences
  import opened Text

  // --- reading a tag --------------------------------------------------------

  /** A tag's parts, as they are written. */
  datatype Version = Version(major: string, minor: string, patch: string, pre: Option<string>, build: Option<string>)

  /** The characters of a prerelease or of build metadata. */
  predicate IsTagChar(c: char) {
    IsDigit(c) || 'A' <= c <= 'Z' || 'a' <= c <= 'z' || c == '.' || c == '-'
  }

  predicate TagChars(s: string) {
    forall i :: 0 <= i < |s| ==> IsTagChar(s[i])
  }

  predicate Numeric(id: string) {
    id != "" && AllDigits(id)
  }

  /** What the pattern lets the parts of a tag be. */
  predicate WellRead(v: Version) {
    && Numeric(v.major) && Numeric(v.minor) && Numeric(v.patch)
    && (v.pre.Some? ==> v.pre.value != "" && TagChars(v.pre.value))
    && (v.build.Some? ==> v.build.value != "" && TagChars(v.build.value))
  }

  function DigitRun(s: string): (n: nat)
    ensures n <= |s| && AllDigits(s[..n])
  {
    if s == "" || !IsDigit(s[0]) then 0 else 1 + DigitRun(s[1..])
  }

  function TagRun(s: string): (n: nat)
    ensures n <= |s| && TagChars(s[..n])
  {
    if s == "" || !IsTagChar(s[0]) then 0 else 1 + TagRun(s[1..])
  }

  /** A number at the front, and the text after it. */
  function Number(s: string): (r: Option<(string, string)>)
    ensures r.Some? ==> r.value.0 != "" && AllDigits(r.value.0)
  {
    var n := DigitRun(s);
    if n == 0 then None else Some((s[..n], s[n..]))
  }

  function AfterDot(s: string): Option<string> {
    if s != "" && s[0] == '.' then Some(s[1..]) else None
  }

  function Build(s: string): (r: Option<Option<string>>)
    ensures r.Some? && r.value.Some? ==> r.value.value != "" && TagChars(r.value.value)
  {
    if s == "" then Some(None)
    else if s[0] == '+' && |s| > 1 && TagRun(s[1..]) == |s| - 1 then Some(Some(s[1..]))
    else None
  }

  function Suffix(s: string): (r: Option<(Option<string>, Option<string>)>)
    ensures r.Some? && r.value.0.Some? ==> r.value.0.value != "" && TagChars(r.value.0.value)
    ensures r.Some? && r.value.1.Some? ==> r.value.1.value != "" && TagChars(r.value.1.value)
  {
    if s != "" && s[0] == '-' then
      var n := TagRun(s[1..]);
      if n == 0 then None
      else
        var build :- Build(s[1..][n..]);
        Some((Some(s[1..][..n]), build))
    else
      var build :- Build(s);
      Some((None, build))
  }

  function ParseTag(tag: string): (r: Option<Version>)
    ensures r.Some? ==> WellRead(r.value)
  {
    if tag == "" || tag[0] != 'v' then None
    else
      var (major, a) :- Number(tag[1..]);
      var b :- AfterDot(a);
      var (minor, c) :- Number(b);
      var d :- AfterDot(c);
      var (patch, e) :- Number(d);
      var (pre, build) :- Suffix(e);
      Some(Version(major, minor, patch, pre, build))
  }

  function PreText(pre: Option<string>): string {
    match pre case None => "" case Some(text) => "-" + text
  }

  function BuildText(build: Option<string>): string {
    match build case None => "" case Some(text) => "+" + text
  }

  function TagText(v: Version): string {
    "v" + v.major + "." + v.minor + "." + v.patch + PreText(v.pre) + BuildText(v.build)
  }

  lemma SuffixText(s: string)
    ensures Suffix(s).Some? ==>
              var (pre, build) := Suffix(s).value;
              s == PreText(pre) + BuildText(build)
  {
    if Suffix(s).Some? && s != "" && s[0] == '-' {
      var n := TagRun(s[1..]);
      assert s == "-" + s[1..][..n] + s[1..][n..];
      assert s[1..][n..] != "" ==> s[1..][n..] == "+" + s[1..][n..][1..];
    } else if Suffix(s).Some? && s != "" {
      assert s == "+" + s[1..];
    }
  }

  lemma NumberText(s: string)
    ensures Number(s).Some? ==> s == Number(s).value.0 + Number(s).value.1
  {
  }

  lemma DotText(s: string)
    ensures AfterDot(s).Some? ==> s == "." + AfterDot(s).value
  {
  }

  /** A tag is exactly the text of what it is read as, so two tags read as the same
      version are the same. */
  lemma TagIsText(tag: string)
    ensures ParseTag(tag).Some? ==> TagText(ParseTag(tag).value) == tag
  {
    if ParseTag(tag).Some? {
      var (major, a) := Number(tag[1..]).value;
      var b := AfterDot(a).value;
      var (minor, c) := Number(b).value;
      var d := AfterDot(c).value;
      var (patch, e) := Number(d).value;
      var (pre, build) := Suffix(e).value;
      DottedText(tag[1..]);
      DottedText(b);
      NumberText(d);
      SuffixText(e);
      assert tag == "v" + tag[1..];
      Assembled(major, minor, patch, PreText(pre), BuildText(build));
    }
  }

  lemma DottedText(s: string)
    ensures Number(s).Some? && AfterDot(Number(s).value.1).Some? ==>
              s == Number(s).value.0 + ("." + AfterDot(Number(s).value.1).value)
  {
    NumberText(s);
    if Number(s).Some? {
      DotText(Number(s).value.1);
    }
  }

  lemma {:induction false} DigitsEnd(digits: string, rest: string)
    requires AllDigits(digits) && (rest == "" || !IsDigit(rest[0]))
    ensures DigitRun(digits + rest) == |digits|
    decreases |digits|
  {
    if digits == "" {
      assert digits + rest == rest;
    } else {
      assert (digits + rest)[1..] == digits[1..] + rest;
      DigitsEnd(digits[1..], rest);
    }
  }

  lemma {:induction false} TagCharsEnd(text: string, rest: string)
    requires TagChars(text) && (rest == "" || !IsTagChar(rest[0]))
    ensures TagRun(text + rest) == |text|
    decreases |text|
  {
    if text == "" {
      assert text + rest == rest;
    } else {
      assert (text + rest)[1..] == text[1..] + rest;
      TagCharsEnd(text[1..], rest);
    }
  }

  lemma NumberIsRead(digits: string, rest: string)
    requires Numeric(digits) && (rest == "" || !IsDigit(rest[0]))
    ensures Number(digits + rest) == Some((digits, rest))
  {
    DigitsEnd(digits, rest);
    assert (digits + rest)[..|digits|] == digits && (digits + rest)[|digits|..] == rest;
  }

  lemma BuildIsRead(build: Option<string>)
    requires build.Some? ==> build.value != "" && TagChars(build.value)
    ensures Build(BuildText(build)) == Some(build)
  {
    if build.Some? {
      assert ("+" + build.value)[1..] == build.value == build.value + "";
      TagCharsEnd(build.value, "");
    }
  }

  /** What follows a prerelease does not run on from it. */
  lemma PreIsRead(pre: string, rest: string)
    requires pre != "" && TagChars(pre) && (rest == "" || !IsTagChar(rest[0]))
    ensures var s := "-" + pre + rest;
            s[0] == '-' && TagRun(s[1..]) == |pre| && s[1..][..|pre|] == pre && s[1..][|pre|..] == rest
  {
    assert ("-" + pre + rest)[1..] == pre + rest;
    TagCharsEnd(pre, rest);
  }

  lemma SuffixIsRead(pre: Option<string>, build: Option<string>)
    requires pre.Some? ==> pre.value != "" && TagChars(pre.value)
    requires build.Some? ==> build.value != "" && TagChars(build.value)
    ensures Suffix(PreText(pre) + BuildText(build)) == Some((pre, build))
  {
    BuildIsRead(build);
    if pre.Some? {
      PreIsRead(pre.value, BuildText(build));
    } else {
      assert "" + BuildText(build) == BuildText(build);
    }
  }

  /** A number and a dot in front of what reads as the rest. */
  lemma DottedIsRead(digits: string, rest: string)
    requires Numeric(digits)
    ensures Number(digits + ("." + rest)) == Some((digits, "." + rest))
    ensures AfterDot("." + rest) == Some(rest)
  {
    NumberIsRead(digits, "." + rest);
    assert ("." + rest)[1..] == rest;
  }

  /** Every version the pattern allows is what its own text is read as. */
  lemma TextIsRead(v: Version)
    requires WellRead(v)
    ensures ParseTag(TagText(v)) == Some(v)
  {
    var e := PreText(v.pre) + BuildText(v.build);
    var d := v.patch + e;
    var b := v.minor + ("." + d);
    DottedIsRead(v.major, b);
    DottedIsRead(v.minor, d);
    NumberIsRead(v.patch, e);
    SuffixIsRead(v.pre, v.build);
    PartsAreRead(v, v.major + ("." + b));
    Assembled(v.major, v.minor, v.patch, PreText(v.pre), BuildText(v.build));
  }

  /** Reading the parts of a tag one after the other. */
  lemma PartsAreRead(v: Version, text: string)
    requires Number(text).Some? && Number(text).value.0 == v.major
    requires var b := AfterDot(Number(text).value.1);
             && b.Some? && Number(b.value).Some? && Number(b.value).value.0 == v.minor
             && var d := AfterDot(Number(b.value).value.1);
                && d.Some? && Number(d.value).Some? && Number(d.value).value.0 == v.patch
                && Suffix(Number(d.value).value.1) == Some((v.pre, v.build))
    ensures ParseTag("v" + text) == Some(v)
  {
    assert ("v" + text)[1..] == text;
  }

  lemma Assembled(major: string, minor: string, patch: string, pre: string, build: string)
    ensures "v" + (major + ("." + (minor + ("." + (patch + (pre + build)))))) ==
            "v" + major + "." + minor + "." + patch + pre + build
  {
  }

  /** The pieces between dots; the empty text is one empty piece. */
  function SplitDots(s: string): (parts: seq<string>)
    ensures parts != []
  {
    if s == "" then [""]
    else if s[0] == '.' then [""] + SplitDots(s[1..])
    else
      var rest := SplitDots(s[1..]);
      [[s[0]] + rest[0]] + rest[1..]
  }

  // --- the sort key ---------------------------------------------------------

  datatype Part = Part(kind: nat, number: nat, text: string)

  datatype Key = Key(major: nat, minor: nat, patch: nat, release: nat, parts: seq<Part>)

  function PartOf(id: string): Part {
    if Numeric(id) then Part(0, DecimalValue(id), "") else Part(1, 0, id)
  }

  function PartsOf(ids: seq<string>): (parts: seq<Part>)
    ensures |parts| == |ids|
    ensures forall i :: 0 <= i < |ids| ==> parts[i] == PartOf(ids[i])
  {
    seq(|ids|, i requires 0 <= i < |ids| => PartOf(ids[i]))
  }

  function KeyOf(v: Version): Key
    requires WellRead(v)
  {
    var (major, minor, patch) := (DecimalValue(v.major), DecimalValue(v.minor), DecimalValue(v.patch));
    match v.pre
    case None => Key(major, minor, patch, 1, [])
    case Some(pre) => Key(major, minor, patch, 0, PartsOf(SplitDots(pre)))
  }

  /** Tuples compare by their first difference. */
  predicate PartLower(a: Part, b: Part) {
    a.kind < b.kind || (a.kind == b.kind && (a.number < b.number || (a.number == b.number && Less(a.text, b.text))))
  }

  /** Where one tuple starts with the other, the shorter is lower. */
  predicate PartsLower(a: seq<Part>, b: seq<Part>) {
    if b == [] then false
    else if a == [] then true
    else PartLower(a[0], b[0]) || (a[0] == b[0] && PartsLower(a[1..], b[1..]))
  }

  predicate KeyLower(a: Key, b: Key) {
    if a.major != b.major then a.major < b.major
    else if a.minor != b.minor then a.minor < b.minor
    else if a.patch != b.patch then a.patch < b.patch
    else if a.release != b.release then a.release < b.release
    else PartsLower(a.parts, b.parts)
  }

  // --- precedence, by the standard ------------------------------------------

  /** Identifiers of digits only compare numerically, others by their characters,
      and the former are lower. */
  predicate LowerIdentifier(a: string, b: string) {
    if Numeric(a) && Numeric(b) then DecimalValue(a) < DecimalValue(b)
    else if Numeric(a) || Numeric(b) then Numeric(a)
    else Less(a, b)
  }

  predicate SameIdentifier(a: string, b: string) {
    !LowerIdentifier(a, b) && !LowerIdentifier(b, a)
  }

  /** The first `i` fields do not tell the two apart, and what comes then does. */
  predicate LowerAt(a: seq<string>, b: seq<string>, i: nat) {
    && i <= |a| && i < |b|
    && (forall k :: 0 <= k < i ==> SameIdentifier(a[k], b[k]))
    && (i == |a| || LowerIdentifier(a[i], b[i]))
  }

  function Core(v: Version): (core: seq<nat>)
    requires WellRead(v)
    ensures |core| == 3
  {
    [DecimalValue(v.major), DecimalValue(v.minor), DecimalValue(v.patch)]
  }

  /** The numbers before the first that differs are the same, and that one is lower. */
  ghost predicate LowerCore(a: seq<nat>, b: seq<nat>)
    requires |a| == |b|
  {
    exists i :: 0 <= i < |a| && a[..i] == b[..i] && a[i] < b[i]
  }

  /** Precedence of two versions: by major, minor and patch; then a prerelease is
      lower than its release; then by the first identifier that differs, and a
      shorter list is lower than a longer one that starts with it. */
  ghost predicate Precedes(v: Version, w: Version)
    requires WellRead(v) && WellRead(w)
  {
    || LowerCore(Core(v), Core(w))
    || (Core(v) == Core(w) && v.pre.Some? &&
        (w.pre.None? || exists i :: LowerAt(SplitDots(v.pre.value), SplitDots(w.pre.value), i)))
  }

  lemma PartIsIdentifier(a: string, b: string)
    ensures PartLower(PartOf(a), PartOf(b)) <==> LowerIdentifier(a, b)
    ensures PartOf(a) == PartOf(b) <==> SameIdentifier(a, b)
  {
    LessTrichotomy(a, b);
    LessTrichotomy(b, a);
  }

  lemma {:induction false} PartsAreFields(a: seq<string>, b: seq<string>)
    ensures PartsLower(PartsOf(a), PartsOf(b)) <==> exists i :: LowerAt(a, b, i)
    decreases |a|
  {
    if b != [] {
      if a == [] {
        assert LowerAt(a, b, 0);
      } else {
        PartIsIdentifier(a[0], b[0]);
        PartsAreFields(a[1..], b[1..]);
        assert PartsOf(a)[1..] == PartsOf(a[1..]) && PartsOf(b)[1..] == PartsOf(b[1..]);
        LowerAtRest(a, b);
      }
    }
  }

  /** Past a first field that tells nothing, the comparison is that of the rest. */
  lemma LowerAtRest(a: seq<string>, b: seq<string>)
    requires a != [] && b != []
    ensures (exists i :: LowerAt(a, b, i)) <==>
            LowerIdentifier(a[0], b[0]) || (SameIdentifier(a[0], b[0]) && exists i :: LowerAt(a[1..], b[1..], i))
  {
    if i: nat :| LowerAt(a, b, i) {
      if i > 0 {
        assert LowerAt(a[1..], b[1..], i - 1);
      }
    }
    if LowerIdentifier(a[0], b[0]) {
      assert LowerAt(a, b, 0);
    }
    if SameIdentifier(a[0], b[0]) {
      if i: nat :| LowerAt(a[1..], b[1..], i) {
        assert forall k :: 1 <= k < i + 1 ==> a[k] == a[1..][k - 1] && b[k] == b[1..][k - 1];
        assert i < |a| - 1 ==> a[1..][i] == a[i + 1];
        assert b[1..][i] == b[i + 1];
        assert LowerAt(a, b, i + 1);
      }
    }
  }

  lemma CoreOrder(a: seq<nat>, b: seq<nat>)
    requires |a| == 3 && |b| == 3
    ensures LowerCore(a, b) <==> if a[0] != b[0] then a[0] < b[0] else if a[1] != b[1] then a[1] < b[1] else a[2] < b[2]
    ensures a == b <==> a[0] == b[0] && a[1] == b[1] && a[2] == b[2]
  {
    assert a[..0] == [] == b[..0];
    assert a[..1] == [a[0]] && b[..1] == [b[0]];
    assert a[..2] == [a[0], a[1]] && b[..2] == [b[0], b[1]];
    if a[0] != b[0] {
      assert a[0] < b[0] ==> LowerCore(a, b);
    } else if a[1] != b[1] {
      assert a[1] < b[1] ==> LowerCore(a, b);
    }
    if i :| 0 <= i < 3 && a[..i] == b[..i] && a[i] < b[i] {
      assert i > 0 ==> a[..i][0] == b[..i][0];
      assert i > 1 ==> a[..i][1] == b[..i][1];
    }
  }

  /** The sort key orders tags exactly by precedence. */
  lemma KeyIsPrecedence(v: Version, w: Version)
    requires WellRead(v) && WellRead(w)
    ensures KeyLower(KeyOf(v), KeyOf(w)) <==> Precedes(v, w)
  {
    CoreOrder(Core(v), Core(w));
    if v.pre.Some? && w.pre.Some? {
      PartsAreFields(SplitDots(v.pre.value), SplitDots(w.pre.value));
    }
  }

  // --- a total preorder -----------------------------------------------------

  lemma PartTrichotomy(a: Part, b: Part)
    ensures a == b || PartLower(a, b) || PartLower(b, a)
    ensures PartLower(a, b) ==> a != b && !PartLower(b, a)
  {
    LessTrichotomy(a.text, b.text);
    LessTrichotomy(b.text, a.text);
  }

  lemma PartTransitive(a: Part, b: Part, c: Part)
    requires PartLower(a, b) && PartLower(b, c)
    ensures PartLower(a, c)
  {
    if Less(a.text, b.text) && Less(b.text, c.text) {
      LessTransitive(a.text, b.text, c.text);
    }
  }

  lemma {:induction false} PartsTrichotomy(a: seq<Part>, b: seq<Part>)
    ensures a == b || PartsLower(a, b) || PartsLower(b, a)
    ensures PartsLower(a, b) ==> a != b && !PartsLower(b, a)
    decreases |a|
  {
    if a != [] && b != [] {
      PartTrichotomy(a[0], b[0]);
      PartTrichotomy(b[0], a[0]);
      PartsTrichotomy(a[1..], b[1..]);
      assert a == [a[0]] + a[1..] && b == [b[0]] + b[1..];
    }
  }

  lemma {:induction false} PartsTransitive(a: seq<Part>, b: seq<Part>, c: seq<Part>)
    requires PartsLower(a, b) && PartsLower(b, c)
    ensures PartsLower(a, c)
    decreases |a|
  {
    if a != [] {
      if PartLower(a[0], b[0]) && PartLower(b[0], c[0]) {
        PartTransitive(a[0], b[0], c[0]);
      } else if a[0] == b[0] == c[0] {
        PartTrichotomy(a[0], b[0]);
        PartsTransitive(a[1..], b[1..], c[1..]);
      }
    }
  }

  lemma KeyTrichotomy(a: Key, b: Key)
    ensures a == b || KeyLower(a, b) || KeyLower(b, a)
    ensures KeyLower(a, b) ==> a != b && !KeyLower(b, a)
  {
    PartsTrichotomy(a.parts, b.parts);
    PartsTrichotomy(b.parts, a.parts);
  }

  lemma KeyTransitive(a: Key, b: Key, c: Key)
    requires KeyLower(a, b) && KeyLower(b, c)
    ensures KeyLower(a, c)
  {
    if PartsLower(a.parts, b.parts) && PartsLower(b.parts, c.parts) {
      PartsTransitive(a.parts, b.parts, c.parts);
    }
  }

  const NO_KEY := Key(0, 0, 0, 0, [])

  function KeyOfTag(tag: string): Key {
    match ParseTag(tag) case Some(v) => KeyOf(v) case None => NO_KEY
  }

  function ByVersion(): (string, string) -> bool {
    (a: string, b: string) => KeyLower(KeyOfTag(a), KeyOfTag(b))
  }

  lemma ByVersionRanks()
    ensures Ranks(ByVersion())
  {
    forall a, b
      ensures ByVersion()(a, b) ==> !ByVersion()(b, a)
    {
      KeyTrichotomy(KeyOfTag(a), KeyOfTag(b));
    }
    forall a, b, c | !ByVersion()(b, a) && !ByVersion()(c, b)
      ensures !ByVersion()(c, a)
    {
      var x, y, z := KeyOfTag(a), KeyOfTag(b), KeyOfTag(c);
      KeyTrichotomy(x, y);
      KeyTrichotomy(y, z);
      KeyTrichotomy(z, x);
      if KeyLower(x, y) && KeyLower(y, z) {
        KeyTransitive(x, y, z);
      }
    }
  }

  // --- ties -----------------------------------------------------------------

  /** A number as the standard has it: without leading zeros. */
  predicate Canonical(digits: string) {
    digits != "" && AllDigits(digits) && (digits == "0" || digits[0] != '0')
  }

  lemma {:induction false} PositiveValue(s: string)
    requires AllDigits(s) && s != "" && s[0] != '0'
    ensures DecimalValue(s) > 0
    decreases |s|
  {
    if |s| > 1 {
      PositiveValue(s[..|s| - 1]);
    }
  }

  lemma {:induction false} ValueIsInjective(a: string, b: string)
    requires Canonical(a) && Canonical(b) && DecimalValue(a) == DecimalValue(b)
    ensures a == b
    decreases |a|
  {
    var m, n := |a| - 1, |b| - 1;
    LastDigit(a);
    LastDigit(b);
    assert DecimalValue(a[..m]) == DecimalValue(b[..n]) && DigitValue(a[m]) == DigitValue(b[n]);
    if m > 0 {
      PositiveValue(a[..m]);
    }
    if n > 0 {
      PositiveValue(b[..n]);
    }
    if m > 0 {
      ValueIsInjective(a[..m], b[..n]);
      assert a == a[..m] + [a[m]] && b == b[..n] + [b[n]];
    } else {
      assert a == [a[0]] && b == [b[0]];
    }
  }

  lemma LastDigit(s: string)
    requires AllDigits(s) && s != ""
    ensures DecimalValue(s) / 10 == DecimalValue(s[..|s| - 1]) && DecimalValue(s) % 10 == DigitValue(s[|s| - 1])
  {
  }

  lemma {:induction false} SplitIsInjective(a: string, b: string)
    requires SplitDots(a) == SplitDots(b)
    ensures a == b
    decreases |a|
  {
    SplitSizes(a);
    SplitSizes(b);
    if a != "" && b != "" {
      if a[0] == '.' && b[0] == '.' {
        assert SplitDots(a)[1..] == SplitDots(a[1..]) && SplitDots(b)[1..] == SplitDots(b[1..]);
        SplitIsInjective(a[1..], b[1..]);
        assert a == [a[0]] + a[1..] && b == [b[0]] + b[1..];
      } else if a[0] != '.' && b[0] != '.' {
        var s, t := SplitDots(a[1..]), SplitDots(b[1..]);
        assert SplitDots(a)[0] == [a[0]] + s[0] && SplitDots(b)[0] == [b[0]] + t[0];
        assert s[0] == SplitDots(a)[0][1..] && t[0] == SplitDots(b)[0][1..];
        assert s == [s[0]] + SplitDots(a)[1..] && t == [t[0]] + SplitDots(b)[1..];
        SplitIsInjective(a[1..], b[1..]);
        assert a == [a[0]] + a[1..] && b == [b[0]] + b[1..];
      }
    }
  }

  lemma SplitSizes(s: string)
    ensures s != "" && s[0] == '.' ==> SplitDots(s)[0] == "" && |SplitDots(s)| > 1
    ensures s != "" && s[0] != '.' ==> SplitDots(s)[0] != ""
  {
  }

  lemma {:induction false} ZeroInFront(s: string)
    requires Numeric(s) && s[0] == '0'
    ensures DecimalValue(s) == DecimalValue(s[1..])
    decreases |s|
  {
    var n := |s| - 1;
    if n > 0 {
      ZeroInFront(s[..n]);
      assert s[..n][1..] == s[1..][..n - 1] && s[1..][n - 1] == s[n];
    } else {
      assert s[..n] == s[1..] == "";
    }
  }

  /** A number's digits from the first that is not a zero; the last digit stays. */
  function Stripped(digits: string): (r: string)
    requires Numeric(digits)
    ensures Canonical(r) && DecimalValue(r) == DecimalValue(digits)
  {
    if |digits| > 1 && digits[0] == '0' then
      assert DecimalValue(digits[1..]) == DecimalValue(digits) by { ZeroInFront(digits); }
      Stripped(digits[1..])
    else digits
  }

  /** An identifier, stripped if it is a number. */
  function Plain(id: string): string {
    if Numeric(id) then Stripped(id) else id
  }

  /** Field by field the same, up to leading zeros of numbers. */
  predicate SameButZeros(a: seq<string>, b: seq<string>) {
    |a| == |b| && forall i :: 0 <= i < |a| ==> Plain(a[i]) == Plain(b[i])
  }

  /** The same version but for build metadata and leading zeros. */
  predicate Ties(v: Version, w: Version)
    requires WellRead(v) && WellRead(w)
  {
    && SameButZeros([v.major, v.minor, v.patch], [w.major, w.minor, w.patch])
    && match (v.pre, w.pre)
       case (None, None) => true
       case (Some(p), Some(q)) => SameButZeros(SplitDots(p), SplitDots(q))
       case _ => false
  }

  lemma ValueTies(a: string, b: string)
    requires Numeric(a) && Numeric(b)
    ensures DecimalValue(a) == DecimalValue(b) <==> Plain(a) == Plain(b)
  {
    if DecimalValue(a) == DecimalValue(b) {
      ValueIsInjective(Stripped(a), Stripped(b));
    }
  }

  lemma PartTies(a: string, b: string)
    ensures PartOf(a) == PartOf(b) <==> Plain(a) == Plain(b)
  {
    if Numeric(a) && Numeric(b) {
      ValueTies(a, b);
    }
  }

  lemma FieldTies(a: seq<string>, b: seq<string>)
    ensures PartsOf(a) == PartsOf(b) <==> SameButZeros(a, b)
  {
    assert PartsOf(a) == PartsOf(b) ==> |a| == |b|;
    if |a| == |b| {
      forall i | 0 <= i < |a|
        ensures PartsOf(a)[i] == PartsOf(b)[i] <==> Plain(a[i]) == Plain(b[i])
      {
        PartTies(a[i], b[i]);
      }
    }
  }

  lemma CoreTies(v: Version, w: Version)
    requires WellRead(v) && WellRead(w)
    ensures Core(v) == Core(w) <==> SameButZeros([v.major, v.minor, v.patch], [w.major, w.minor, w.patch])
  {
    var a, b := [v.major, v.minor, v.patch], [w.major, w.minor, w.patch];
    ValueTies(a[0], b[0]);
    ValueTies(a[1], b[1]);
    ValueTies(a[2], b[2]);
  }

  /** Any two versions tie exactly when they differ in nothing but build metadata
      and leading zeros of their numbers. */
  lemma TiesExactly(v: Version, w: Version)
    requires WellRead(v) && WellRead(w)
    ensures KeyOf(v) == KeyOf(w) <==> Ties(v, w)
    ensures Ties(v, w) <==> !Precedes(v, w) && !Precedes(w, v)
  {
    CoreTies(v, w);
    if v.pre.Some? && w.pre.Some? {
      FieldTies(SplitDots(v.pre.value), SplitDots(w.pre.value));
    }
    KeyTrichotomy(KeyOf(v), KeyOf(w));
    KeyTrichotomy(KeyOf(w), KeyOf(v));
    KeyIsPrecedence(v, w);
    KeyIsPrecedence(w, v);
  }

  /** Every number of the version, and every identifier of digits, is canonical. */
  predicate CanonicalVersion(v: Version) {
    && Canonical(v.major) && Canonical(v.minor) && Canonical(v.patch)
    && (v.pre.Some? ==> forall id :: id in SplitDots(v.pre.value) && Numeric(id) ==> Canonical(id))
  }

  lemma CanonicalFields(a: seq<string>, b: seq<string>)
    requires forall id :: id in a + b && Numeric(id) ==> Canonical(id)
    ensures SameButZeros(a, b) <==> a == b
  {
    forall id | id in a + b
      ensures Plain(id) == id
    {
    }
    if SameButZeros(a, b) {
      forall i | 0 <= i < |a|
        ensures a[i] == b[i]
      {
        assert a[i] in a + b && b[i] in a + b;
      }
    }
  }

  /** So the ties that the standard allows are the only ones between versions without
      leading zeros. */
  lemma TiesAreBuilds(v: Version, w: Version)
    requires WellRead(v) && WellRead(w) && CanonicalVersion(v) && CanonicalVersion(w)
    ensures KeyOf(v) == KeyOf(w) <==> v.(build := None) == w.(build := None)
  {
    TiesExactly(v, w);
    CanonicalFields([v.major, v.minor, v.patch], [w.major, w.minor, w.patch]);
    if v.pre.Some? && w.pre.Some? {
      CanonicalFields(SplitDots(v.pre.value), SplitDots(w.pre.value));
      if SplitDots(v.pre.value) == SplitDots(w.pre.value) {
        SplitIsInjective(v.pre.value, w.pre.value);
      }
    }
  }

  lemma {:induction false} WithoutDots(s: string)
    requires '.' !in s
    ensures SplitDots(s) == [s]
  {
    if s != "" {
      WithoutDots(s[1..]);
      assert s == [s[0]] + s[1..];
    }
  }

  /** Two tags that tie and differ in more than build metadata. */
  lemma LeadingZeroTies()
    ensures var a, b := "v1.0.0-1", "v1.0.0-01";
            && ParseTag(a).Some? && ParseTag(b).Some?
            && KeyOfTag(a) == KeyOfTag(b)
            && ParseTag(a).value.(build := None) != ParseTag(b).value.(build := None)
  {
    var v, w := Version("1", "0", "0", Some("1"), None), Version("1", "0", "0", Some("01"), None);
    assert TagText(v) == "v1.0.0-1" && TagText(w) == "v1.0.0-01";
    TextIsRead(v);
    TextIsRead(w);
    WithoutDots("1");
    WithoutDots("01");
    assert Stripped("01") == "1" by { assert "01"[1..] == "1"; }
    TiesExactly(v, w);
  }

  // --- the tags of a checkout -----------------------------------------------

  predicate AllVersions(tags: seq<string>) {
    forall t :: t in tags ==> ParseTag(t).Some?
  }

  /** Every version tag, oldest first; nothing when there is none, or when one is not
      a version. */
  function Shipped(tags: seq<string>): (versions: Option<seq<string>>)
    ensures versions.Some? ==> versions.value != []
  {
    if tags == [] || !AllVersions(tags) then None
    else
      assert multiset(Sort(tags, ByVersion())) == multiset(tags) by {
        ByVersionRanks();
        SortKeeps(tags, ByVersion());
      }
      assert |multiset(Sort(tags, ByVersion()))| == |multiset(tags)|;
      Some(Sort(tags, ByVersion()))
  }

  lemma LastIsNotLower(versions: seq<string>, a: string)
    requires IsSorted(versions, ByVersion()) && a in versions
    ensures !KeyLower(KeyOfTag(versions[|versions| - 1]), KeyOfTag(a))
  {
    var n := |versions| - 1;
    var i :| 0 <= i <= n && versions[i] == a;
    KeyTrichotomy(KeyOfTag(a), KeyOfTag(a));
    assert i < n ==> !ByVersion()(versions[n], versions[i]);
  }

  lemma SortedTags(tags: seq<string>)
    ensures IsSorted(Sort(tags, ByVersion()), ByVersion()) && multiset(Sort(tags, ByVersion())) == multiset(tags)
    ensures forall a :: a in Sort(tags, ByVersion()) <==> a in tags
  {
    ByVersionRanks();
    SortKeeps(tags, ByVersion());
    forall a
      ensures a in Sort(tags, ByVersion()) <==> a in tags
    {
      SortMember(tags, ByVersion(), a);
    }
  }

  lemma LastOfSame(tags: seq<string>, versions: seq<string>, a: string)
    requires IsSorted(versions, ByVersion()) && a in tags && forall x :: x in versions <==> x in tags
    ensures versions != [] && versions[|versions| - 1] in tags
    ensures !KeyLower(KeyOfTag(versions[|versions| - 1]), KeyOfTag(a))
  {
    assert a in versions;
    LastIsNotLower(versions, a);
    assert versions[|versions| - 1] in versions;
  }

  lemma LatestKey(tags: seq<string>, versions: seq<string>, a: string)
    requires versions == Sort(tags, ByVersion()) && a in tags
    ensures multiset(versions) == multiset(tags)
    ensures versions != [] && versions[|versions| - 1] in tags
    ensures !KeyLower(KeyOfTag(versions[|versions| - 1]), KeyOfTag(a))
  {
    SortedTags(tags);
    LastOfSame(tags, versions, a);
  }

  /** The first tag has lower precedence than the second; both are versions. */
  ghost predicate TagPrecedes(a: string, b: string) {
    ParseTag(a).Some? && ParseTag(b).Some? && Precedes(ParseTag(a).value, ParseTag(b).value)
  }

  lemma TagOrder(a: string, b: string)
    requires ParseTag(a).Some? && ParseTag(b).Some?
    ensures TagPrecedes(a, b) <==> KeyLower(KeyOfTag(a), KeyOfTag(b))
  {
    KeyIsPrecedence(ParseTag(a).value, ParseTag(b).value);
  }

  lemma NoPrecedence(a: string, b: string)
    requires !KeyLower(KeyOfTag(a), KeyOfTag(b))
    ensures !TagPrecedes(a, b)
  {
    if ParseTag(a).Some? && ParseTag(b).Some? {
      TagOrder(a, b);
    }
  }

  lemma ShippedSorts(tags: seq<string>)
    requires Shipped(tags).Some?
    ensures tags != [] && AllVersions(tags) && Shipped(tags).value == Sort(tags, ByVersion())
  {
  }

  lemma SortedIsHighest(tags: seq<string>, versions: seq<string>, a: string)
    requires versions == Sort(tags, ByVersion()) && a in tags
    ensures multiset(versions) == multiset(tags)
    ensures versions != [] && versions[|versions| - 1] in tags
    ensures !TagPrecedes(versions[|versions| - 1], a)
  {
    LatestKey(tags, versions, a);
    NoPrecedence(versions[|versions| - 1], a);
  }

  /** The sorted tags are all the tags, and none has higher precedence than the
      last. */
  lemma LastIsHighest(tags: seq<string>, a: string)
    requires Shipped(tags).Some? && a in tags
    ensures var versions := Shipped(tags).value;
            && multiset(versions) == multiset(tags)
            && versions[|versions| - 1] in tags
            && !TagPrecedes(versions[|versions| - 1], a)
  {
    ShippedSorts(tags);
    SortedIsHighest(tags, Shipped(tags).value, a);
  }
}
