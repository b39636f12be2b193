/** The release-tag version grammar on ASCII strings: its parser, its printer and its precedence. */
module SemVer {
  import opened Wrappers

  // ---- characters ----

  predicate IsDigit(c: char) {
    '0' <= c <= '9'
  }

  /** [0-9A-Za-z-] */
  predicate IsIdentifierChar(c: char) {
    IsDigit(c) || 'A' <= c <= 'Z' || 'a' <= c <= 'z' || c == '-'
  }

  predicate AllDigits(s: string) {
    forall i :: 0 <= i < |s| ==> IsDigit(s[i])
  }

  /** 0|[1-9]\d* */
  predicate IsNumeric(s: string) {
    s != "" && AllDigits(s) && (s[0] == '0' ==> |s| == 1)
  }

  /** [0-9A-Za-z-]+ */
  predicate IsIdentifier(s: string) {
    s != "" && forall i :: 0 <= i < |s| ==> IsIdentifierChar(s[i])
  }

  // ---- splitting and joining ----

  /** str.split on one character. */
  function Split(s: string, sep: char): (parts: seq<string>)
    ensures parts != []
  {
    if s == "" then [""]
    else
      var rest := Split(s[1..], sep);
      if s[0] == sep then [""] + rest else [[s[0]] + rest[0]] + rest[1..]
  }

  function Join(parts: seq<string>, sep: char): string
    requires parts != []
  {
    if |parts| == 1 then parts[0] else parts[0] + [sep] + Join(parts[1..], sep)
  }

  predicate Free(s: string, sep: char) {
    sep !in s
  }

  lemma {:induction false} JoinSplit(s: string, sep: char)
    ensures Join(Split(s, sep), sep) == s
    ensures forall i :: 0 <= i < |Split(s, sep)| ==> Free(Split(s, sep)[i], sep)
  {
    if s != "" {
      var rest := Split(s[1..], sep);
      JoinSplit(s[1..], sep);
      if s[0] == sep {
        assert ([""] + rest)[1..] == rest;
        assert s == [sep] + s[1..];
      } else {
        var parts := [[s[0]] + rest[0]] + rest[1..];
        if |rest| > 1 {
          assert parts[1..] == rest[1..];
          assert Join(parts, sep) == [s[0]] + Join(rest, sep);
        }
        assert s == [s[0]] + s[1..];
      }
    }
  }

  lemma {:induction false} SplitFree(s: string, sep: char)
    requires Free(s, sep)
    ensures Split(s, sep) == [s]
  {
    if s != "" {
      SplitFree(s[1..], sep);
      assert s == [s[0]] + s[1..];
    }
  }

  lemma {:induction false} SplitAt(a: string, b: string, sep: char)
    requires Free(a, sep)
    ensures Split(a + [sep] + b, sep) == [a] + Split(b, sep)
  {
    var s := a + [sep] + b;
    if a == "" {
      assert s[1..] == b;
    } else {
      SplitAt(a[1..], b, sep);
      assert s[1..] == a[1..] + [sep] + b;
      assert [s[0]] + a[1..] == a;
    }
  }

  lemma {:induction false} SplitJoin(parts: seq<string>, sep: char)
    requires parts != [] && forall i :: 0 <= i < |parts| ==> Free(parts[i], sep)
    ensures Split(Join(parts, sep), sep) == parts
  {
    if |parts| == 1 {
      SplitFree(parts[0], sep);
    } else {
      SplitJoin(parts[1..], sep);
      SplitAt(parts[0], Join(parts[1..], sep), sep);
      assert [parts[0]] + parts[1..] == parts;
    }
  }

  /** Everything before the first sep, and everything after it if there is one. */
  function Cut(s: string, sep: char): (string, Option<string>) {
    var parts := Split(s, sep);
    (parts[0], if |parts| == 1 then None else Some(Join(parts[1..], sep)))
  }

  function Glue(head: string, sep: char, tail: Option<string>): string {
    head + match tail case None => "" case Some(t) => [sep] + t
  }

  lemma {:induction false} CutGlue(s: string, sep: char)
    ensures var (head, tail) := Cut(s, sep); Glue(head, sep, tail) == s && Free(head, sep)
  {
    JoinSplit(s, sep);
  }

  lemma {:induction false} GlueCut(head: string, sep: char, tail: Option<string>)
    requires Free(head, sep)
    ensures Cut(Glue(head, sep, tail), sep) == (head, tail)
  {
    match tail
    case None =>
      assert head + "" == head;
      SplitFree(head, sep);
    case Some(t) =>
      assert head + ([sep] + t) == head + [sep] + t;
      SplitAt(head, t, sep);
      JoinSplit(t, sep);
      assert ([head] + Split(t, sep))[1..] == Split(t, sep);
  }

  // ---- versions ----

  /** The named groups of the pattern, the dotted ones as their parts. */
  datatype Version = Version(
    major: string,
    minor: string,
    patch: string,
    prerelease: Option<seq<string>>,
    build: Option<seq<string>>)

  predicate Identifiers(parts: seq<string>) {
    parts != [] && forall i :: 0 <= i < |parts| ==> IsIdentifier(parts[i])
  }

  /** The decomposition is one the pattern allows. */
  predicate Allowed(v: Version) {
    && IsNumeric(v.major) && IsNumeric(v.minor) && IsNumeric(v.patch)
    && (v.prerelease.Some? ==> Identifiers(v.prerelease.value))
    && (v.build.Some? ==> Identifiers(v.build.value))
  }

  function Dotted(parts: Option<seq<string>>): Option<string>
    requires parts.Some? ==> parts.value != []
  {
    match parts case None => None case Some(p) => Some(Join(p, '.'))
  }

  /** The string a decomposition stands for. */
  function Print(v: Version): string
    requires Allowed(v)
  {
    Glue(Glue(Join([v.major, v.minor, v.patch], '.'), '-', Dotted(v.prerelease)), '+', Dotted(v.build))
  }

  /** A dotted group, which must consist of identifiers when it is there. */
  function ParseDotted(s: Option<string>): Option<Option<seq<string>>> {
    match s
    case None => Some(None)
    case Some(text) =>
      var parts := Split(text, '.');
      if Identifiers(parts) then Some(Some(parts)) else None
  }

  /** fullmatch of the version pattern. */
  function Parse(s: string): Option<Version> {
    var (front, build) := Cut(s, '+');
    var (core, prerelease) := Cut(front, '-');
    var numbers := Split(core, '.');
    match (ParseDotted(prerelease), ParseDotted(build))
    case (Some(p), Some(b)) =>
      if |numbers| == 3 && IsNumeric(numbers[0]) && IsNumeric(numbers[1]) && IsNumeric(numbers[2]) then
        Some(Version(numbers[0], numbers[1], numbers[2], p, b))
      else None
    case _ => None
  }

  lemma {:induction false} JoinChars(parts: seq<string>, sep: char, c: char)
    requires parts != [] && c != sep && forall i :: 0 <= i < |parts| ==> c !in parts[i]
    ensures c !in Join(parts, sep)
  {
    if |parts| > 1 {
      JoinChars(parts[1..], sep, c);
    }
  }

  lemma {:induction false} IdentifiersFree(parts: seq<string>)
    requires Identifiers(parts)
    ensures forall i :: 0 <= i < |parts| ==> Free(parts[i], '.') && '+' !in parts[i]
  {
    forall i | 0 <= i < |parts| ensures Free(parts[i], '.') && '+' !in parts[i] {
      assert IsIdentifier(parts[i]);
    }
  }

  lemma {:induction false} NumericFree(s: string)
    requires IsNumeric(s)
    ensures Free(s, '.') && Free(s, '-') && Free(s, '+')
  {
  }

  lemma {:induction false} ParseDottedPrint(parts: Option<seq<string>>)
    requires parts.Some? ==> Identifiers(parts.value)
    ensures ParseDotted(Dotted(parts)) == Some(parts)
    ensures Dotted(parts).Some? ==> '+' !in Dotted(parts).value
  {
    if parts.Some? {
      IdentifiersFree(parts.value);
      SplitJoin(parts.value, '.');
      JoinChars(parts.value, '.', '+');
    }
  }

  /** Reading a printed decomposition gives it back. */
  lemma {:induction false} ParsePrint(v: Version)
    requires Allowed(v)
    ensures Parse(Print(v)) == Some(v)
  {
    var numbers := [v.major, v.minor, v.patch];
    var core := Join(numbers, '.');
    NumericFree(v.major);
    NumericFree(v.minor);
    NumericFree(v.patch);
    SplitJoin(numbers, '.');
    JoinChars(numbers, '.', '-');
    JoinChars(numbers, '.', '+');
    ParseDottedPrint(v.prerelease);
    ParseDottedPrint(v.build);
    var front := Glue(core, '-', Dotted(v.prerelease));
    GlueCut(core, '-', Dotted(v.prerelease));
    GlueCut(front, '+', Dotted(v.build));
  }

  lemma {:induction false} DottedParse(s: Option<string>)
    requires ParseDotted(s).Some?
    ensures ParseDotted(s).value.Some? ==> Identifiers(ParseDotted(s).value.value)
    ensures Dotted(ParseDotted(s).value) == s
  {
    if s.Some? {
      JoinSplit(s.value, '.');
    }
  }

  /** Printing what was read gives the string back. */
  lemma {:induction false} PrintParse(s: string)
    requires Parse(s).Some?
    ensures Allowed(Parse(s).value) && Print(Parse(s).value) == s
  {
    var (front, build) := Cut(s, '+');
    var (core, prerelease) := Cut(front, '-');
    CutGlue(s, '+');
    CutGlue(front, '-');
    DottedParse(prerelease);
    DottedParse(build);
    JoinSplit(core, '.');
    var numbers := Split(core, '.');
    assert numbers == [numbers[0], numbers[1], numbers[2]];
  }

  /** A string matches the pattern by the decomposition v. */
  predicate Decomposes(s: string, v: Version) {
    Allowed(v) && Print(v) == s
  }

  /** The grammar is unambiguous: a string has at most one decomposition, and the parser finds it. */
  lemma {:induction false} Unambiguous(s: string, v: Version)
    ensures Decomposes(s, v) <==> Parse(s) == Some(v)
  {
    if Decomposes(s, v) {
      ParsePrint(v);
    } else if Parse(s) == Some(v) {
      PrintParse(s);
    }
  }

  // ---- numbers ----

  function Digit(c: char): nat
    requires IsDigit(c)
  {
    c as nat - '0' as nat
  }

  function Value(s: string): nat
    requires AllDigits(s)
  {
    if s == "" then 0 else 10 * Value(s[..|s| - 1]) + Digit(s[|s| - 1])
  }

  /** str(n) for a natural number. */
  function Decimal(n: nat): (s: string)
    ensures IsNumeric(s) && (n > 0 ==> s[0] != '0')
  {
    var last := ['0' + (n % 10) as char];
    if n < 10 then last else Decimal(n / 10) + last
  }

  /** int(str(n)) == n */
  lemma {:induction false} ValueDecimal(n: nat)
    ensures Value(Decimal(n)) == n
  {
    var last := ['0' + (n % 10) as char];
    if n >= 10 {
      ValueDecimal(n / 10);
      var front := Decimal(n / 10);
      assert Decimal(n) == front + last;
      assert (front + last)[..|front + last| - 1] == front;
    }
  }

  lemma {:induction false} LastDigit(a: nat, c: char)
    requires IsDigit(c)
    ensures (10 * a + Digit(c)) / 10 == a && (10 * a + Digit(c)) % 10 == Digit(c)
    ensures '0' + Digit(c) as char == c
  {
  }

  lemma {:induction false} DecimalSnoc(a: nat, c: char)
    requires IsDigit(c) && a > 0
    ensures Decimal(10 * a + Digit(c)) == Decimal(a) + [c]
  {
    LastDigit(a, c);
  }

  /** str(int(s)) == s for canonical s */
  lemma {:induction false} DecimalValue(s: string)
    requires IsNumeric(s)
    ensures Decimal(Value(s)) == s
  {
    var n := |s| - 1;
    if n == 0 {
      assert s[..0] == "";
      assert s == [s[0]];
      LastDigit(0, s[0]);
    } else {
      var front := s[..n];
      DecimalValue(front);
      PositiveValue(front);
      DecimalSnoc(Value(front), s[n]);
      assert s == front + [s[n]];
    }
  }

  lemma {:induction false} PositiveValue(s: string)
    requires IsNumeric(s) && s[0] != '0'
    ensures Value(s) > 0
  {
    if |s| > 1 {
      PositiveValue(s[..|s| - 1]);
    } else {
      assert s[..0] == "";
    }
  }

  /** The numerals of the pattern are the decimal texts of the natural numbers. */
  lemma {:induction false} NumericExactly(s: string)
    ensures IsNumeric(s) <==> exists n: nat :: Decimal(n) == s
  {
    if IsNumeric(s) {
      DecimalValue(s);
    }
  }

  /** Identifiers consist of the ASCII digits, letters and hyphens. */
  lemma {:induction false} IdentifierCharsExactly(c: char)
    ensures IsIdentifierChar(c) <==>
              48 <= c as int <= 57 || 65 <= c as int <= 90 || 97 <= c as int <= 122 || c as int == 45
  {
    assert '0' as int == 48 && '9' as int == 57 && 'A' as int == 65 && 'Z' as int == 90;
    assert 'a' as int == 97 && 'z' as int == 122 && '-' as int == 45;
  }

  /** A version is written as its three numbers between dots, a hyphen before the prerelease and a plus
      before the build, with dots between their identifiers. */
  lemma {:induction false} PrintExactly(v: Version)
    requires Allowed(v)
    ensures Print(v) ==
            v.major + "." + v.minor + "." + v.patch
            + (if v.prerelease.Some? then "-" + Join(v.prerelease.value, '.') else "")
            + (if v.build.Some? then "+" + Join(v.build.value, '.') else "")
  {
    var three, two := [v.major, v.minor, v.patch], [v.minor, v.patch];
    assert three[1..] == two && two[1..] == [v.patch];
    assert Join(two, '.') == v.minor + ['.'] + v.patch;
    assert Join(three, '.') == v.major + ['.'] + (v.minor + ['.'] + v.patch) == v.major + "." + v.minor + "." + v.patch;
  }

  /** Dots come between the parts and nowhere else. */
  lemma {:induction false} JoinTwo(a: seq<string>, b: seq<string>, sep: char)
    requires a != [] && b != []
    ensures Join(a + b, sep) == Join(a, sep) + [sep] + Join(b, sep) && Join([a[0]], sep) == a[0]
  {
    if |a| == 1 {
      assert (a + b)[1..] == b;
    } else {
      JoinTwo(a[1..], b, sep);
      assert (a + b)[1..] == a[1..] + b;
    }
  }

  /** Dot-separated identifiers: at least one, none empty, of ASCII digits, letters and hyphens. */
  predicate Texts(parts: seq<string>) {
    parts != []
    && forall i :: 0 <= i < |parts| ==>
         |parts[i]| > 0
         && forall k :: 0 <= k < |parts[i]| ==>
              var c := parts[i][k] as int;
              48 <= c <= 57 || 65 <= c <= 90 || 97 <= c <= 122 || c == 45
  }

  function Tail(mark: string, parts: Option<seq<string>>): string
    requires parts.Some? ==> parts.value != []
  {
    if parts.Some? then mark + Join(parts.value, '.') else ""
  }

  /** s consists of these three numbers and, if they are there, these identifiers. */
  predicate SpelledAs(s: string, x: nat, y: nat, z: nat, pre: Option<seq<string>>, build: Option<seq<string>>) {
    && (pre.Some? ==> Texts(pre.value)) && (build.Some? ==> Texts(build.value))
    && s == Decimal(x) + "." + Decimal(y) + "." + Decimal(z) + Tail("-", pre) + Tail("+", build)
  }

  lemma {:induction false} TextsExactly(parts: seq<string>)
    ensures Identifiers(parts) <==> Texts(parts)
  {
    forall c: char
      ensures IsIdentifierChar(c) <==>
                48 <= c as int <= 57 || 65 <= c as int <= 90 || 97 <= c as int <= 122 || c as int == 45
    {
      IdentifierCharsExactly(c);
    }
    if Identifiers(parts) {
      assert forall i :: 0 <= i < |parts| ==> IsIdentifier(parts[i]);
    }
  }

  lemma {:induction false} SpelledAsPrint(x: nat, y: nat, z: nat, pre: Option<seq<string>>, build: Option<seq<string>>)
    requires (pre.Some? ==> Identifiers(pre.value)) && (build.Some? ==> Identifiers(build.value))
    ensures var v := Version(Decimal(x), Decimal(y), Decimal(z), pre, build);
      Allowed(v) && Print(v) == Decimal(x) + "." + Decimal(y) + "." + Decimal(z) + Tail("-", pre) + Tail("+", build)
  {
    PrintExactly(Version(Decimal(x), Decimal(y), Decimal(z), pre, build));
  }

  /** The parser accepts exactly the strings so spelled. */
  lemma {:induction false} GrammarExactly(s: string)
    ensures Parse(s).Some? <==> exists x, y, z, pre, build :: SpelledAs(s, x, y, z, pre, build)
  {
    if Parse(s).Some? {
      var v := Parse(s).value;
      PrintParse(s);
      DecimalValue(v.major);
      DecimalValue(v.minor);
      DecimalValue(v.patch);
      SpelledAsPrint(Value(v.major), Value(v.minor), Value(v.patch), v.prerelease, v.build);
      if v.prerelease.Some? { TextsExactly(v.prerelease.value); }
      if v.build.Some? { TextsExactly(v.build.value); }
      assert SpelledAs(s, Value(v.major), Value(v.minor), Value(v.patch), v.prerelease, v.build);
    }
    if x, y, z, pre, build :| SpelledAs(s, x, y, z, pre, build) {
      if pre.Some? { TextsExactly(pre.value); }
      if build.Some? { TextsExactly(build.value); }
      SpelledAsPrint(x, y, z, pre, build);
      ParsePrint(Version(Decimal(x), Decimal(y), Decimal(z), pre, build));
    }
  }

  // ---- precedence, section 11 of Semantic Versioning 2.0.0 ----

  predicate TextLess(a: string, b: string) {
    b != "" && (a == "" || a[0] < b[0] || (a[0] == b[0] && TextLess(a[1..], b[1..])))
  }

  /** Numeric identifiers compare as numbers and come before the others, which compare as ASCII text. */
  predicate IdentifierLess(a: string, b: string) {
    if AllDigits(a) && AllDigits(b) then Value(a) < Value(b)
    else if AllDigits(a) then true
    else if AllDigits(b) then false
    else TextLess(a, b)
  }

  predicate IdentifierSame(a: string, b: string) {
    if AllDigits(a) && AllDigits(b) then Value(a) == Value(b) else a == b
  }

  predicate FieldsLess(a: seq<string>, b: seq<string>) {
    b != [] && (a == [] || IdentifierLess(a[0], b[0]) || (IdentifierSame(a[0], b[0]) && FieldsLess(a[1..], b[1..])))
  }

  /** A version with a prerelease comes before the one without. */
  predicate PrereleaseLess(a: Option<seq<string>>, b: Option<seq<string>>) {
    a.Some? && (b.None? || FieldsLess(a.value, b.value))
  }

  predicate Precedes(a: Version, b: Version)
    requires Allowed(a) && Allowed(b)
  {
    var x, y, z := Value(a.major), Value(a.minor), Value(a.patch);
    var u, v, w := Value(b.major), Value(b.minor), Value(b.patch);
    x < u || (x == u && (y < v || (y == v && (z < w || (z == w && PrereleaseLess(a.prerelease, b.prerelease))))))
  }

  lemma {:induction false} TextTrichotomy(a: string, b: string)
    ensures a == b || TextLess(a, b) || TextLess(b, a)
    ensures !(TextLess(a, b) && TextLess(b, a)) && !TextLess(a, a)
  {
    if a != "" && b != "" {
      TextTrichotomy(a[1..], b[1..]);
      TextTrichotomy(a[1..], a[1..]);
      assert a == [a[0]] + a[1..] && b == [b[0]] + b[1..];
    } else if a != "" {
      TextTrichotomy(a[1..], a[1..]);
    }
  }

  /** Two identifiers have the same precedence exactly if neither comes first, and never both do. */
  lemma {:induction false} IdentifierTrichotomy(a: string, b: string)
    ensures IdentifierSame(a, b) <==> !IdentifierLess(a, b) && !IdentifierLess(b, a)
    ensures !(IdentifierLess(a, b) && IdentifierLess(b, a))
  {
    TextTrichotomy(a, b);
  }

  /** A numeric identifier comes before any other, numbers by size, texts by their first different
      character, and a text before its continuations. */
  lemma {:induction false} IdentifierOrder(a: string, b: string)
    ensures AllDigits(a) && AllDigits(b) ==> (IdentifierLess(a, b) <==> Value(a) < Value(b))
    ensures AllDigits(a) && !AllDigits(b) ==> IdentifierLess(a, b) && !IdentifierLess(b, a)
    ensures !AllDigits(a) && !AllDigits(b) ==>
      (IdentifierLess(a, b) <==>
        exists k: nat :: k <= |a| && k < |b| && a[..k] == b[..k] && (k == |a| || a[k] < b[k]))
  {
    TextLessExactly(a, b);
  }

  lemma {:induction false} TextLessExactly(a: string, b: string)
    ensures TextLess(a, b) <==> exists k: nat :: k <= |a| && k < |b| && a[..k] == b[..k] && (k == |a| || a[k] < b[k])
  {
    if TextLess(a, b) {
      var k := FirstDifference(a, b);
    }
    if k: nat :| k <= |a| && k < |b| && a[..k] == b[..k] && (k == |a| || a[k] < b[k]) {
      LessFrom(a, b, k);
    }
  }

  /** The first place at which the lesser text shows. */
  lemma {:induction false} FirstDifference(a: string, b: string) returns (k: nat)
    requires TextLess(a, b)
    ensures k <= |a| && k < |b| && a[..k] == b[..k] && (k == |a| || a[k] < b[k])
  {
    if a == "" || a[0] < b[0] {
      k := 0;
    } else {
      var j := FirstDifference(a[1..], b[1..]);
      k := j + 1;
      assert a[..k] == [a[0]] + a[1..][..j] && b[..k] == [b[0]] + b[1..][..j];
    }
  }

  lemma {:induction false} LessFrom(a: string, b: string, k: nat)
    requires k <= |a| && k < |b| && a[..k] == b[..k] && (k == |a| || a[k] < b[k])
    ensures TextLess(a, b)
  {
    if k > 0 {
      assert a[0] == a[..k][0] == b[..k][0] == b[0];
      assert a[1..][..k - 1] == a[..k][1..] == b[..k][1..] == b[1..][..k - 1];
      LessFrom(a[1..], b[1..], k - 1);
    }
  }

  /** The first field that differs decides; otherwise the shorter list comes first. */
  lemma {:induction false} FieldsOrder(a: seq<string>, b: seq<string>, k: nat)
    requires k <= |a| && k <= |b| && forall i :: 0 <= i < k ==> IdentifierSame(a[i], b[i])
    ensures k < |a| && k < |b| && !IdentifierSame(a[k], b[k]) ==> (FieldsLess(a, b) <==> IdentifierLess(a[k], b[k]))
    ensures k == |a| ==> (FieldsLess(a, b) <==> |a| < |b|)
    ensures k == |b| ==> !FieldsLess(a, b)
  {
    if k > 0 {
      SameNotLess(a[0], b[0]);
      FieldsOrder(a[1..], b[1..], k - 1);
    }
  }

  lemma {:induction false} SameNotLess(a: string, b: string)
    requires IdentifierSame(a, b)
    ensures !IdentifierLess(a, b)
  {
    NotLessItself(a);
  }

  lemma {:induction false} NotLessItself(a: string)
    ensures !TextLess(a, a)
  {
    if a != "" {
      NotLessItself(a[1..]);
    }
  }

  /** Any prerelease comes before the version without one; build metadata does not matter. */
  lemma {:induction false} PrereleaseOrder(a: Version, b: Version)
    requires Allowed(a) && Allowed(b) && a.major == b.major && a.minor == b.minor && a.patch == b.patch
    ensures a.prerelease.Some? && b.prerelease.None? ==> Precedes(a, b) && !Precedes(b, a)
    ensures a.prerelease.None? && b.prerelease.None? ==> !Precedes(a, b)
    ensures a.prerelease.Some? && b.prerelease.Some? ==>
      (Precedes(a, b) <==> FieldsLess(a.prerelease.value, b.prerelease.value))
  {
  }

  /** The numbers decide first, from left to right. */
  lemma {:induction false} CoreOrder(a: Version, b: Version)
    requires Allowed(a) && Allowed(b) && !(a.major == b.major && a.minor == b.minor && a.patch == b.patch)
    ensures Precedes(a, b) <==>
              if a.major != b.major then Value(a.major) < Value(b.major)
              else if a.minor != b.minor then Value(a.minor) < Value(b.minor)
              else Value(a.patch) < Value(b.patch)
  {
    SameValue(a.major, b.major);
    SameValue(a.minor, b.minor);
    SameValue(a.patch, b.patch);
  }

  lemma {:induction false} SameValue(s: string, t: string)
    requires IsNumeric(s) && IsNumeric(t)
    ensures Value(s) == Value(t) <==> s == t
  {
    DecimalValue(s);
    DecimalValue(t);
  }
}
