/** `semver_to_pep440`: which Python version a release gets, and what that does to the order. */
module Pep440 {
  import opened Wrappers
  import opened SemVer

  /** Prerelease classes, in PEP 440 order. */
  datatype Class = A | B | RC

  function Lower(c: char): char {
    if 'A' <= c <= 'Z' then c - 'A' + 'a' else c
  }

  /** str.casefold on ASCII text */
  function Casefold(s: string): (r: string)
    ensures |r| == |s|
  {
    seq(|s|, i requires 0 <= i < |s| => Lower(s[i]))
  }

  function ClassOf(name: string): Option<Class> {
    var l := Casefold(name);
    if l == "alpha" || l == "a" then Some(A)
    else if l == "beta" || l == "b" then Some(B)
    else if l == "rc" then Some(RC)
    else None
  }

  /** name is word, in lower-case letters, in any mixture of cases. */
  predicate SpelledLike(name: string, word: string) {
    |name| == |word|
    && forall i :: 0 <= i < |word| ==> name[i] == word[i] || name[i] as int == word[i] as int - 'a' as int + 'A' as int
  }

  lemma {:induction false} CasefoldIs(name: string, word: string)
    requires forall i :: 0 <= i < |word| ==> 'a' <= word[i] <= 'z'
    ensures Casefold(name) == word <==> SpelledLike(name, word)
  {
    if Casefold(name) == word {
      assert forall i :: 0 <= i < |name| ==> Casefold(name)[i] == Lower(name[i]);
    }
    if SpelledLike(name, word) {
      assert forall i :: 0 <= i < |name| ==> Lower(name[i]) == word[i];
      assert Casefold(name) == word;
    }
  }

  /** The labels and their classes, in any case. */
  lemma {:induction false} ClassExactly(name: string)
    ensures ClassOf(name) == Some(A) <==> SpelledLike(name, "alpha") || SpelledLike(name, "a")
    ensures ClassOf(name) == Some(B) <==> SpelledLike(name, "beta") || SpelledLike(name, "b")
    ensures ClassOf(name) == Some(RC) <==> SpelledLike(name, "rc")
  {
    CasefoldIs(name, "alpha");
    CasefoldIs(name, "a");
    CasefoldIs(name, "beta");
    CasefoldIs(name, "b");
    CasefoldIs(name, "rc");
  }

  function Alias(c: Class): string {
    match c case A => "a" case B => "b" case RC => "rc"
  }

  /** `_numeric_identifier` */
  function NumericIdentifier(s: string): Outcome<nat> {
    if s == "" || !AllDigits(s) || (|s| > 1 && s[0] == '0') then Failed else Ok(Value(s))
  }

  function TranslateVersion(v: Version): Outcome<string> {
    var base := Join([v.major, v.minor, v.patch], '.');
    match v.prerelease
    case None => Ok(base)
    case Some(parts) =>
      if parts == [] || ClassOf(parts[0]).None? || |parts| > 2 then Failed
      else
        match if |parts| == 1 then Ok(0) else NumericIdentifier(parts[1])
        case Failed => Failed
        case Ok(n) => Ok(base + Alias(ClassOf(parts[0]).value) + Decimal(n))
  }

  function SemverToPep440(version: string): Outcome<string> {
    match Parse(version)
    case None => Failed
    case Some(v) => TranslateVersion(v)
  }

  // ---- PEP 440 versions ----

  /** A release of three numbers, with or without a prerelease segment. */
  datatype Pep = Pep(major: nat, minor: nat, patch: nat, pre: Option<(Class, nat)>)

  function Suffix(pre: Option<(Class, nat)>): string {
    match pre case None => "" case Some(p) => Alias(p.0) + Decimal(p.1)
  }

  function Written(p: Pep): string {
    Join([Decimal(p.major), Decimal(p.minor), Decimal(p.patch)], '.') + Suffix(p.pre)
  }

  function Rank(c: Class): nat {
    match c case A => 0 case B => 1 case RC => 2
  }

  /** The relative ordering of PEP 440: by release, then prereleases before the release, by class and number. */
  predicate PreLess(a: Option<(Class, nat)>, b: Option<(Class, nat)>) {
    a.Some? && (b.None? || Rank(a.value.0) < Rank(b.value.0) || (a.value.0 == b.value.0 && a.value.1 < b.value.1))
  }

  predicate PepLess(a: Pep, b: Pep) {
    || a.major < b.major
    || (a.major == b.major && a.minor < b.minor)
    || (a.major == b.major && a.minor == b.minor && a.patch < b.patch)
    || (a.major == b.major && a.minor == b.minor && a.patch == b.patch && PreLess(a.pre, b.pre))
  }

  // ---- reading a PEP 440 version back ----

  predicate BaseChar(c: char) {
    IsDigit(c) || c == '.'
  }

  function BaseLength(t: string): (k: nat)
    ensures k <= |t|
  {
    if t == "" || !BaseChar(t[0]) then 0 else 1 + BaseLength(t[1..])
  }

  function ReadSuffix(t: string): Option<Option<(Class, nat)>> {
    if t == "" then Some(None)
    else if t[0] == 'a' && IsNumeric(t[1..]) then Some(Some((A, Value(t[1..]))))
    else if t[0] == 'b' && IsNumeric(t[1..]) then Some(Some((B, Value(t[1..]))))
    else if |t| > 1 && t[0] == 'r' && t[1] == 'c' && IsNumeric(t[2..]) then Some(Some((RC, Value(t[2..]))))
    else None
  }

  function Read(t: string): Option<Pep> {
    var k := BaseLength(t);
    var numbers := Split(t[..k], '.');
    match ReadSuffix(t[k..])
    case None => None
    case Some(pre) =>
      if |numbers| == 3 && IsNumeric(numbers[0]) && IsNumeric(numbers[1]) && IsNumeric(numbers[2]) then
        Some(Pep(Value(numbers[0]), Value(numbers[1]), Value(numbers[2]), pre))
      else None
  }

  lemma {:induction false} BaseLengthAt(b: string, t: string)
    requires (forall i :: 0 <= i < |b| ==> BaseChar(b[i])) && (t == "" || !BaseChar(t[0]))
    ensures BaseLength(b + t) == |b|
  {
    if b == "" {
      assert b + t == t;
    } else {
      BaseLengthAt(b[1..], t);
      assert (b + t)[1..] == b[1..] + t;
    }
  }

  lemma {:induction false} JoinBase(parts: seq<string>)
    requires parts != [] && forall i :: 0 <= i < |parts| ==> IsNumeric(parts[i])
    ensures forall i :: 0 <= i < |Join(parts, '.')| ==> BaseChar(Join(parts, '.')[i])
  {
    if |parts| > 1 {
      JoinBase(parts[1..]);
    }
  }

  lemma {:induction false} ReadSuffixOf(pre: Option<(Class, nat)>)
    ensures ReadSuffix(Suffix(pre)) == Some(pre)
    ensures Suffix(pre) == "" || !BaseChar(Suffix(pre)[0])
  {
    if pre.Some? {
      var (c, n) := pre.value;
      ValueDecimal(n);
      assert Suffix(pre)[|Alias(c)|..] == Decimal(n);
    }
  }

  /** What is written reads back; in particular two versions written alike are equal. */
  lemma {:induction false} ReadWritten(p: Pep)
    ensures Read(Written(p)) == Some(p)
  {
    var numbers := [Decimal(p.major), Decimal(p.minor), Decimal(p.patch)];
    var base := Join(numbers, '.');
    ReadSuffixOf(p.pre);
    JoinBase(numbers);
    BaseLengthAt(base, Suffix(p.pre));
    assert Written(p)[..|base|] == base && Written(p)[|base|..] == Suffix(p.pre);
    SplitJoin(numbers, '.');
    ValueDecimal(p.major);
    ValueDecimal(p.minor);
    ValueDecimal(p.patch);
  }

  // ---- the translation ----

  /** The prerelease is one the translation accepts: a known label, and at most a canonical number. */
  predicate Translatable(v: Version) {
    v.prerelease.Some? ==>
      && v.prerelease.value != [] && |v.prerelease.value| <= 2 && ClassOf(v.prerelease.value[0]).Some?
      && (|v.prerelease.value| == 2 ==> IsNumeric(v.prerelease.value[1]))
  }

  function PreOf(parts: seq<string>): (Class, nat)
    requires Translatable(Version("", "", "", Some(parts), None))
  {
    (ClassOf(parts[0]).value, if |parts| == 1 then 0 else Value(parts[1]))
  }

  function PepOf(v: Version): Pep
    requires Allowed(v) && Translatable(v)
  {
    Pep(Value(v.major), Value(v.minor), Value(v.patch),
        match v.prerelease case None => None case Some(parts) => Some(PreOf(parts)))
  }

  lemma {:induction false} TranslationWrites(v: Version)
    requires Allowed(v)
    ensures TranslateVersion(v).Ok? <==> Translatable(v)
    ensures Translatable(v) ==> TranslateVersion(v) == Ok(Written(PepOf(v)))
  {
    DecimalValue(v.major);
    DecimalValue(v.minor);
    DecimalValue(v.patch);
    if Translatable(v) {
      var base := Join([v.major, v.minor, v.patch], '.');
      match v.prerelease
      case None => assert base + "" == base;
      case Some(parts) =>
        assert base + Alias(PreOf(parts).0) + Decimal(PreOf(parts).1) == base + Suffix(Some(PreOf(parts)));
    }
  }

  /** The translation accepts exactly the translatable versions, and what it writes reads back as what they mean. */
  lemma {:induction false} TranslationMeans(s: string)
    ensures SemverToPep440(s).Ok? <==> Parse(s).Some? && Translatable(Parse(s).value)
    ensures SemverToPep440(s).Ok? ==>
              && Allowed(Parse(s).value)
              && SemverToPep440(s) == Ok(Written(PepOf(Parse(s).value)))
              && Read(SemverToPep440(s).value) == Some(PepOf(Parse(s).value))
  {
    if Parse(s).Some? {
      PrintParse(s);
      TranslationWrites(Parse(s).value);
      if Translatable(Parse(s).value) {
        ReadWritten(PepOf(Parse(s).value));
      }
    }
  }

  /** Same base, and neither or both are prereleases, of the same class and number. */
  predicate Agree(v: Version, w: Version) {
    && v.major == w.major && v.minor == w.minor && v.patch == w.patch
    && (v.prerelease.Some? <==> w.prerelease.Some?)
    && (v.prerelease.Some? ==> PreAgree(v.prerelease.value, w.prerelease.value))
  }

  lemma {:induction false} AgreeIff(v: Version, w: Version)
    requires Allowed(v) && Allowed(w) && Translatable(v) && Translatable(w)
    ensures PepOf(v) == PepOf(w) <==> Agree(v, w)
  {
    DecimalValue(v.major);
    DecimalValue(v.minor);
    DecimalValue(v.patch);
    DecimalValue(w.major);
    DecimalValue(w.minor);
    DecimalValue(w.patch);
  }

  /** Translated versions are equal iff base, class and number (0 when missing) agree. */
  lemma {:induction false} TranslationEqualIff(s: string, t: string)
    requires SemverToPep440(s).Ok? && SemverToPep440(t).Ok?
    ensures Parse(s).Some? && Parse(t).Some?
    ensures SemverToPep440(s) == SemverToPep440(t) <==> Agree(Parse(s).value, Parse(t).value)
  {
    TranslationMeans(s);
    TranslationMeans(t);
    AgreeIff(Parse(s).value, Parse(t).value);
  }

  predicate PreAgree(p: seq<string>, q: seq<string>) {
    && p != [] && q != [] && ClassOf(p[0]) == ClassOf(q[0])
    && NumberOf(p) == NumberOf(q)
  }

  function NumberOf(parts: seq<string>): nat {
    if |parts| == 2 && AllDigits(parts[1]) then Value(parts[1]) else 0
  }

  // ---- order ----

  lemma {:induction false} LabelIsText(name: string)
    requires ClassOf(name).Some?
    ensures name != "" && !AllDigits(name)
  {
    var l := Casefold(name);
    assert l[0] in "abr";
    assert l[0] == Lower(name[0]);
    assert !IsDigit(name[0]);
  }

  /** Labels of these two spellings sort as text the way their classes sort. */
  predicate SortAlike(l: string, m: string) {
    && ClassOf(l).Some? && ClassOf(m).Some?
    && (l == m || (ClassOf(l) != ClassOf(m)
                   && (TextLess(l, m) <==> Rank(ClassOf(l).value) < Rank(ClassOf(m).value))))
  }

  predicate HasLabel(v: Version, name: string) {
    v.prerelease.Some? && v.prerelease.value != [] && v.prerelease.value[0] == name
  }

  /** The first precedes the second exactly when its translation does, up to the pair `label` and `label.0`. */
  predicate Kept(v: Version, w: Version)
    requires Allowed(v) && Allowed(w) && Translatable(v) && Translatable(w)
  {
    Precedes(v, w) <==> PepLess(PepOf(v), PepOf(w)) || (PepOf(v) == PepOf(w) && AddsZero(v, w))
  }

  predicate AddsZero(v: Version, w: Version) {
    v.prerelease.Some? && w.prerelease.Some? && w.prerelease.value == v.prerelease.value + ["0"]
  }

  lemma {:induction false} FieldsKept(p: seq<string>, q: seq<string>)
    requires Translatable(Version("", "", "", Some(p), None)) && Translatable(Version("", "", "", Some(q), None))
    requires SortAlike(p[0], q[0])
    ensures FieldsLess(p, q) <==> PreLess(Some(PreOf(p)), Some(PreOf(q))) || (PreOf(p) == PreOf(q) && q == p + ["0"])
  {
    LabelIsText(p[0]);
    LabelIsText(q[0]);
    TextTrichotomy(p[0], q[0]);
    if p[0] == q[0] {
      assert FieldsLess(p, q) <==> FieldsLess(p[1..], q[1..]);
      if |p| == 1 && |q| == 2 {
        if Value(q[1]) == 0 {
          DecimalValue(q[1]);
          assert q == p + ["0"];
        }
      } else if |p| == 2 && |q| == 2 {
        assert p[1..][0] == p[1] && q[1..][0] == q[1];
        assert p[1..][1..] == [] && q[1..][1..] == [];
        assert FieldsLess(p[1..], q[1..]) <==> Value(p[1]) < Value(q[1]);
      }
    }
  }

  /** Order is kept between versions whose labels sort alike, and around versions without a prerelease. */
  lemma {:induction false} OrderKept(v: Version, w: Version)
    requires Allowed(v) && Allowed(w) && Translatable(v) && Translatable(w)
    requires v.prerelease.Some? && w.prerelease.Some? ==> SortAlike(v.prerelease.value[0], w.prerelease.value[0])
    ensures Kept(v, w)
  {
    if v.prerelease.Some? && w.prerelease.Some? {
      FieldsKept(v.prerelease.value, w.prerelease.value);
    }
  }

  predicate PlainLabel(v: Version) {
    v.prerelease.Some? ==> v.prerelease.value != [] && v.prerelease.value[0] in ["alpha", "beta", "rc"]
  }

  lemma {:induction false} PlainLabelsSortAlike(l: string, m: string)
    requires l in ["alpha", "beta", "rc"] && m in ["alpha", "beta", "rc"]
    ensures SortAlike(l, m)
  {
    assert Casefold("alpha") == "alpha" && Casefold("beta") == "beta" && Casefold("rc") == "rc";
    TextTrichotomy(l, m);
  }

  /** For the labels alpha, beta and rc the translation preserves precedence, and merges two versions
      only when one is `label` and the other `label.0`. */
  lemma {:induction false} TranslationPreservesOrder(s: string, t: string)
    requires SemverToPep440(s).Ok? && SemverToPep440(t).Ok?
    ensures Parse(s).Some? && Parse(t).Some? && Allowed(Parse(s).value) && Allowed(Parse(t).value)
    ensures Read(SemverToPep440(s).value).Some? && Read(SemverToPep440(t).value).Some?
    ensures var v, w := Parse(s).value, Parse(t).value;
      var p, q := Read(SemverToPep440(s).value).value, Read(SemverToPep440(t).value).value;
      PlainLabel(v) && PlainLabel(w) ==> (Precedes(v, w) <==> PepLess(p, q) || (p == q && AddsZero(v, w)))
  {
    TranslationMeans(s);
    TranslationMeans(t);
    var v, w := Parse(s).value, Parse(t).value;
    if PlainLabel(v) && PlainLabel(w) {
      if v.prerelease.Some? && w.prerelease.Some? {
        PlainLabelsSortAlike(v.prerelease.value[0], w.prerelease.value[0]);
      }
      OrderKept(v, w);
    }
  }

  // ---- exactly which labels keep the order ----

  ghost predicate LabelsKeepOrder(l: string, m: string) {
    forall v, w |
      && Allowed(v) && Allowed(w) && Translatable(v) && Translatable(w)
      && (HasLabel(v, l) || HasLabel(v, m)) && (HasLabel(w, l) || HasLabel(w, m))
      :: Kept(v, w)
  }

  function Sample(name: string, number: string): Version {
    Version("0", "0", "0", Some([name, number]), None)
  }

  /** Two labels that sort the other way, or alike in class but not in spelling, break the order. */
  lemma {:induction false} OrderBreaks(l: string, m: string)
    requires IsIdentifier(l) && IsIdentifier(m) && ClassOf(l).Some? && ClassOf(m).Some?
    requires TextLess(l, m) && Rank(ClassOf(l).value) >= Rank(ClassOf(m).value)
    ensures !LabelsKeepOrder(l, m) && !LabelsKeepOrder(m, l)
  {
    var v, w := Sample(l, "1"), Sample(m, "0");
    LabelIsText(l);
    LabelIsText(m);
    assert IsIdentifier("0") && IsIdentifier("1");
    assert Allowed(v) && Allowed(w) && Translatable(v) && Translatable(w);
    assert FieldsLess([l, "1"], [m, "0"]);
    assert Value("1") == 1 && Value("0") == 0 by {
      assert "1"[..0] == "" && "0"[..0] == "";
    }
    assert Precedes(v, w) && !Kept(v, w);
  }

  /** The order is kept among versions labelled l or m exactly when the two labels sort alike. */
  lemma {:induction false} LabelsKeepOrderIff(l: string, m: string)
    requires IsIdentifier(l) && IsIdentifier(m) && ClassOf(l).Some? && ClassOf(m).Some?
    ensures LabelsKeepOrder(l, m) <==> SortAlike(l, m)
  {
    TextTrichotomy(l, m);
    if SortAlike(l, m) {
      forall v, w | Allowed(v) && Allowed(w) && Translatable(v) && Translatable(w)
          && (HasLabel(v, l) || HasLabel(v, m)) && (HasLabel(w, l) || HasLabel(w, m))
        ensures Kept(v, w)
      {
        OrderKept(v, w);
      }
    } else if TextLess(l, m) {
      OrderBreaks(l, m);
    } else {
      OrderBreaks(m, l);
    }
  }

  lemma {:induction false} SampleText(name: string, number: string)
    requires IsIdentifier(name) && IsNumeric(number)
    ensures Parse("0.0.0-" + name + "." + number) == Some(Sample(name, number))
  {
    var v := Sample(name, number);
    assert IsIdentifier(number);
    assert [name, number][1..] == [number];
    assert Join([name, number], '.') == name + "." + number;
    assert ["0", "0", "0"][1..] == ["0", "0"] && ["0", "0"][1..] == ["0"];
    assert Join(["0", "0", "0"], '.') == "0.0.0";
    assert Print(v) == "0.0.0-" + name + "." + number;
    ParsePrint(v);
  }

  function SamplePep(name: string, number: string): Pep
    requires ClassOf(name).Some? && AllDigits(number)
  {
    Pep(0, 0, 0, Some((ClassOf(name).value, Value(number))))
  }

  lemma {:induction false} SampleTranslated(name: string, number: string)
    requires IsIdentifier(name) && IsNumeric(number) && ClassOf(name).Some?
    ensures SemverToPep440("0.0.0-" + name + "." + number) == Ok("0.0.0" + Alias(ClassOf(name).value) + number)
    ensures Read("0.0.0" + Alias(ClassOf(name).value) + number) == Some(SamplePep(name, number))
  {
    var p := SamplePep(name, number);
    SampleText(name, number);
    DecimalValue(number);
    assert ["0", "0", "0"][1..] == ["0", "0"] && ["0", "0"][1..] == ["0"];
    assert Join(["0", "0", "0"], '.') == "0.0.0";
    assert Written(p) == "0.0.0" + Alias(ClassOf(name).value) + number;
    ReadWritten(p);
  }

  /** Version s precedes version t, but their translations ps and pt come in the other order. */
  predicate Inverted(s: string, t: string, ps: string, pt: string) {
    && Parse(s).Some? && Parse(t).Some? && Allowed(Parse(s).value) && Allowed(Parse(t).value)
    && Precedes(Parse(s).value, Parse(t).value)
    && SemverToPep440(s) == Ok(ps) && SemverToPep440(t) == Ok(pt)
    && Read(ps).Some? && Read(pt).Some? && PepLess(Read(pt).value, Read(ps).value)
  }

  lemma {:induction false} SamplesInverted(l: string, x: string, m: string, y: string, s: string, t: string, ps: string, pt: string)
    requires IsIdentifier(l) && IsIdentifier(m) && ClassOf(l).Some? && ClassOf(m).Some? && TextLess(l, m)
    requires IsNumeric(x) && IsNumeric(y) && Rank(ClassOf(l).value) > Rank(ClassOf(m).value)
    requires s == "0.0.0-" + l + "." + x && t == "0.0.0-" + m + "." + y
    requires ps == "0.0.0" + Alias(ClassOf(l).value) + x && pt == "0.0.0" + Alias(ClassOf(m).value) + y
    ensures Inverted(s, t, ps, pt)
  {
    SampleText(l, x);
    SampleText(m, y);
    SampleTranslated(l, x);
    SampleTranslated(m, y);
    SamplesPrecede(l, x, m, y);
  }

  lemma {:induction false} SamplesPrecede(l: string, x: string, m: string, y: string)
    requires IsIdentifier(l) && IsIdentifier(m) && ClassOf(l).Some? && ClassOf(m).Some? && TextLess(l, m)
    requires IsNumeric(x) && IsNumeric(y)
    ensures Allowed(Sample(l, x)) && Allowed(Sample(m, y)) && Precedes(Sample(l, x), Sample(m, y))
  {
    LabelIsText(l);
    LabelIsText(m);
    assert IsIdentifier(x) && IsIdentifier(y);
    assert FieldsLess([l, x], [m, y]);
  }

  /** An upper-case label inverts the order. */
  lemma {:induction false} UpperCaseInverts(s: string, t: string, ps: string, pt: string)
    requires s == "0.0.0-RC.1" && t == "0.0.0-alpha.0" && ps == "0.0.0rc1" && pt == "0.0.0a0"
    ensures Inverted(s, t, ps, pt) && !LabelsKeepOrder("RC", "alpha")
  {
    var rc, alpha, one, zero := "RC", "alpha", "1", "0";
    assert Casefold(rc) == "rc" && Casefold(alpha) == "alpha";
    SamplesInverted(rc, one, alpha, zero, s, t, ps, pt);
    OrderBreaks(rc, alpha);
  }
}
