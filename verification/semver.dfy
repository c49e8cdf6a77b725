/** Semantic versions as `utils/semver/semver.go` parses and prints them.
    The accepted grammar is the one of the source's regular expression
    `^v?([0-9]+)\.([0-9]+)\.([0-9]+)(?:-([0-9A-Za-z\-.]+))?(?:\+([0-9A-Za-z\-.]+))?$`
    applied after trimming white space; it is looser than Semantic Versioning
    2.0.0 (a leading `v`, leading zeros and empty dot-separated identifiers pass). */
module Semver {
  import opened Wrappers

  datatype Version = Version(major: int, minor: int, patch: int, preRelease: string, build: string)

  datatype ParseError = EmptyVersion | InvalidSemver(input: string)

  predicate IsDigit(c: char) { '0' <= c <= '9' }

  /** The character class `[0-9A-Za-z\-.]` of pre-release and build identifiers. */
  predicate IsIdentChar(c: char) {
    IsDigit(c) || ('A' <= c <= 'Z') || ('a' <= c <= 'z') || c == '-' || c == '.'
  }

  /** A non-empty run of identifier characters, as `[0-9A-Za-z\-.]+` matches. */
  predicate IsIdentString(s: string) {
    |s| >= 1 && forall k :: 0 <= k < |s| ==> IsIdentChar(s[k])
  }

  predicate IsDigitString(s: string) {
    |s| >= 1 && forall k :: 0 <= k < |s| ==> IsDigit(s[k])
  }

  /** Go's `unicode.IsSpace`, the predicate `strings.TrimSpace` trims by. */
  predicate IsSpace(c: char) {
    c == ' ' || c == '\t' || c == '\n' || c == '\U{B}' || c == '\U{C}' || c == '\r'
    || c == '\U{85}' || c == '\U{A0}' || c == '\U{1680}' || ('\U{2000}' <= c <= '\U{200A}')
    || c == '\U{2028}' || c == '\U{2029}' || c == '\U{202F}' || c == '\U{205F}' || c == '\U{3000}'
  }

  predicate AllSpace(s: string) {
    forall k :: 0 <= k < |s| ==> IsSpace(s[k])
  }

  // ---------------------------------------------------------------------------
  // strings.TrimSpace

  /** Index of the first non-space character (or |s|). */
  function TrimStart(s: string): (i: nat)
    ensures i <= |s|
    ensures forall k :: 0 <= k < i ==> IsSpace(s[k])
    ensures i < |s| ==> !IsSpace(s[i])
  {
    if |s| == 0 || !IsSpace(s[0]) then 0 else 1 + TrimStart(s[1..])
  }

  /** Length of `s` without its trailing white space. */
  function TrimEnd(s: string): (j: nat)
    ensures j <= |s|
    ensures forall k :: j <= k < |s| ==> IsSpace(s[k])
    ensures j > 0 ==> !IsSpace(s[j - 1])
  {
    if |s| == 0 || !IsSpace(s[|s| - 1]) then |s| else TrimEnd(s[..|s| - 1])
  }

  function TrimSpace(s: string): (t: string)
    ensures |t| <= |s|
    ensures t == [] || (!IsSpace(t[0]) && !IsSpace(t[|t| - 1]))
    ensures t == [] <==> AllSpace(s)
    ensures (s == [] || (!IsSpace(s[0]) && !IsSpace(s[|s| - 1]))) ==> t == s
  {
    var i := TrimStart(s);
    var rest := s[i..];
    var t := rest[..TrimEnd(rest)];
    assert t == [] ==> AllSpace(s) by {
      if t == [] {
        forall k | 0 <= k < |s| ensures IsSpace(s[k]) {
          if k >= i { assert s[k] == rest[k - i]; }
        }
      }
    }
    t
  }

  // ---------------------------------------------------------------------------
  // Decimal digits: strconv.Atoi on `[0-9]+` and fmt's `%d`

  function DigitValue(c: char): nat
    requires IsDigit(c)
  {
    (c as int - '0' as int) as nat
  }

  function DigitChar(d: nat): (c: char)
    requires d < 10
    ensures IsDigit(c) && DigitValue(c) == d
  {
    ('0' as int + d) as char
  }

  /** The value of a run of decimal digits; leading zeros do not change it. */
  function DecimalValue(s: string): nat
    requires forall k :: 0 <= k < |s| ==> IsDigit(s[k])
  {
    if |s| == 0 then 0 else 10 * DecimalValue(s[..|s| - 1]) + DigitValue(s[|s| - 1])
  }

  /** `%d` of a non-negative integer: no sign and no leading zero. */
  function NatToDecimal(n: nat): (s: string)
    ensures IsDigitString(s)
    ensures |s| > 1 ==> s[0] != '0'
  {
    if n < 10 then [DigitChar(n)] else NatToDecimal(n / 10) + [DigitChar(n % 10)]
  }

  /** `%d` of any Go int. */
  function IntToDecimal(n: int): (s: string)
    ensures |s| >= 1
    ensures n >= 0 ==> IsDigitString(s)
    ensures n < 0 ==> s[0] == '-'
  {
    if n < 0 then "-" + NatToDecimal(-n) else NatToDecimal(n)
  }

  lemma {:induction false} DecimalRoundTrip(n: nat)
    ensures DecimalValue(NatToDecimal(n)) == n
  {
    if n >= 10 {
      var s := NatToDecimal(n);
      assert s[..|s| - 1] == NatToDecimal(n / 10);
      DecimalRoundTrip(n / 10);
    }
  }

  lemma {:induction false} LeadingZeroIgnored(d: string)
    requires forall k :: 0 <= k < |d| ==> IsDigit(d[k])
    ensures DecimalValue("0" + d) == DecimalValue(d)
  {
    if |d| > 0 {
      assert ("0" + d)[..|"0" + d| - 1] == "0" + d[..|d| - 1];
      LeadingZeroIgnored(d[..|d| - 1]);
    }
  }

  // ---------------------------------------------------------------------------
  // The regular expression, character by character

  function SpanDigits(s: string): (n: nat)
    ensures n <= |s|
    ensures forall k :: 0 <= k < n ==> IsDigit(s[k])
    ensures n < |s| ==> !IsDigit(s[n])
  {
    if |s| == 0 || !IsDigit(s[0]) then 0 else 1 + SpanDigits(s[1..])
  }

  function SpanIdent(s: string): (n: nat)
    ensures n <= |s|
    ensures forall k :: 0 <= k < n ==> IsIdentChar(s[k])
    ensures n < |s| ==> !IsIdentChar(s[n])
  {
    if |s| == 0 || !IsIdentChar(s[0]) then 0 else 1 + SpanIdent(s[1..])
  }

  /** `([0-9]+)` followed by the separator `sep`: the number and the text after `sep`. */
  function NumberThen(u: string, sep: char): Option<(nat, string)>
  {
    var n := SpanDigits(u);
    if n == 0 || n >= |u| || u[n] != sep then None
    else Some((DecimalValue(u[..n]), u[n + 1..]))
  }

  /** `([0-9]+)` with nothing required after it. */
  function NumberPrefix(u: string): Option<(nat, string)>
  {
    var n := SpanDigits(u);
    if n == 0 then None else Some((DecimalValue(u[..n]), u[n..]))
  }

  /** `(?:-(pre))?(?:\+(build))?$`: the pre-release and build, "" when absent. */
  function MatchSuffix(rest: string): (r: Option<(string, string)>)
    ensures r.Some? ==> (r.value.0 == "" || IsIdentString(r.value.0))
    ensures r.Some? ==> (r.value.1 == "" || IsIdentString(r.value.1))
  {
    if rest == "" then Some(("", ""))
    else if rest[0] == '-' then
      var body := rest[1..];
      var k := SpanIdent(body);
      if k == 0 then None
      else if k == |body| then Some((body, ""))
      else if body[k] == '+' && IsIdentString(body[k + 1..]) then Some((body[..k], body[k + 1..]))
      else None
    else if rest[0] == '+' && IsIdentString(rest[1..]) then Some(("", rest[1..]))
    else None
  }

  /** The optional leading `v` of the regular expression. */
  function StripV(t: string): (u: string)
    ensures |t| > 0 && t[0] == 'v' ==> u == t[1..]
    ensures (|t| == 0 || t[0] != 'v') ==> u == t
  {
    if |t| > 0 && t[0] == 'v' then t[1..] else t
  }

  /** The whole regular expression on an already trimmed string. */
  function MatchSemver(t: string): Option<Version>
  {
    MatchMajor(StripV(t))
  }

  function MatchMajor(u: string): Option<Version>
  {
    match NumberThen(u, '.')
    case None => None
    case Some(p) => MatchMinor(p.0, p.1)
  }

  function MatchMinor(major: nat, u: string): Option<Version>
  {
    match NumberThen(u, '.')
    case None => None
    case Some(p) => MatchPatch(major, p.0, p.1)
  }

  function MatchPatch(major: nat, minor: nat, u: string): Option<Version>
  {
    match NumberPrefix(u)
    case None => None
    case Some(p) =>
      match MatchSuffix(p.1)
      case None => None
      case Some(sfx) => Some(Version(major, minor, p.0, sfx.0, sfx.1))
  }

  /** The versions `Parse` can produce and `String` prints back unchanged. */
  predicate WellFormed(v: Version) {
    && v.major >= 0 && v.minor >= 0 && v.patch >= 0
    && (v.preRelease == "" || IsIdentString(v.preRelease))
    && (v.build == "" || IsIdentString(v.build))
  }

  /** `semver.Parse`. */
  function Parse(s: string): (r: Result<Version, ParseError>)
    ensures r == Err(EmptyVersion) <==> AllSpace(s)
    ensures r.Ok? ==> WellFormed(r.value)
    ensures r.Err? && !AllSpace(s) ==> r.error == InvalidSemver(TrimSpace(s))
  {
    var t := TrimSpace(s);
    if t == "" then Err(EmptyVersion)
    else match MatchSemver(t)
      case Some(v) => Ok(v)
      case None => Err(InvalidSemver(t))
  }

  /** `(*Version).String`: no leading `v`, suffixes only when non-empty. */
  function ToString(v: Version): (r: string)
    ensures |r| > 0 && r[0] != 'v'
    ensures v.major >= 0 ==> IsDigit(r[0])
  {
    Layout(IntToDecimal(v.major), IntToDecimal(v.minor), IntToDecimal(v.patch), Suffix(v.preRelease, v.build))
  }

  /** MAJOR.MINOR.PATCH followed by the suffix. */
  function Layout(major: string, minor: string, patch: string, suffix: string): string {
    major + ("." + (minor + ("." + (patch + suffix))))
  }

  function Suffix(pre: string, build: string): string {
    (if pre != "" then "-" + pre else "") + (if build != "" then "+" + build else "")
  }

  predicate IsDraft(v: Version) {
    v.preRelease != ""
  }

  function IncrementPatch(v: Version): (r: Version)
    ensures !IsDraft(r) && r.build == ""
    ensures r.major == v.major && r.minor == v.minor && r.patch == v.patch + 1
  {
    v.(patch := v.patch + 1, preRelease := "", build := "")
  }

  function IncrementMinor(v: Version): (r: Version)
    ensures !IsDraft(r) && r.build == ""
    ensures r.major == v.major && r.minor == v.minor + 1 && r.patch == 0
  {
    v.(minor := v.minor + 1, patch := 0, preRelease := "", build := "")
  }

  function IncrementMajor(v: Version): (r: Version)
    ensures !IsDraft(r) && r.build == ""
    ensures r.major == v.major + 1 && r.minor == 0 && r.patch == 0
  {
    v.(major := v.major + 1, minor := 0, patch := 0, preRelease := "", build := "")
  }

  function ReleaseDraft(v: Version): (r: Version)
    ensures !IsDraft(r)
    ensures r.major == v.major && r.minor == v.minor && r.patch == v.patch && r.build == v.build
  {
    v.(preRelease := "")
  }

  function InitialVersion(): string {
    "0.1.0"
  }

  // ---------------------------------------------------------------------------
  // Precedence of the MAJOR.MINOR.PATCH core (section 11 of Semantic Versioning 2.0.0)

  predicate CoreLess(a: Version, b: Version) {
    || a.major < b.major
    || (a.major == b.major && a.minor < b.minor)
    || (a.major == b.major && a.minor == b.minor && a.patch < b.patch)
  }

  predicate SameCore(a: Version, b: Version) {
    a.major == b.major && a.minor == b.minor && a.patch == b.patch
  }

  // ---------------------------------------------------------------------------
  // Properties

  lemma {:induction false} SpanDigitsOf(d: string, rest: string)
    requires forall k :: 0 <= k < |d| ==> IsDigit(d[k])
    requires rest == [] || !IsDigit(rest[0])
    ensures SpanDigits(d + rest) == |d|
  {
    if |d| > 0 {
      assert (d + rest)[1..] == d[1..] + rest;
      SpanDigitsOf(d[1..], rest);
    }
  }

  lemma {:induction false} SpanIdentOf(p: string, rest: string)
    requires forall k :: 0 <= k < |p| ==> IsIdentChar(p[k])
    requires rest == [] || !IsIdentChar(rest[0])
    ensures SpanIdent(p + rest) == |p|
  {
    if |p| > 0 {
      assert (p + rest)[1..] == p[1..] + rest;
      SpanIdentOf(p[1..], rest);
    }
  }

  lemma NumberThenOf(d: string, sep: char, rest: string)
    requires IsDigitString(d) && !IsDigit(sep)
    ensures NumberThen(d + ([sep] + rest), sep) == Some((DecimalValue(d), rest))
  {
    var u := d + ([sep] + rest);
    SpanDigitsOf(d, [sep] + rest);
    assert u[..|d|] == d;
    assert u[|d| + 1..] == rest;
  }

  lemma MatchSuffixOf(pre: string, build: string)
    requires pre == "" || IsIdentString(pre)
    requires build == "" || IsIdentString(build)
    ensures MatchSuffix(Suffix(pre, build)) == Some((pre, build))
  {
    var rest := Suffix(pre, build);
    if pre != "" {
      var body := rest[1..];
      if build == "" {
        assert rest == "-" + pre;
        assert body == pre;
        assert pre == pre + "";
        SpanIdentOf(pre, "");
      } else {
        assert body == pre + ("+" + build);
        SpanIdentOf(pre, "+" + build);
        assert body[..|pre|] == pre;
        assert body[|pre| + 1..] == build;
      }
    } else if build != "" {
      assert rest[1..] == build;
    }
  }

  lemma MatchPatchOf(major: nat, minor: nat, d3: string, pre: string, build: string)
    requires IsDigitString(d3)
    requires pre == "" || IsIdentString(pre)
    requires build == "" || IsIdentString(build)
    ensures MatchPatch(major, minor, d3 + Suffix(pre, build))
         == Some(Version(major, minor, DecimalValue(d3), pre, build))
  {
    var sfx := Suffix(pre, build);
    var u := d3 + sfx;
    SpanDigitsOf(d3, sfx);
    assert u[..|d3|] == d3;
    assert u[|d3|..] == sfx;
    MatchSuffixOf(pre, build);
  }

  /** The regular expression accepts any three digit runs followed by a
      well-formed suffix, whatever leading zeros the runs carry. */
  lemma MatchSemverOf(d1: string, d2: string, d3: string, pre: string, build: string)
    requires IsDigitString(d1) && IsDigitString(d2) && IsDigitString(d3)
    requires pre == "" || IsIdentString(pre)
    requires build == "" || IsIdentString(build)
    ensures MatchSemver(Layout(d1, d2, d3, Suffix(pre, build)))
         == Some(Version(DecimalValue(d1), DecimalValue(d2), DecimalValue(d3), pre, build))
  {
    var sfx := Suffix(pre, build);
    var r3 := d3 + sfx;
    var r2 := d2 + ("." + r3);
    var t := d1 + ("." + r2);
    assert t == Layout(d1, d2, d3, sfx);
    assert t[0] == d1[0];
    assert StripV(t) == t;
    NumberThenOf(d1, '.', r2);
    NumberThenOf(d2, '.', r3);
    MatchPatchOf(DecimalValue(d1), DecimalValue(d2), d3, pre, build);
  }

  lemma ToStringShape(v: Version)
    requires WellFormed(v)
    ensures ToString(v) == Layout(NatToDecimal(v.major), NatToDecimal(v.minor),
                                  NatToDecimal(v.patch), Suffix(v.preRelease, v.build))
    ensures !IsSpace(ToString(v)[|ToString(v)| - 1])
  {
    var d3 := NatToDecimal(v.patch);
    var sfx := Suffix(v.preRelease, v.build);
    var t := d3 + sfx;
    var s := ToString(v);
    assert s == NatToDecimal(v.major) + ("." + (NatToDecimal(v.minor) + ("." + t)));
    assert s[|s| - 1] == t[|t| - 1];
    if sfx == [] {
      assert t[|t| - 1] == d3[|d3| - 1];
    } else {
      assert t[|t| - 1] == sfx[|sfx| - 1];
      if v.build != "" {
        var b := "+" + v.build;
        assert sfx == (if v.preRelease != "" then "-" + v.preRelease else "") + b;
        assert sfx[|sfx| - 1] == b[|b| - 1] == v.build[|v.build| - 1];
      } else {
        var p := "-" + v.preRelease;
        assert sfx == p + "";
        assert sfx[|sfx| - 1] == p[|p| - 1] == v.preRelease[|v.preRelease| - 1];
      }
    }
  }

  /** On a string with no surrounding white space, Parse is the regular expression. */
  lemma ParseTrimmed(s: string, v: Version)
    requires s != [] && !IsSpace(s[0]) && !IsSpace(s[|s| - 1])
    requires MatchSemver(s) == Some(v)
    ensures Parse(s) == Ok(v)
  {
    assert TrimSpace(s) == s;
  }

  /** The digits String prints for a well-formed version, and their values. */
  lemma PrintedDigits(v: Version)
    requires WellFormed(v)
    ensures MatchSemver(Layout(NatToDecimal(v.major), NatToDecimal(v.minor),
                               NatToDecimal(v.patch), Suffix(v.preRelease, v.build))) == Some(v)
  {
    DecimalRoundTrip(v.major);
    DecimalRoundTrip(v.minor);
    DecimalRoundTrip(v.patch);
    MatchSemverOf(NatToDecimal(v.major), NatToDecimal(v.minor), NatToDecimal(v.patch), v.preRelease, v.build);
  }

  /** What String prints for a well-formed version matches the regular
      expression and yields the version back. */
  lemma PrintedMatches(v: Version)
    requires WellFormed(v)
    ensures MatchSemver(ToString(v)) == Some(v)
    ensures IsDigit(ToString(v)[0]) && !IsSpace(ToString(v)[0]) && !IsSpace(ToString(v)[|ToString(v)| - 1])
  {
    ToStringShape(v);
    PrintedDigits(v);
  }

  /** Parse(String(v)) == v for every version Parse can produce. */
  lemma ParseRoundTrip(v: Version)
    requires WellFormed(v)
    ensures Parse(ToString(v)) == Ok(v)
  {
    PrintedMatches(v);
    ParseTrimmed(ToString(v), v);
  }

  /** String(Parse(s)) is a fixed point: printing normalises once and for all. */
  lemma PrintParseIdempotent(s: string)
    requires Parse(s).Ok?
    ensures Parse(ToString(Parse(s).value)) == Parse(s)
  {
    ParseRoundTrip(Parse(s).value);
  }

  lemma MatchSkipsV(p: string)
    requires p != [] && p[0] != 'v'
    ensures MatchSemver("v" + p) == MatchSemver(p)
  {
    assert StripV("v" + p) == p;
  }

  /** Prefixing `v` to a string the regular expression accepts changes nothing. */
  lemma ParsePrefixedV(p: string, v: Version)
    requires p != [] && IsDigit(p[0]) && !IsSpace(p[|p| - 1])
    requires MatchSemver(p) == Some(v)
    ensures Parse("v" + p) == Ok(v)
  {
    MatchSkipsV(p);
    var s := "v" + p;
    assert s[|s| - 1] == p[|p| - 1];
    ParseTrimmed(s, v);
  }

  /** A leading `v` is accepted and dropped; String never puts it back. */
  lemma ParseAcceptsVPrefix(v: Version)
    requires WellFormed(v)
    ensures Parse("v" + ToString(v)) == Ok(v)
    ensures ToString(v)[0] != 'v'
  {
    PrintedMatches(v);
    ParsePrefixedV(ToString(v), v);
  }

  lemma ZeroLayout(d1: string, d2: string, d3: string, sfx: string)
    ensures "0" + Layout(d1, d2, d3, sfx) == Layout("0" + d1, d2, d3, sfx)
  {
    var rest := "." + (d2 + ("." + (d3 + sfx)));
    assert "0" + (d1 + rest) == ("0" + d1) + rest;
  }

  lemma ZeroMatches(d1: string, d2: string, d3: string, pre: string, build: string)
    requires IsDigitString(d1) && IsDigitString(d2) && IsDigitString(d3)
    requires pre == "" || IsIdentString(pre)
    requires build == "" || IsIdentString(build)
    ensures MatchSemver("0" + Layout(d1, d2, d3, Suffix(pre, build)))
         == Some(Version(DecimalValue(d1), DecimalValue(d2), DecimalValue(d3), pre, build))
  {
    ZeroLayout(d1, d2, d3, Suffix(pre, build));
    LeadingZeroIgnored(d1);
    MatchSemverOf("0" + d1, d2, d3, pre, build);
  }

  lemma ZeroPrefixMatches(v: Version)
    requires WellFormed(v)
    ensures MatchSemver("0" + ToString(v)) == Some(v)
  {
    ToStringShape(v);
    DecimalRoundTrip(v.major);
    DecimalRoundTrip(v.minor);
    DecimalRoundTrip(v.patch);
    ZeroMatches(NatToDecimal(v.major), NatToDecimal(v.minor), NatToDecimal(v.patch), v.preRelease, v.build);
  }

  lemma ParsePrefixedZero(p: string, v: Version)
    requires p != [] && !IsSpace(p[|p| - 1])
    requires MatchSemver("0" + p) == Some(v)
    ensures Parse("0" + p) == Ok(v)
  {
    var s := "0" + p;
    assert s[|s| - 1] == p[|p| - 1];
    ParseTrimmed(s, v);
  }

  /** A leading zero on MAJOR is accepted and normalised away, although
      section 2 of Semantic Versioning 2.0.0 forbids it. */
  lemma ParseAcceptsLeadingZero(v: Version)
    requires WellFormed(v)
    ensures Parse("0" + ToString(v)) == Ok(v)
  {
    PrintedMatches(v);
    ZeroPrefixMatches(v);
    ParsePrefixedZero(ToString(v), v);
  }

  lemma {:induction false} TrimStartPadded(p: string, s: string)
    requires AllSpace(p)
    requires s != [] && !IsSpace(s[0])
    ensures TrimStart(p + s) == |p|
  {
    if |p| > 0 {
      assert (p + s)[1..] == p[1..] + s;
      TrimStartPadded(p[1..], s);
    }
  }

  lemma {:induction false} TrimEndPadded(s: string, q: string)
    requires AllSpace(q)
    requires s != [] && !IsSpace(s[|s| - 1])
    ensures TrimEnd(s + q) == |s|
  {
    if |q| > 0 {
      assert (s + q)[..|s + q| - 1] == s + q[..|q| - 1];
      TrimEndPadded(s, q[..|q| - 1]);
    }
  }

  /** Surrounding white space is ignored. */
  lemma ParseIgnoresSurroundingSpace(p: string, s: string, q: string)
    requires AllSpace(p) && AllSpace(q)
    requires s != [] && !IsSpace(s[0]) && !IsSpace(s[|s| - 1])
    ensures Parse(p + s + q) == Parse(s)
  {
    var x := p + s + q;
    assert x == p + (s + q);
    TrimStartPadded(p, s + q);
    assert x[|p|..] == s + q;
    TrimEndPadded(s, q);
    assert (s + q)[..|s|] == s;
    assert TrimSpace(x) == s;
  }

  lemma SmallDecimal(n: nat)
    requires n < 10
    ensures IntToDecimal(n) == [DigitChar(n)]
  {
  }

  lemma ExamplePrinted(v: Version, s: string)
    requires v == Version(1, 2, 3, "alpha", "001") && s == "v1.2.3-alpha+001"
    ensures WellFormed(v) && "v" + ToString(v) == s && ToString(v) == s[1..]
  {
    assert IsIdentString("alpha");
    assert IsIdentString("001");
    SmallDecimal(1);
    SmallDecimal(2);
    SmallDecimal(3);
    assert Suffix("alpha", "001") == "-alpha+001";
  }

  /** The source's own test vector: "v1.2.3-alpha+001" parses to 1, 2, 3,
      "alpha", "001" and prints back without the `v`. */
  lemma ParseExample(s: string)
    requires s == "v1.2.3-alpha+001"
    ensures Parse(s) == Ok(Version(1, 2, 3, "alpha", "001"))
    ensures ToString(Parse(s).value) == s[1..]
  {
    var v := Version(1, 2, 3, "alpha", "001");
    ExamplePrinted(v, s);
    ParseAcceptsVPrefix(v);
  }

  lemma EmptyIdentifierPrinted(s: string)
    requires s == "1.0.0-a..b"
    ensures ToString(Version(1, 0, 0, "a..b", "")) == s
  {
    SmallDecimal(0);
    SmallDecimal(1);
    assert Suffix("a..b", "") == "-a..b";
  }

  /** An empty pre-release identifier ("a..b") passes, although section 9 of
      Semantic Versioning 2.0.0 forbids it. */
  lemma ParseAcceptsEmptyIdentifier(s: string)
    requires s == "1.0.0-a..b"
    ensures Parse(s) == Ok(Version(1, 0, 0, "a..b", ""))
  {
    var v := Version(1, 0, 0, "a..b", "");
    assert IsIdentString("a..b");
    EmptyIdentifierPrinted(s);
    ParseRoundTrip(v);
  }

  /** "01.2.3" passes and means 1.2.3, although section 2 of Semantic
      Versioning 2.0.0 forbids leading zeros. */
  lemma ParseLeadingZeroExample(s: string)
    requires s == "01.2.3"
    ensures Parse(s) == Ok(Version(1, 2, 3, "", ""))
  {
    var w := Version(1, 2, 3, "", "");
    PlainPrinted(w, "1.2.3");
    ParseAcceptsLeadingZero(w);
  }

  lemma PlainPrinted(w: Version, s: string)
    requires w == Version(1, 2, 3, "", "") && s == "1.2.3"
    ensures ToString(w) == s && "0" + s == "01.2.3"
  {
    SmallDecimal(1);
    SmallDecimal(2);
    SmallDecimal(3);
    assert Suffix("", "") == "";
  }

  /** A string that does not have the three dot-separated numbers is refused. */
  lemma ParseRejectsMissingPatch()
    ensures Parse("1.2").Err?
  {
    assert TrimSpace("1.2") == "1.2";
    assert SpanDigits("1.2") == 1;
    assert "1.2"[2..] == "2";
    assert SpanDigits("2") == 1;
  }

  lemma InitialPrinted(v: Version, s: string)
    requires v == Version(0, 1, 0, "", "") && s == "0.1.0"
    ensures ToString(v) == s
  {
    SmallDecimal(0);
    SmallDecimal(1);
    assert Suffix("", "") == "";
  }

  lemma InitialDraftPrinted(v: Version, s: string)
    requires v == Version(0, 1, 0, "1", "") && s == "0.1.0-1"
    ensures WellFormed(v) && ToString(v) == s
  {
    assert IsIdentString("1");
    SmallDecimal(0);
    SmallDecimal(1);
    assert Suffix("1", "") == "-1";
  }

  /** InitialVersion parses to 0.1.0, which is not a draft. */
  lemma InitialVersionParses(s: string)
    requires s == InitialVersion()
    ensures Parse(s) == Ok(Version(0, 1, 0, "", ""))
    ensures !IsDraft(Parse(s).value)
  {
    var v := Version(0, 1, 0, "", "");
    InitialPrinted(v, s);
    ParseRoundTrip(v);
  }

  /** Each increment moves the version strictly forward; releasing a draft
      keeps its MAJOR.MINOR.PATCH; all four keep a printable version printable. */
  lemma BumpsAdvance(v: Version)
    requires WellFormed(v)
    ensures CoreLess(v, IncrementPatch(v)) && WellFormed(IncrementPatch(v))
    ensures CoreLess(v, IncrementMinor(v)) && WellFormed(IncrementMinor(v))
    ensures CoreLess(v, IncrementMajor(v)) && WellFormed(IncrementMajor(v))
    ensures SameCore(v, ReleaseDraft(v)) && WellFormed(ReleaseDraft(v))
    ensures Parse(ToString(ReleaseDraft(v))) == Ok(v.(preRelease := ""))
  {
    ParseRoundTrip(ReleaseDraft(v));
  }
}
