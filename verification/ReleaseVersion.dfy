/**
 The release counter: three decimal components of at most 99 each, counted like an odometer
 (tools/release_version.py:10-31).
 */
module ReleaseVersion {
  import opened Wrappers
  import opened Strings

  const MAX_COMPONENT := 99

  datatype Version = Version(major: nat, minor: nat, patch: nat)

  datatype ParseError = Malformed | TooLarge

  predicate IsDigit(c: char) {
    '0' <= c <= '9'
  }

  /** 0|[1-9]\d* over ASCII digits. */
  predicate IsNumeral(s: string) {
    s != "" && (forall i | 0 <= i < |s| :: IsDigit(s[i])) && (s[0] == '0' ==> s == "0")
  }

  function DigitValue(c: char): nat
    requires IsDigit(c)
  {
    c as int - '0' as int
  }

  /** int() of a numeral. */
  function ToNat(s: string): nat
    requires forall i | 0 <= i < |s| :: IsDigit(s[i])
  {
    if s == "" then 0 else ToNat(s[..|s| - 1]) * 10 + DigitValue(s[|s| - 1])
  }

  /** The parts of s between its dots. */
  function Split(s: string): (parts: seq<string>)
    ensures parts != []
    decreases |s|
  {
    if '.' !in s then [s] else [s[..Find(s, '.')]] + Split(s[Find(s, '.') + 1..])
  }

  function Parse(version: string): Result<Version, ParseError> {
    var parts := Split(Strip(version));
    if |parts| != 3 || !IsNumeral(parts[0]) || !IsNumeral(parts[1]) || !IsNumeral(parts[2]) then Err(Malformed)
    else
      var v := Version(ToNat(parts[0]), ToNat(parts[1]), ToNat(parts[2]));
      if v.major > MAX_COMPONENT || v.minor > MAX_COMPONENT || v.patch > MAX_COMPONENT then Err(TooLarge) else Ok(v)
  }

  function Digit(d: nat): char
    requires d < 10
  {
    ('0' as int + d) as char
  }

  function Decimal(n: nat): string {
    if n < 10 then [Digit(n)] else Decimal(n / 10) + [Digit(n % 10)]
  }

  function Show(v: Version): string {
    Decimal(v.major) + ['.'] + (Decimal(v.minor) + ['.'] + Decimal(v.patch))
  }

  function Next(v: Version): Version {
    if v.patch < MAX_COMPONENT then v.(patch := v.patch + 1)
    else if v.minor < MAX_COMPONENT then Version(v.major, v.minor + 1, 0)
    else Version(v.major + 1, 0, 0)
  }

  /** next_version */
  function NextVersion(version: string): Result<string, ParseError> {
    match Parse(version)
    case Ok(v) => Ok(Show(Next(v)))
    case Err(e) => Err(e)
  }

  // ---------------------------------------------------------------- printing and parsing

  lemma {:induction false} DecimalBack(n: nat)
    ensures IsNumeral(Decimal(n)) && ToNat(Decimal(n)) == n
    ensures n > 0 ==> Decimal(n)[0] != '0'
  {
    if n < 10 {
      assert [Digit(n)][..0] == "";
    } else {
      DecimalBack(n / 10);
      assert Decimal(n)[..|Decimal(n)| - 1] == Decimal(n / 10);
    }
  }

  lemma {:induction false} NumeralBack(s: string)
    requires IsNumeral(s)
    ensures Decimal(ToNat(s)) == s
  {
    if |s| == 1 {
      assert s[..0] == "";
    } else {
      var front, d := s[..|s| - 1], DigitValue(s[|s| - 1]);
      NumeralBack(front);
      NotZero(front);
      assert ToNat(s) / 10 == ToNat(front) && ToNat(s) % 10 == d;
    }
  }

  lemma {:induction false} NotZero(s: string)
    requires IsNumeral(s) && s[0] != '0'
    ensures ToNat(s) > 0
  {
    if |s| == 1 {
      assert s[..0] == "";
    } else {
      NotZero(s[..|s| - 1]);
    }
  }

  lemma SplitDot(a: string, b: string)
    requires '.' !in a
    ensures Split(a + ['.'] + b) == [a] + Split(b)
  {
    var s := a + ['.'] + b;
    assert s[|a|] == '.' && s[..|a|] == a && s[|a| + 1..] == b;
    FindAfter(a, '.', b);
  }

  lemma NumeralPlain(s: string)
    requires IsNumeral(s)
    ensures '.' !in s && !IsSpace(s[0]) && !IsSpace(s[|s| - 1])
  {
    assert IsDigit(s[0]) && IsDigit(s[|s| - 1]);
  }

  ghost predicate Accepted(v: Version) {
    v.major <= MAX_COMPONENT && v.minor <= MAX_COMPONENT && v.patch <= MAX_COMPONENT
  }

  lemma SplitThree(a: string, b: string, c: string)
    requires '.' !in a && '.' !in b && '.' !in c
    ensures Split(a + ['.'] + (b + ['.'] + c)) == [a, b, c]
  {
    SplitDot(a, b + ['.'] + c);
    SplitDot(b, c);
    assert Split(c) == [c];
  }

  lemma EdgesTrimmed(a: string, mid: string, c: string)
    requires a != "" && c != "" && !IsSpace(a[0]) && !IsSpace(c[|c| - 1])
    ensures Trimmed(a + mid + c)
  {
    var s := a + mid + c;
    assert s[0] == a[0] && s[|s| - 1] == c[|c| - 1];
  }

  lemma ThreeTrimmed(a: string, b: string, c: string)
    requires IsNumeral(a) && IsNumeral(c)
    ensures Trimmed(a + ['.'] + (b + ['.'] + c))
  {
    NumeralPlain(a);
    NumeralPlain(c);
    EdgesTrimmed(a, ['.'] + b + ['.'], c);
    assert a + ['.'] + (b + ['.'] + c) == a + (['.'] + b + ['.']) + c;
  }

  lemma ThreeParts(a: string, b: string, c: string)
    requires IsNumeral(a) && IsNumeral(b) && IsNumeral(c)
    ensures Split(Strip(a + ['.'] + (b + ['.'] + c))) == [a, b, c]
  {
    NumeralPlain(a);
    NumeralPlain(b);
    NumeralPlain(c);
    SplitThree(a, b, c);
    ThreeTrimmed(a, b, c);
  }

  /** Parsing what is printed gives the version back, if its components are in range. */
  lemma ParseShow(v: Version)
    ensures Parse(Show(v)) == if Accepted(v) then Ok(v) else Err(TooLarge)
  {
    DecimalBack(v.major);
    DecimalBack(v.minor);
    DecimalBack(v.patch);
    ThreeParts(Decimal(v.major), Decimal(v.minor), Decimal(v.patch));
  }

  /** The parts of s with dots between them. */
  function Join(parts: seq<string>): string
    requires parts != []
  {
    if |parts| == 1 then parts[0] else parts[0] + ['.'] + Join(parts[1..])
  }

  lemma {:induction false} JoinSplit(s: string)
    ensures Join(Split(s)) == s
    decreases |s|
  {
    if '.' in s {
      var i := Find(s, '.');
      JoinSplit(s[i + 1..]);
      assert s == s[..i] + ['.'] + s[i + 1..];
    }
  }

  /** Printing what was parsed gives the text back, without the space around it. */
  lemma ShowParse(version: string)
    requires Parse(version).Ok?
    ensures Show(Parse(version).value) == Strip(version) && Accepted(Parse(version).value)
  {
    PartsBack(Strip(version), Split(Strip(version)));
  }

  /** The texts of a version: it as printed, with white space around it. */
  lemma ParseExact(text: string, v: Version)
    ensures Parse(text) == Ok(v) <==> Strip(text) == Show(v) && Accepted(v)
    ensures Strip(text) == Show(v) && !Accepted(v) ==> Parse(text) == Err(TooLarge)
  {
    if Parse(text) == Ok(v) { ShowParse(text); }
    if Strip(text) == Show(v) { ParseShow(v); }
  }

  lemma TooLargeExact(text: string)
    ensures Parse(text) == Err(TooLarge) <==> exists v :: Strip(text) == Show(v) && !Accepted(v)
  {
    if Parse(text) == Err(TooLarge) {
      var parts := Split(Strip(text));
      var v := Version(ToNat(parts[0]), ToNat(parts[1]), ToNat(parts[2]));
      PartsBack(Strip(text), parts);
      assert Strip(text) == Show(v) && !Accepted(v);
    }
    if v :| Strip(text) == Show(v) && !Accepted(v) { ParseExact(text, v); }
  }

  lemma PartsBack(s: string, parts: seq<string>)
    requires parts == Split(s) && |parts| == 3 && IsNumeral(parts[0]) && IsNumeral(parts[1]) && IsNumeral(parts[2])
    ensures Show(Version(ToNat(parts[0]), ToNat(parts[1]), ToNat(parts[2]))) == s
  {
    JoinSplit(s);
    NumeralBack(parts[0]);
    NumeralBack(parts[1]);
    NumeralBack(parts[2]);
    assert Join(parts[1..]) == parts[1] + ['.'] + Join(parts[1..][1..]);
    assert parts[1..][1..] == [parts[2]];
  }

  /** White space around a version is ignored, by the parser and by the counter. */
  lemma Surrounded(before: string, v: Version, after: string)
    requires AllSpace(before) && AllSpace(after) && Accepted(v)
    ensures Parse(before + Show(v) + after) == Ok(v)
    ensures NextVersion(before + Show(v) + after) == Ok(Show(Next(v)))
  {
    StripPadded(before, Show(v), after);
    ParseShow(v);
    ParseExact(before + Show(v) + after, v);
    ParseExact(Show(v), v);
  }

  // ---------------------------------------------------------------- counting

  /** The place of a version in the count. */
  function Rank(v: Version): nat {
    10000 * v.major + 100 * v.minor + v.patch
  }

  predicate Less(v: Version, w: Version) {
    v.major < w.major || (v.major == w.major && (v.minor < w.minor || (v.minor == w.minor && v.patch < w.patch)))
  }

  /** Counting agrees with comparing component by component, so no two versions share a place. */
  lemma RankOrders(v: Version, w: Version)
    requires Accepted(v) && Accepted(w)
    ensures Less(v, w) <==> Rank(v) < Rank(w)
    ensures Rank(v) == Rank(w) ==> v == w
  {
    if v.major < w.major { assert 10000 * v.major + 10000 <= 10000 * w.major; }
    if w.major < v.major { assert 10000 * w.major + 10000 <= 10000 * v.major; }
  }

  /** The next version is the one after, and it is accepted unless the version is 99.99.99, whose successor 100.0.0 is
      not. */
  lemma NextCounts(version: string)
    requires Parse(version).Ok?
    ensures var v, next := Parse(version).value, NextVersion(version);
              && next.Ok?
              && (v != Version(99, 99, 99) ==>
                 Parse(next.value).Ok? && Rank(Parse(next.value).value) == Rank(v) + 1
                 && Less(v, Parse(next.value).value))
              && (v == Version(99, 99, 99) ==> next.value == "100.0.0" && Parse(next.value) == Err(TooLarge))
  {
    var v := Parse(version).value;
    ShowParse(version);
    ParseShow(Next(v));
    if v == Version(99, 99, 99) { AfterLast(); }
  }

  lemma AfterLast()
    ensures Show(Next(Version(99, 99, 99))) == "100.0.0"
  {
    assert Decimal(100) == Decimal(10) + ['0'] && Decimal(10) == Decimal(1) + ['0'];
  }

  /** Calling `next` n times, each time on what the call before returned. */
  function Steps(next: string -> Result<string, ParseError>, version: string, n: nat): Result<string, ParseError> {
    if n == 0 then Ok(version)
    else
      var before := Steps(next, version, n - 1);
      if before.Err? then before else next(before.value)
  }

  /** The version at a given place of the count. */
  function At(n: nat): Version {
    Version(n / 100 / 100, n / 100 % 100, n % 100)
  }

  lemma AtRank(n: nat)
    ensures Rank(At(n)) == n
    ensures n < 1000000 ==> Accepted(At(n))
  {
    var q := n / 100;
    assert n == 100 * q + n % 100 && q == 100 * (q / 100) + q % 100;
  }

  function Previous(v: Version): Version
    requires v != Version(0, 0, 0)
  {
    if v.patch > 0 then v.(patch := v.patch - 1)
    else if v.minor > 0 then Version(v.major, v.minor - 1, MAX_COMPONENT)
    else Version(v.major - 1, MAX_COMPONENT, MAX_COMPONENT)
  }

  /** Counting up from the start passes every version at the step its rank says. */
  lemma {:induction false} CountTo(next: string -> Result<string, ParseError>, start: string, v: Version)
    requires forall u | Accepted(u) :: next(Show(u)) == Ok(Show(Next(u)))
    requires Accepted(v) && start == Show(Version(0, 0, 0))
    ensures Steps(next, start, Rank(v)) == Ok(Show(v))
    decreases Rank(v)
  {
    if v != Version(0, 0, 0) {
      var u := Previous(v);
      CountTo(next, start, u);
      assert Rank(v) == Rank(u) + 1;
    }
  }

  lemma Zero()
    ensures Show(Version(0, 0, 0)) == "0.0.0"
  {
    assert Decimal(0) == "0";
  }

  lemma OneStep(v: Version)
    requires Accepted(v)
    ensures NextVersion(Show(v)) == Ok(Show(Next(v)))
  {
    ParseShow(v);
  }

  lemma ShowOnce(v: Version, w: Version)
    requires Accepted(v) && Accepted(w) && Show(v) == Show(w)
    ensures v == w
  {
    ParseShow(v);
    ParseShow(w);
  }

  /** One step past the last version the counter prints a text that is no version, and after that it stays at an
      error. */
  lemma {:induction false} Past(next: string -> Result<string, ParseError>, start: string, stop: string, n: nat)
    requires forall u | Accepted(u) :: next(Show(u)) == Ok(Show(Next(u)))
    requires start == Show(Version(0, 0, 0)) && stop == Show(Version(100, 0, 0)) && next(stop).Err? && n >= 1000000
    ensures n == 1000000 ==> Steps(next, start, n) == Ok(stop)
    ensures n > 1000000 ==> Steps(next, start, n).Err?
  {
    if n == 1000000 {
      CountTo(next, start, Version(99, 99, 99));
    } else {
      Past(next, start, stop, n - 1);
    }
  }

  /** Which texts counting from 0.0.0 passes, and when. */
  lemma StepsAt(n: nat)
    ensures n < 1000000 ==> Steps(NextVersion, "0.0.0", n) == Ok(Show(At(n)))
    ensures n == 1000000 ==> Steps(NextVersion, "0.0.0", n) == Ok(Show(Version(100, 0, 0)))
    ensures n > 1000000 ==> Steps(NextVersion, "0.0.0", n).Err?
  {
    Zero();
    AtRank(n);
    forall u | Accepted(u) ensures NextVersion(Show(u)) == Ok(Show(Next(u))) { OneStep(u); }
    if n < 1000000 {
      CountTo(NextVersion, "0.0.0", At(n));
    } else {
      ParseShow(Version(100, 0, 0));
      Past(NextVersion, "0.0.0", Show(Version(100, 0, 0)), n);
    }
  }

  /** Every accepted version is reached from 0.0.0 in exactly as many steps as its rank says. */
  lemma Reached(version: string, n: nat)
    requires Parse(version).Ok?
    ensures Steps(NextVersion, "0.0.0", n) == Ok(Strip(version)) <==> n == Rank(Parse(version).value)
  {
    var v := Parse(version).value;
    ShowParse(version);
    StepsAt(n);
    if n < 1000000 {
      AtRank(n);
      if n == Rank(v) { RankOrders(v, At(n)); }
      if Show(At(n)) == Show(v) { ShowOnce(v, At(n)); }
    } else {
      ParseShow(v);
      ParseShow(Version(100, 0, 0));
    }
  }
}
