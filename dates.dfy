/** The part of Python's `datetime.strptime` that the report parser relies
    on: numeric directives only. As in Python's `_strptime`, a format is a
    regular expression in which each directive is a list of alternatives
    tried in order (`%m` is `1[0-2]|0[1-9]|[1-9]`, and so on) and a blank is
    `\s+`; the first match of that expression is taken, text left over after
    it is an error ("unconverted data remains"), and so is a day that the
    month does not have or a second above 59. */
module Dates {
  import opened Strings

  datatype DateTime = DateTime(year: int, month: int, day: int, hour: int, minute: int, second: int)

  datatype Date = Date(year: int, month: int, day: int)

  predicate IsLeapYear(y: int) {
    y % 4 == 0 && (y % 100 != 0 || y % 400 == 0)
  }

  function DaysInMonth(y: int, m: int): int
    requires 1 <= m <= 12
  {
    if m == 2 then (if IsLeapYear(y) then 29 else 28)
    else if m == 4 || m == 6 || m == 9 || m == 11 then 30
    else 31
  }

  predicate ValidDate(year: int, month: int, day: int) {
    1 <= year <= 9999 && 1 <= month <= 12 && 1 <= day <= DaysInMonth(year, month)
  }

  predicate ValidDateTime(t: DateTime) {
    ValidDate(t.year, t.month, t.day) && 0 <= t.hour <= 23 && 0 <= t.minute <= 59 && 0 <= t.second <= 59
  }

  /** `datetime.combine(d, t.time())`. */
  function Combine(d: Date, t: DateTime): DateTime {
    DateTime(d.year, d.month, d.day, t.hour, t.minute, t.second)
  }

  /** `dt.date()`. */
  function DateOf(t: DateTime): Date {
    Date(t.year, t.month, t.day)
  }

  /** What a format is made of: `%m %d %Y %H %M %S`, a literal character, or
      a blank (which `_strptime` turns into `\s+`). */
  datatype Directive = Month | Day | Year | Hour | Minute | Second | Lit(c: char) | Blank

  /** "%m/%d/%Y" */
  const DateFormat: seq<Directive> := [Month, Lit('/'), Day, Lit('/'), Year]
  /** "%H%M" */
  const HourMinuteFormat: seq<Directive> := [Hour, Minute]
  /** "%H:%M:%S" */
  const ClockFormat: seq<Directive> := [Hour, Lit(':'), Minute, Lit(':'), Second]
  /** "%m/%d/%Y%H%M" */
  const ModifiedFormat: seq<Directive> := [Month, Lit('/'), Day, Lit('/'), Year, Hour, Minute]
  /** "%m/%d/%Y @ %H:%M:%S" */
  const StampFormat: seq<Directive> :=
    [Month, Lit('/'), Day, Lit('/'), Year, Blank, Lit('@'), Blank, Hour, Lit(':'), Minute, Lit(':'), Second]

  /** One character position of an alternative: a character range or `\s`. */
  datatype Cls = Range(lo: char, hi: char) | Space

  const Dig := Range('0', '9')

  predicate ClsHas(k: Cls, c: char) {
    match k
    case Range(lo, hi) => lo <= c <= hi
    case Space => IsSpace(c)
  }

  /** The alternatives of a directive at position `i` of `s`, in the order
      the regular expression tries them. A blank is a greedy `\s+`: the
      whole run of white space first, then one character less each time. */
  function Alternatives(d: Directive, s: string, i: nat): seq<seq<Cls>>
    requires i <= |s|
  {
    match d
    case Month => [[Range('1', '1'), Range('0', '2')], [Range('0', '0'), Range('1', '9')], [Range('1', '9')]]
    case Day => [[Range('3', '3'), Range('0', '1')], [Range('1', '2'), Dig], [Range('0', '0'), Range('1', '9')],
                 [Range('1', '9')], [Range(' ', ' '), Range('1', '9')]]
    case Year => [[Dig, Dig, Dig, Dig]]
    case Hour => [[Range('2', '2'), Range('0', '3')], [Range('0', '1'), Dig], [Dig]]
    case Minute => [[Range('0', '5'), Dig], [Dig]]
    case Second => [[Range('6', '6'), Range('0', '1')], [Range('0', '5'), Dig], [Dig]]
    case Lit(c) => [[Range(c, c)]]
    case Blank => SpaceRuns(RunEnd(s, i, IsSpace) - i)
  }

  function SpaceRuns(n: nat): (r: seq<seq<Cls>>)
    ensures |r| == n
    ensures forall j :: 0 <= j < n ==> r[j] == seq(n - j, _ => Space)
  {
    if n == 0 then [] else [seq(n, _ => Space)] + SpaceRuns(n - 1)
  }

  predicate PieceMatches(p: seq<Cls>, s: string, i: nat) {
    i + |p| <= |s| && forall k :: 0 <= k < |p| ==> ClsHas(p[k], s[i + k])
  }

  function DigitValue(c: char): nat {
    if IsDigit(c) then (c as int - '0' as int) else 0
  }

  /** `int(t)` for the digit groups a directive matches (the one blank a day
      may start with is ignored, as `int` ignores it). */
  function DigitsValue(t: string): nat
  {
    if t == [] then 0 else DigitsValue(t[..|t| - 1]) * 10 + DigitValue(t[|t| - 1])
  }

  function Assign(f: DateTime, d: Directive, v: int): DateTime {
    match d
    case Month => f.(month := v)
    case Day => f.(day := v)
    case Year => f.(year := v)
    case Hour => f.(hour := v)
    case Minute => f.(minute := v)
    case Second => f.(second := v)
    case _ => f
  }

  /** The fields a format sets before any directive is applied. */
  const Defaults := DateTime(1900, 1, 1, 0, 0, 0)

  /** The first match of the format's regular expression on `s` from `i`:
      the fields it sets and where the match ends. */
  function MatchFrom(fmt: seq<Directive>, s: string, i: nat): (r: Option<(DateTime, nat)>)
    requires i <= |s|
    ensures r.Some? ==> i <= r.value.1 <= |s|
    decreases |fmt|, 1
  {
    if fmt == [] then Some((Defaults, i))
    else TryAlternatives(fmt, s, i, Alternatives(fmt[0], s, i))
  }

  function TryAlternatives(fmt: seq<Directive>, s: string, i: nat, alts: seq<seq<Cls>>): (r: Option<(DateTime, nat)>)
    requires fmt != [] && i <= |s|
    ensures r.Some? ==> i <= r.value.1 <= |s|
    decreases |fmt|, 0, |alts|
  {
    if alts == [] then None
    else if PieceMatches(alts[0], s, i) then
      match MatchFrom(fmt[1..], s, i + |alts[0]|)
      case Some((f, e)) => Some((Assign(f, fmt[0], DigitsValue(s[i..i + |alts[0]|])), e))
      case None => TryAlternatives(fmt, s, i, alts[1..])
    else TryAlternatives(fmt, s, i, alts[1..])
  }

  /** `datetime.strptime(s, fmt)`, or `None` where it raises `ValueError`. */
  function Strptime(fmt: seq<Directive>, s: string): (r: Option<DateTime>)
    ensures r.Some? ==> ValidDateTime(r.value)
  {
    match MatchFrom(fmt, s, 0)
    case None => None
    case Some((f, e)) => if e == |s| && ValidDateTime(f) then Some(f) else None
  }

  // ---------------------------------------------------------------------
  // Zero-padded printing, and the round trips through Strptime.

  function DigitChar(d: nat): char
    requires d < 10
  {
    ('0' as int + d) as char
  }

  lemma DigitCharValue(d: nat)
    requires d < 10
    ensures IsDigit(DigitChar(d)) && DigitValue(DigitChar(d)) == d
  {
  }

  function Pad2(n: nat): (r: string)
    requires n < 100
    ensures |r| == 2 && AllDigits(r)
  {
    [DigitChar(n / 10), DigitChar(n % 10)]
  }

  /** The four digits of a year, most significant first. */
  function Pad4(n: nat): (r: string)
    requires n < 10000
    ensures |r| == 4 && AllDigits(r)
  {
    [DigitChar(n / 10 / 10 / 10), DigitChar(n / 10 / 10 % 10), DigitChar(n / 10 % 10), DigitChar(n % 10)]
  }

  lemma DigitsValueSnoc(t: string, c: char)
    ensures DigitsValue(t + [c]) == DigitsValue(t) * 10 + DigitValue(c)
  {
    assert (t + [c])[..|t|] == t;
  }

  lemma Pad2Value(n: nat)
    requires n < 100
    ensures DigitsValue(Pad2(n)) == n
  {
    var a, b := DigitChar(n / 10), DigitChar(n % 10);
    assert Pad2(n) == [] + [a] + [b];
    DigitsValueSnoc([], a);
    DigitsValueSnoc([a], b);
    DigitCharValue(n / 10);
    DigitCharValue(n % 10);
  }

  lemma Pad4Value(n: nat)
    requires n < 10000
    ensures DigitsValue(Pad4(n)) == n
  {
    var q1, q2 := n / 10, n / 10 / 10;
    var a, b, c, d := DigitChar(q2 / 10), DigitChar(q2 % 10), DigitChar(q1 % 10), DigitChar(n % 10);
    assert Pad4(n) == [] + [a] + [b] + [c] + [d];
    DigitsValueSnoc([], a);
    DigitsValueSnoc([a], b);
    DigitsValueSnoc([a, b], c);
    DigitsValueSnoc([a, b, c], d);
    DigitCharValue(q2 / 10);
    DigitCharValue(q2 % 10);
    DigitCharValue(q1 % 10);
    DigitCharValue(n % 10);
    assert [a] + [b] == [a, b];
    assert [a, b] + [c] == [a, b, c];
  }

  lemma FirstCharFails(p: seq<Cls>, s: string, i: nat)
    requires |p| >= 1 && i < |s| && !ClsHas(p[0], s[i])
    ensures !PieceMatches(p, s, i)
  {
    assert s[i + 0] == s[i];
  }

  lemma TwoCharsMatch(p: seq<Cls>, s: string, i: nat)
    requires |p| == 2 && i + 2 <= |s| && ClsHas(p[0], s[i]) && ClsHas(p[1], s[i + 1])
    ensures PieceMatches(p, s, i)
  {
  }

  /** The directive accepts `v` written with two digits. */
  predicate PaddedInRange(d: Directive, v: nat) {
    || (d == Month && 1 <= v <= 12)
    || (d == Day && 1 <= v <= 31)
    || (d == Hour && v <= 23)
    || (d == Minute && v <= 59)
    || (d == Second && v <= 59)
  }

  /** `v` written with two digits at position `j` of `s`. */
  predicate PaddedAt(s: string, j: nat, v: nat) {
    v < 100 && j + 2 <= |s| && s[j] == DigitChar(v / 10) && s[j + 1] == DigitChar(v % 10)
  }

  lemma Pad2At(s: string, j: nat, v: nat)
    requires v < 100 && j + 2 <= |s| && s[j..j + 2] == Pad2(v)
    ensures PaddedAt(s, j, v)
  {
    assert s[j] == s[j..j + 2][0] && s[j + 1] == s[j..j + 2][1];
  }

  /** The first alternative of the directive that matches a zero-padded
      value it accepts is a two-character one. */
  lemma FirstPaddedAlternative(d: Directive, s: string, i: nat, v: nat) returns (n: nat)
    requires PaddedInRange(d, v) && PaddedAt(s, i, v)
    ensures n < |Alternatives(d, s, i)| && |Alternatives(d, s, i)[n]| == 2
    ensures PieceMatches(Alternatives(d, s, i)[n], s, i)
    ensures forall j :: 0 <= j < n ==> !PieceMatches(Alternatives(d, s, i)[j], s, i)
  {
    var alts := Alternatives(d, s, i);
    DigitCharValue(v / 10);
    DigitCharValue(v % 10);
    // those before the first match fail on the first digit
    match d
    case Month =>
      if v >= 10 {
        n := 0;
      } else {
        n := 1;
        FirstCharFails(alts[0], s, i);
      }
    case Day =>
      if v >= 30 {
        n := 0;
      } else if v >= 10 {
        n := 1;
        FirstCharFails(alts[0], s, i);
      } else {
        n := 2;
        FirstCharFails(alts[0], s, i);
        FirstCharFails(alts[1], s, i);
      }
    case Hour =>
      if v >= 20 {
        n := 0;
      } else {
        n := 1;
        FirstCharFails(alts[0], s, i);
      }
    case Minute =>
      n := 0;
    case Second =>
      n := 1;
      FirstCharFails(alts[0], s, i);
    TwoCharsMatch(alts[n], s, i);
  }

  /** A zero-padded value the directive accepts is read as that value, and
      the match goes on two characters further. */
  lemma MatchPadded(fmt: seq<Directive>, s: string, i: nat, v: nat)
    requires fmt != [] && PaddedInRange(fmt[0], v) && PaddedAt(s, i, v)
    requires MatchFrom(fmt[1..], s, i + 2).Some?
    ensures MatchFrom(fmt, s, i)
            == Some((Assign(MatchFrom(fmt[1..], s, i + 2).value.0, fmt[0], v), MatchFrom(fmt[1..], s, i + 2).value.1))
  {
    assert s[i..i + 2] == Pad2(v);
    Pad2Value(v);
    var n := FirstPaddedAlternative(fmt[0], s, i, v);
    TryAlternativesSkips(fmt, s, i, Alternatives(fmt[0], s, i), n);
  }

  /** Alternatives that do not match are passed over. */
  lemma {:induction false} TryAlternativesSkips(fmt: seq<Directive>, s: string, i: nat, alts: seq<seq<Cls>>, n: nat)
    requires fmt != [] && i <= |s| && n < |alts|
    requires forall j :: 0 <= j < n ==> !PieceMatches(alts[j], s, i)
    requires PieceMatches(alts[n], s, i) && MatchFrom(fmt[1..], s, i + |alts[n]|).Some?
    ensures TryAlternatives(fmt, s, i, alts)
            == Some((Assign(MatchFrom(fmt[1..], s, i + |alts[n]|).value.0, fmt[0], DigitsValue(s[i..i + |alts[n]|])),
                     MatchFrom(fmt[1..], s, i + |alts[n]|).value.1))
    decreases n
  {
    if n > 0 {
      assert alts[1..][n - 1] == alts[n];
      assert !PieceMatches(alts[0], s, i);
      TryAlternativesSkips(fmt, s, i, alts[1..], n - 1);
    }
  }

  lemma MatchYear(fmt: seq<Directive>, s: string, i: nat, v: nat)
    requires fmt != [] && fmt[0] == Year && i + 4 <= |s| && v < 10000
    requires s[i..i + 4] == Pad4(v)
    requires MatchFrom(fmt[1..], s, i + 4).Some?
    ensures MatchFrom(fmt, s, i)
            == Some((MatchFrom(fmt[1..], s, i + 4).value.0.(year := v), MatchFrom(fmt[1..], s, i + 4).value.1))
  {
    Pad4Value(v);
    var alts := Alternatives(Year, s, i);
    forall k | 0 <= k < 4
      ensures ClsHas(alts[0][k], s[i + k])
    {
      assert s[i + k] == s[i..i + 4][k];
    }
    assert PieceMatches(alts[0], s, i);
    TryAlternativesSkips(fmt, s, i, alts, 0);
  }

  lemma MatchLit(fmt: seq<Directive>, s: string, i: nat)
    requires fmt != [] && fmt[0].Lit? && i < |s| && s[i] == fmt[0].c
    requires MatchFrom(fmt[1..], s, i + 1).Some?
    ensures MatchFrom(fmt, s, i) == MatchFrom(fmt[1..], s, i + 1)
  {
    var alts := Alternatives(fmt[0], s, i);
    assert s[i + 0] == s[i];
    assert PieceMatches(alts[0], s, i);
    TryAlternativesSkips(fmt, s, i, alts, 0);
  }

  /** A single blank followed by something else: `\s+` takes just that one. */
  lemma MatchOneBlank(fmt: seq<Directive>, s: string, i: nat)
    requires fmt != [] && fmt[0] == Blank && i + 1 < |s| && s[i] == ' ' && !IsSpace(s[i + 1])
    requires MatchFrom(fmt[1..], s, i + 1).Some?
    ensures MatchFrom(fmt, s, i) == MatchFrom(fmt[1..], s, i + 1)
  {
    assert RunEnd(s, i + 1, IsSpace) == i + 1;
    assert RunEnd(s, i, IsSpace) == i + 1;
    var alts := Alternatives(Blank, s, i);
    assert alts == SpaceRuns(1);
    assert alts[0] == [Space];
    assert s[i + 0] == s[i];
    assert PieceMatches(alts[0], s, i);
    TryAlternativesSkips(fmt, s, i, alts, 0);
  }

  /** The format from its `k`-th directive on, one directive at a time. */
  lemma TailOfTail(fmt: seq<Directive>, k: nat)
    requires k < |fmt|
    ensures fmt[k..] != [] && fmt[k..][0] == fmt[k] && fmt[k..][1..] == fmt[k + 1..]
  {
  }

  function FormatClock(h: nat, m: nat, sec: nat): (r: string)
    requires h < 100 && m < 100 && sec < 100
    ensures |r| == 8
  {
    Pad2(h) + ":" + Pad2(m) + ":" + Pad2(sec)
  }

  /** The characters of "HH:MM:SS" at position `i`. */
  predicate ClockTextAt(s: string, i: nat, h: nat, m: nat, sec: nat) {
    && i + 8 <= |s| && PaddedAt(s, i, h) && s[i + 2] == ':' && PaddedAt(s, i + 3, m)
    && s[i + 5] == ':' && PaddedAt(s, i + 6, sec)
  }

  lemma FormatClockText(s: string, i: nat, h: nat, m: nat, sec: nat)
    requires h < 100 && m < 100 && sec < 100
    requires i + 8 <= |s| && s[i..i + 8] == FormatClock(h, m, sec)
    ensures ClockTextAt(s, i, h, m, sec)
  {
    var c := s[i..i + 8];
    assert c == Pad2(h) + ":" + Pad2(m) + ":" + Pad2(sec);
    assert s[i..i + 2] == c[..2] == Pad2(h);
    assert s[i + 3..i + 5] == c[3..5] == Pad2(m);
    assert s[i + 6..i + 8] == c[6..8] == Pad2(sec);
    assert s[i + 2] == c[2] && s[i + 5] == c[5];
    Pad2At(s, i, h);
    Pad2At(s, i + 3, m);
    Pad2At(s, i + 6, sec);
  }

  /** A time written "HH:MM:SS" at position `i` sets hour, minute and
      second and the match goes on eight characters further. */
  lemma MatchClockChars(fmt: seq<Directive>, s: string, i: nat, h: nat, m: nat, sec: nat, f: DateTime, e: nat)
    requires h <= 23 && m <= 59 && sec <= 59
    requires |fmt| >= 5 && fmt[..5] == ClockFormat
    requires ClockTextAt(s, i, h, m, sec)
    requires MatchFrom(fmt[5..], s, i + 8) == Some((f, e))
    ensures MatchFrom(fmt, s, i) == Some((f.(hour := h, minute := m, second := sec), e))
  {
    assert fmt[0] == Hour && fmt[1] == Lit(':') && fmt[2] == Minute && fmt[3] == Lit(':') && fmt[4] == Second by {
      assert fmt[..5][0] == fmt[0] && fmt[..5][1] == fmt[1] && fmt[..5][2] == fmt[2];
      assert fmt[..5][3] == fmt[3] && fmt[..5][4] == fmt[4];
    }
    TailOfTail(fmt, 4);
    MatchPadded(fmt[4..], s, i + 6, sec);
    assert fmt[2..][2..] == fmt[4..];
    MatchPaddedSep(fmt[2..], s, i + 3, m, f.(second := sec), e);
    MatchPaddedSep(fmt, s, i, h, f.(minute := m, second := sec), e);
  }

  /** A value written with two digits and the separator after it. */
  lemma MatchPaddedSep(fmt: seq<Directive>, s: string, i: nat, v: nat, f: DateTime, e: nat)
    requires |fmt| >= 2 && PaddedInRange(fmt[0], v) && PaddedAt(s, i, v)
    requires fmt[1].Lit? && i + 3 <= |s| && s[i + 2] == fmt[1].c
    requires MatchFrom(fmt[2..], s, i + 3) == Some((f, e))
    ensures MatchFrom(fmt, s, i) == Some((Assign(f, fmt[0], v), e))
  {
    TailOfTail(fmt, 1);
    assert fmt[1..][1..] == fmt[2..];
    MatchLit(fmt[1..], s, i + 2);
    MatchPadded(fmt, s, i, v);
  }

  /** "HH:MM:SS" with the hour, minute and second in range reads back as
      that time of day on 1900-01-01. */
  lemma ClockRoundTrip(h: nat, m: nat, sec: nat)
    requires h <= 23 && m <= 59 && sec <= 59
    ensures Strptime(ClockFormat, FormatClock(h, m, sec)) == Some(DateTime(1900, 1, 1, h, m, sec))
  {
    var s := FormatClock(h, m, sec);
    assert s[0..8] == s;
    FormatClockText(s, 0, h, m, sec);
    assert ClockFormat[..5] == ClockFormat && ClockFormat[5..] == [];
    MatchClockChars(ClockFormat, s, 0, h, m, sec, Defaults, 8);
    WholeMatch(ClockFormat, s, DateTime(1900, 1, 1, h, m, sec));
  }

  function FormatDate(year: nat, month: nat, day: nat): (r: string)
    requires year < 10000 && month < 100 && day < 100
    ensures |r| == 10
  {
    Pad2(month) + "/" + Pad2(day) + "/" + Pad4(year)
  }

  /** The characters of "MM/DD/YYYY" at position `i`. */
  predicate DateTextAt(s: string, i: nat, year: nat, month: nat, day: nat) {
    && i + 10 <= |s| && PaddedAt(s, i, month) && s[i + 2] == '/' && PaddedAt(s, i + 3, day)
    && s[i + 5] == '/' && year < 10000 && s[i + 6..i + 10] == Pad4(year)
  }

  lemma FormatDateText(s: string, i: nat, year: nat, month: nat, day: nat)
    requires year < 10000 && month < 100 && day < 100
    requires i + 10 <= |s| && s[i..i + 10] == FormatDate(year, month, day)
    ensures DateTextAt(s, i, year, month, day)
  {
    var d := s[i..i + 10];
    assert d == Pad2(month) + "/" + Pad2(day) + "/" + Pad4(year);
    assert s[i..i + 2] == d[..2] == Pad2(month);
    assert s[i + 3..i + 5] == d[3..5] == Pad2(day);
    assert s[i + 6..i + 10] == d[6..10] == Pad4(year);
    assert s[i + 2] == d[2] && s[i + 5] == d[5];
    Pad2At(s, i, month);
    Pad2At(s, i + 3, day);
  }

  /** A valid match of the whole text is the result of Strptime. */
  lemma WholeMatch(fmt: seq<Directive>, s: string, t: DateTime)
    requires MatchFrom(fmt, s, 0) == Some((t, |s|)) && ValidDateTime(t)
    ensures Strptime(fmt, s) == Some(t)
  {
  }

  /** A date written "MM/DD/YYYY" at position `i` sets year, month and day
      and the match goes on ten characters further. */
  lemma MatchDateChars(fmt: seq<Directive>, s: string, i: nat, year: nat, month: nat, day: nat, f: DateTime, e: nat)
    requires ValidDate(year, month, day)
    requires |fmt| >= 5 && fmt[..5] == DateFormat
    requires DateTextAt(s, i, year, month, day)
    requires MatchFrom(fmt[5..], s, i + 10) == Some((f, e))
    ensures MatchFrom(fmt, s, i) == Some((f.(year := year, month := month, day := day), e))
  {
    assert fmt[0] == Month && fmt[1] == Lit('/') && fmt[2] == Day && fmt[3] == Lit('/') && fmt[4] == Year by {
      assert fmt[..5][0] == fmt[0] && fmt[..5][1] == fmt[1] && fmt[..5][2] == fmt[2];
      assert fmt[..5][3] == fmt[3] && fmt[..5][4] == fmt[4];
    }
    TailOfTail(fmt, 4);
    MatchYear(fmt[4..], s, i + 6, year);
    assert fmt[2..][2..] == fmt[4..];
    MatchPaddedSep(fmt[2..], s, i + 3, day, f.(year := year), e);
    MatchPaddedSep(fmt, s, i, month, f.(year := year, day := day), e);
  }

  /** "MM/DD/YYYY" of a valid date reads back as midnight of that date. */
  lemma DateRoundTrip(year: nat, month: nat, day: nat)
    requires ValidDate(year, month, day)
    ensures Strptime(DateFormat, FormatDate(year, month, day)) == Some(DateTime(year, month, day, 0, 0, 0))
  {
    var s := FormatDate(year, month, day);
    assert s[0..10] == s;
    FormatDateText(s, 0, year, month, day);
    assert DateFormat[..5] == DateFormat && DateFormat[5..] == [];
    MatchDateChars(DateFormat, s, 0, year, month, day, Defaults, 10);
    WholeMatch(DateFormat, s, DateTime(year, month, day, 0, 0, 0));
  }

  /** "HHMM" with the hour and minute in range reads back as that time of day. */
  lemma HourMinuteRoundTrip(h: nat, m: nat)
    requires h <= 23 && m <= 59
    ensures Strptime(HourMinuteFormat, Pad2(h) + Pad2(m)) == Some(DateTime(1900, 1, 1, h, m, 0))
  {
    var s := Pad2(h) + Pad2(m);
    assert s[0..2] == Pad2(h) && s[2..4] == Pad2(m);
    MatchHourMinute(HourMinuteFormat, s, 0, h, m);
  }

  function FormatStamp(t: DateTime): (r: string)
    requires 0 <= t.month < 100 && 0 <= t.day < 100 && 0 <= t.year < 10000
    requires 0 <= t.hour < 100 && 0 <= t.minute < 100 && 0 <= t.second < 100
    ensures |r| == 21
  {
    FormatDate(t.year, t.month, t.day) + " @ " + FormatClock(t.hour, t.minute, t.second)
  }

  /** The characters of "MM/DD/YYYY @ HH:MM:SS". */
  lemma FormatStampText(t: DateTime)
    requires ValidDateTime(t)
    ensures var s := FormatStamp(t);
            && DateTextAt(s, 0, t.year, t.month, t.day) && s[10] == ' ' && s[11] == '@' && s[12] == ' '
            && ClockTextAt(s, 13, t.hour, t.minute, t.second)
  {
    var s := FormatStamp(t);
    var d := FormatDate(t.year, t.month, t.day);
    var c := FormatClock(t.hour, t.minute, t.second);
    assert s == d + " @ " + c;
    assert s[0..10] == d && s[13..21] == c;
    FormatDateText(s, 0, t.year, t.month, t.day);
    FormatClockText(s, 13, t.hour, t.minute, t.second);
  }

  /** "MM/DD/YYYY @ HH:MM:SS" of a valid date and time reads back as itself. */
  lemma StampRoundTrip(t: DateTime)
    requires ValidDateTime(t)
    ensures Strptime(StampFormat, FormatStamp(t)) == Some(t)
  {
    var s := FormatStamp(t);
    var f := StampFormat;
    FormatStampText(t);
    var clock := DateTime(1900, 1, 1, t.hour, t.minute, t.second);
    StampClockPart(f[8..], s, t);
    assert MatchFrom(f[8..], s, 13) == Some((clock, 21));
    DigitCharValue(t.hour / 10);
    TailOfTail(f, 7);
    MatchOneBlank(f[7..], s, 12);
    TailOfTail(f, 6);
    MatchLit(f[6..], s, 11);
    TailOfTail(f, 5);
    MatchOneBlank(f[5..], s, 10);
    assert f[..5] == DateFormat;
    MatchDateChars(f, s, 0, t.year, t.month, t.day, clock, 21);
    WholeMatch(f, s, t);
  }

  /** The clock at the end of a stamp: `f` is the stamp format after its
      date, its blank, its '@' and its blank. */
  lemma StampClockPart(f: seq<Directive>, s: string, t: DateTime)
    requires f == ClockFormat && |s| == 21 && ValidDateTime(t)
    requires ClockTextAt(s, 13, t.hour, t.minute, t.second)
    ensures MatchFrom(f, s, 13) == Some((DateTime(1900, 1, 1, t.hour, t.minute, t.second), 21))
  {
    assert f[..5] == ClockFormat && f[5..] == [];
    MatchClockChars(f, s, 13, t.hour, t.minute, t.second, Defaults, 21);
  }

  function FormatModified(t: DateTime): (r: string)
    requires 0 <= t.month < 100 && 0 <= t.day < 100 && 0 <= t.year < 10000
    requires 0 <= t.hour < 100 && 0 <= t.minute < 100
    ensures |r| == 14
  {
    FormatDate(t.year, t.month, t.day) + Pad2(t.hour) + Pad2(t.minute)
  }

  /** "MM/DD/YYYYHHMM" (no separator between year and hour) of a valid date
      and time on a whole minute reads back as itself. */
  lemma ModifiedRoundTrip(t: DateTime)
    requires ValidDateTime(t) && t.second == 0
    ensures Strptime(ModifiedFormat, FormatModified(t)) == Some(t)
  {
    var s := FormatModified(t);
    var f := ModifiedFormat;
    assert s[0..10] == FormatDate(t.year, t.month, t.day) && s[10..12] == Pad2(t.hour) && s[12..14] == Pad2(t.minute);
    FormatDateText(s, 0, t.year, t.month, t.day);
    var hm := DateTime(1900, 1, 1, t.hour, t.minute, 0);
    MatchHourMinute(f[5..], s, 10, t.hour, t.minute);
    assert f[..5] == DateFormat;
    MatchDateChars(f, s, 0, t.year, t.month, t.day, hm, 14);
    WholeMatch(f, s, t);
  }

  /** "HHMM" closing the text from position `i`: `f` is the hour directive
      followed by the minute directive. */
  lemma MatchHourMinute(f: seq<Directive>, s: string, i: nat, h: nat, m: nat)
    requires f == [Hour, Minute] && |s| == i + 4 && h <= 23 && m <= 59
    requires s[i..i + 2] == Pad2(h) && s[i + 2..i + 4] == Pad2(m)
    ensures MatchFrom(f, s, i) == Some((DateTime(1900, 1, 1, h, m, 0), i + 4))
  {
    Pad2At(s, i, h);
    Pad2At(s, i + 2, m);
    assert MatchFrom(f[2..], s, i + 4) == Some((Defaults, i + 4));
    TailOfTail(f, 1);
    MatchPadded(f[1..], s, i + 2, m);
    MatchPadded(f, s, i, h);
  }
}
