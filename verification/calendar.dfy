/** Gregorian dates as Python's `datetime` handles them: `strptime` with the directives
    `%Y`, `%m`, `%d` and literal characters, `date.isoformat`, and the comparison of a
    parsed date (midnight) with the current moment. */
module Calendar {
  import opened Wrappers
  import opened Ascii

  datatype Date = Date(year: int, month: int, day: int)

  predicate IsLeapYear(y: int) {
    y % 4 == 0 && (y % 100 != 0 || y % 400 == 0)
  }

  function DaysInMonth(y: int, m: int): (n: int)
    requires 1 <= m <= 12
    ensures 28 <= n <= 31
    ensures m == 2 ==> (n == 29 <==> IsLeapYear(y))
    ensures m in {4, 6, 9, 11} ==> n == 30
    ensures m !in {2, 4, 6, 9, 11} ==> n == 31
  {
    if m == 2 then (if IsLeapYear(y) then 29 else 28)
    else if m == 4 || m == 6 || m == 9 || m == 11 then 30
    else 31
  }

  /** The dates `datetime.date` can represent: years 1 to 9999. */
  predicate ValidDate(d: Date) {
    && 1 <= d.year <= 9999
    && 1 <= d.month <= 12
    && 1 <= d.day <= DaysInMonth(d.year, d.month)
  }

  // ---------------------------------------------------------------------------
  // Digits

  function Digit(n: int): (c: char)
    requires 0 <= n <= 9
    ensures IsDigit(c) && c as int - '0' as int == n
  {
    ('0' as int + n) as char
  }

  /** The weight of one character of a number field; the space `%d` may start with counts as 0,
      as `int(" 5") == 5`. */
  function DigitValue(c: char): (n: int)
    ensures 0 <= n <= 9
    ensures IsDigit(c) ==> c == Digit(n)
  {
    if IsDigit(c) then c as int - '0' as int else 0
  }

  /** The decimal value of a number field. */
  function Value(s: string): (n: nat)
  {
    if s == [] then 0 else 10 * Value(s[..|s| - 1]) + DigitValue(s[|s| - 1])
  }

  /** `%02d`. */
  function Pad2(n: int): (s: string)
    requires 0 <= n < 100
    ensures |s| == 2 && s[0] == Digit(n / 10) && s[1] == Digit(n % 10)
    ensures Value(s) == n
  {
    var s := [Digit(n / 10), Digit(n % 10)];
    assert s[..1] == [Digit(n / 10)];
    assert Value(s[..1]) == n / 10 by {
      assert s[..1][..0] == [];
    }
    s
  }

  /** `%04d`. */
  function Pad4(n: int): (s: string)
    requires 0 <= n < 10000
    ensures |s| == 4 && forall i :: 0 <= i < 4 ==> IsDigit(s[i])
    ensures s[0] == Digit(n / 100 / 10) && s[1] == Digit(n / 100 % 10)
    ensures s[2] == Digit(n % 100 / 10) && s[3] == Digit(n % 100 % 10)
    ensures Value(s) == n
  {
    var hi := Pad2(n / 100);
    var lo := Pad2(n % 100);
    ValueAppend2(hi, lo);
    hi + lo
  }

  /** Appending two digits multiplies the value by a hundred and adds theirs. */
  lemma {:induction false} ValueAppend2(hi: string, lo: string)
    requires |lo| == 2
    ensures Value(hi + lo) == 100 * Value(hi) + Value(lo)
  {
    var s := hi + lo;
    var mid := hi + [lo[0]];
    assert s[..|s| - 1] == mid;
    assert mid[..|mid| - 1] == hi;
    assert Value(mid) == 10 * Value(hi) + DigitValue(lo[0]);
    assert Value(s) == 10 * Value(mid) + DigitValue(lo[1]);
    assert lo[..1][..0] == [];
    assert Value(lo[..1]) == DigitValue(lo[0]);
    assert Value(lo) == 10 * DigitValue(lo[0]) + DigitValue(lo[1]);
  }

  // ---------------------------------------------------------------------------
  // Rendering

  /** `date.isoformat()`: `YYYY-MM-DD`, zero padded. */
  function FormatIso(d: Date): (s: string)
    requires ValidDate(d)
    ensures |s| == 10 && s[4] == '-' && s[7] == '-'
    ensures forall i :: 0 <= i < 10 && i != 4 && i != 7 ==> IsDigit(s[i])
    ensures Value(s[..4]) == d.year && Value(s[5..7]) == d.month && Value(s[8..]) == d.day
  {
    var s := Pad4(d.year) + ("-" + (Pad2(d.month) + ("-" + Pad2(d.day))));
    assert s[..4] == Pad4(d.year);
    assert s[5..7] == Pad2(d.month);
    assert s[8..] == Pad2(d.day);
    s
  }

  // ---------------------------------------------------------------------------
  // strptime

  /** The directives of a `strptime` format this component uses. */
  datatype Directive = Year | Month | Day | Lit(c: char)

  /** One position of a regular-expression alternative. */
  datatype CharClass = Is(c: char) | Between(lo: char, hi: char)

  predicate InClass(c: char, k: CharClass) {
    match k
    case Is(x) => c == x
    case Between(lo, hi) => lo <= c <= hi
  }

  /** The alternative `p` matches a prefix of `s`. */
  predicate Fits(p: seq<CharClass>, s: string) {
    |p| <= |s| && forall i :: 0 <= i < |p| ==> InClass(s[i], p[i])
  }

  const AnyDigit := Between('0', '9')

  /** The alternatives of the regular expression Python's `_strptime` builds for each
      directive, in the order the matcher tries them:
      `%Y` is `\d\d\d\d`, `%m` is `1[0-2]|0[1-9]|[1-9]`,
      `%d` is `3[01]|[12]\d|0[1-9]|[1-9]| [1-9]`. */
  function Alternatives(d: Directive): seq<seq<CharClass>> {
    match d
    case Year => [[AnyDigit, AnyDigit, AnyDigit, AnyDigit]]
    case Month => [[Is('1'), Between('0', '2')], [Is('0'), Between('1', '9')], [Between('1', '9')]]
    case Day => [[Is('3'), Between('0', '1')], [Between('1', '2'), AnyDigit],
                 [Is('0'), Between('1', '9')], [Between('1', '9')], [Is(' '), Between('1', '9')]]
    case Lit(c) => [[Is(c)]]
  }

  /** The fields a match has filled in; Python starts from 1900-01-01. */
  datatype Fields = Fields(year: int, month: int, day: int)

  const NoFields := Fields(1900, 1, 1)

  function Assign(d: Directive, text: string, f: Fields): Fields {
    match d
    case Year => f.(year := Value(text))
    case Month => f.(month := Value(text))
    case Day => f.(day := Value(text))
    case Lit(_) => f
  }

  /** A match: the fields it read and how many characters it consumed. */
  datatype Found = Found(fields: Fields, end: nat)

  /** The first match of the format's regular expression at the start of `s`, found the way a
      backtracking matcher finds it: each directive tries its alternatives in order and moves on
      to the next alternative only when the rest of the format cannot match after it. The match
      is anchored at the start of `s` only. */
  function Match(fmt: seq<Directive>, s: string): (r: Option<Found>)
    ensures r.Some? ==> r.value.end <= |s|
    decreases |fmt|, 1, 0
  {
    if fmt == [] then Some(Found(NoFields, 0))
    else TryAlternatives(fmt, s, Alternatives(fmt[0]))
  }

  function TryAlternatives(fmt: seq<Directive>, s: string, alts: seq<seq<CharClass>>): (r: Option<Found>)
    requires fmt != []
    ensures r.Some? ==> r.value.end <= |s|
    decreases |fmt|, 0, |alts|
  {
    if alts == [] then None
    else
      var p := alts[0];
      if Fits(p, s) then
        match Match(fmt[1..], s[|p|..])
        case Some(rest) => Some(Found(Assign(fmt[0], s[..|p|], rest.fields), |p| + rest.end))
        case None => TryAlternatives(fmt, s, alts[1..])
      else TryAlternatives(fmt, s, alts[1..])
  }

  /** `datetime.strptime(s, fmt)`, with `None` for the `ValueError` it raises when the format
      does not match, when characters are left over ("unconverted data remains"), or when the
      fields do not form a date. */
  function Strptime(fmt: seq<Directive>, s: string): (r: Option<Date>)
    ensures r.Some? ==> ValidDate(r.value)
  {
    match Match(fmt, s)
    case None => None
    case Some(found) =>
      var d := Date(found.fields.year, found.fields.month, found.fields.day);
      if found.end == |s| && ValidDate(d) then Some(d) else None
  }

  /** `'%Y%m%d'`, the date format of the RDW open data. */
  const RdwFormat: seq<Directive> := [Year, Month, Day]
  /** `'%Y-%m-%d'`. */
  const IsoFormat: seq<Directive> := [Year, Lit('-'), Month, Lit('-'), Day]
  /** `'%d/%m/%Y'`, the date format the first version of the sensor expected. */
  const DmyFormat: seq<Directive> := [Day, Lit('/'), Month, Lit('/'), Year]

  // ---------------------------------------------------------------------------
  // strptime reads back what strftime writes

  /** A literal directive consumes its one character. */
  lemma {:induction false} MatchLit(c: char, fmt: seq<Directive>, s: string, f: Fields, e: nat)
    requires fmt != [] && fmt[0] == Lit(c) && s != [] && s[0] == c
    requires Match(fmt[1..], s[1..]) == Some(Found(f, e))
    ensures Match(fmt, s) == Some(Found(f, 1 + e))
  {
    assert Fits([Is(c)], s);
  }

  /** `%Y` consumes the four digits of `%04d` and reads them as the year. */
  lemma {:induction false} MatchYear(y: int, fmt: seq<Directive>, s: string, f: Fields, e: nat)
    requires 0 <= y < 10000 && fmt != [] && fmt[0] == Year && |s| >= 4
    requires s[0] == Digit(y / 100 / 10) && s[1] == Digit(y / 100 % 10)
    requires s[2] == Digit(y % 100 / 10) && s[3] == Digit(y % 100 % 10)
    requires Match(fmt[1..], s[4..]) == Some(Found(f, e))
    ensures Match(fmt, s) == Some(Found(f.(year := y), 4 + e))
  {
    assert s[..4] == Pad4(y);
    assert Fits([AnyDigit, AnyDigit, AnyDigit, AnyDigit], s);
  }

  /** The matcher takes the first alternative that fits, when the rest of the format matches
      after it. */
  lemma {:induction false} TryFirstFit(fmt: seq<Directive>, s: string, alts: seq<seq<CharClass>>, k: nat)
    requires fmt != [] && k < |alts|
    requires forall j :: 0 <= j < k ==> !Fits(alts[j], s)
    requires Fits(alts[k], s) && Match(fmt[1..], s[|alts[k]|..]).Some?
    ensures var rest := Match(fmt[1..], s[|alts[k]|..]).value;
      TryAlternatives(fmt, s, alts) == Some(Found(Assign(fmt[0], s[..|alts[k]|], rest.fields), |alts[k]| + rest.end))
    decreases k
  {
    if k > 0 {
      assert !Fits(alts[0], s);
      assert alts[1..][k - 1] == alts[k];
      TryFirstFit(fmt, s, alts[1..], k - 1);
    }
  }

  /** `%m` consumes the two digits of `%02d` and reads them as the month. */
  lemma {:induction false} MatchMonth(m: int, fmt: seq<Directive>, s: string, f: Fields, e: nat)
    requires 1 <= m <= 12 && fmt != [] && fmt[0] == Month && |s| >= 2
    requires s[0] == Digit(m / 10) && s[1] == Digit(m % 10)
    requires Match(fmt[1..], s[2..]) == Some(Found(f, e))
    ensures Match(fmt, s) == Some(Found(f.(month := m), 2 + e))
  {
    var alts := Alternatives(Month);
    assert s[..2] == Pad2(m);
    if m >= 10 {
      assert m / 10 == 1 && m % 10 <= 2;
      TryFirstFit(fmt, s, alts, 0);
    } else {
      assert m / 10 == 0 && m % 10 == m;
      TryFirstFit(fmt, s, alts, 1);
    }
  }

  /** `%d` consumes the two digits of `%02d` and reads them as the day. */
  lemma {:induction false} MatchDay(d: int, fmt: seq<Directive>, s: string, f: Fields, e: nat)
    requires 1 <= d <= 31 && fmt != [] && fmt[0] == Day && |s| >= 2
    requires s[0] == Digit(d / 10) && s[1] == Digit(d % 10)
    requires Match(fmt[1..], s[2..]) == Some(Found(f, e))
    ensures Match(fmt, s) == Some(Found(f.(day := d), 2 + e))
  {
    var alts := Alternatives(Day);
    assert s[..2] == Pad2(d);
    if d >= 30 {
      assert d / 10 == 3 && d % 10 <= 1;
      TryFirstFit(fmt, s, alts, 0);
    } else if d >= 10 {
      assert 1 <= d / 10 <= 2;
      TryFirstFit(fmt, s, alts, 1);
    } else {
      assert d / 10 == 0 && d % 10 == d;
      TryFirstFit(fmt, s, alts, 2);
    }
  }

  /** Reading an ISO rendering back with `'%Y-%m-%d'` gives the date that was rendered. */
  lemma {:induction false} IsoRoundTrip(d: Date)
    requires ValidDate(d)
    ensures Strptime(IsoFormat, FormatIso(d)) == Some(d)
  {
    IsoMatch(d);
  }

  /** The ISO rendering matches `'%Y-%m-%d'` whole, with the date's fields. */
  lemma {:induction false} IsoMatch(d: Date)
    requires ValidDate(d)
    ensures Match(IsoFormat, FormatIso(d)) == Some(Found(Fields(d.year, d.month, d.day), 10))
  {
    var s := FormatIso(d);
    IsoDigits(d);
    var f := NoFields.(day := d.day);
    MatchDay(d.day, IsoFormat[4..], s[8..], NoFields, 0);
    MatchLit('-', IsoFormat[3..], s[7..], f, 2);
    MatchMonth(d.month, IsoFormat[2..], s[5..], f, 3);
    MatchLit('-', IsoFormat[1..], s[4..], f.(month := d.month), 5);
    MatchYear(d.year, IsoFormat, s, f.(month := d.month), 6);
  }

  /** How the RDW open data writes a date: `YYYYMMDD`. */
  function RdwText(d: Date): (s: string)
    requires ValidDate(d)
    ensures |s| == 8 && forall i :: 0 <= i < 8 ==> IsDigit(s[i])
  {
    Pad4(d.year) + (Pad2(d.month) + Pad2(d.day))
  }

  /** An RDW date read with `'%Y%m%d'` gives the date back, and its ISO form is the same
      digits with dashes after the year and the month. */
  lemma {:induction false} RdwRoundTrip(d: Date)
    requires ValidDate(d)
    ensures Strptime(RdwFormat, RdwText(d)) == Some(d)
    ensures var s := RdwText(d); FormatIso(d) == s[..4] + "-" + s[4..6] + "-" + s[6..]
  {
    var s := RdwText(d);
    var f := NoFields.(day := d.day);
    MatchDay(d.day, RdwFormat[2..], s[6..], NoFields, 0);
    MatchMonth(d.month, RdwFormat[1..], s[4..], f, 2);
    MatchYear(d.year, RdwFormat, s, f.(month := d.month), 4);
    assert s[..4] == Pad4(d.year) && s[4..6] == Pad2(d.month) && s[6..] == Pad2(d.day);
  }

  /** How the first version of the sensor expected a date: `DD/MM/YYYY`. */
  function DmyText(d: Date): (s: string)
    requires ValidDate(d)
    ensures |s| == 10 && s[2] == '/' && s[5] == '/'
  {
    Pad2(d.day) + ("/" + (Pad2(d.month) + ("/" + Pad4(d.year))))
  }

  /** A `DD/MM/YYYY` date read with `'%d/%m/%Y'` gives the date back. */
  lemma {:induction false} DmyRoundTrip(d: Date)
    requires ValidDate(d)
    ensures Strptime(DmyFormat, DmyText(d)) == Some(d)
  {
    DmyMatch(d);
  }

  /** The `DD/MM/YYYY` text matches `'%d/%m/%Y'` whole, with the date's fields. */
  lemma {:induction false} DmyMatch(d: Date)
    requires ValidDate(d)
    ensures Match(DmyFormat, DmyText(d)) == Some(Found(Fields(d.year, d.month, d.day), 10))
  {
    var s := DmyText(d);
    var f := NoFields.(year := d.year);
    MatchYear(d.year, DmyFormat[4..], s[6..], NoFields, 0);
    MatchLit('/', DmyFormat[3..], s[5..], f, 4);
    MatchMonth(d.month, DmyFormat[2..], s[3..], f, 5);
    MatchLit('/', DmyFormat[1..], s[2..], f.(month := d.month), 7);
    MatchDay(d.day, DmyFormat, s, f.(month := d.month), 8);
  }

  // ---------------------------------------------------------------------------
  // validate_dateformat

  /** `validate_dateformat`: the text survives `strptime(text, '%Y-%m-%d')` followed by
      `strftime('%Y-%m-%d')` unchanged; a `ValueError` from `strptime` gives false. */
  function ValidateDateformat(text: string): (b: bool)
    ensures b ==> Strptime(IsoFormat, text).Some?
    ensures b ==> |text| == 10 && text[4] == '-' && text[7] == '-'
    ensures b ==> forall i :: 0 <= i < 10 && i != 4 && i != 7 ==> IsDigit(text[i])
  {
    match Strptime(IsoFormat, text)
    case None => false
    case Some(d) => FormatIso(d) == text
  }

  /** The accepted texts are exactly the zero-padded ISO renderings of the valid dates. */
  lemma ValidateDateformatIsCanonical(text: string)
    ensures ValidateDateformat(text) <==> exists d :: ValidDate(d) && FormatIso(d) == text
  {
    if exists d :: ValidDate(d) && FormatIso(d) == text {
      var d :| ValidDate(d) && FormatIso(d) == text;
      IsoRoundTrip(d);
    }
  }

  /** An accepted text holds only digits and dashes. Used as a `strftime` format it has no
      `%` directive, so it renders as itself whatever the date. */
  lemma ValidatedDateformatIsLiteral(text: string)
    requires ValidateDateformat(text)
    ensures forall i :: 0 <= i < |text| ==> IsDigit(text[i]) || text[i] == '-'
    ensures '%' !in text
  {
    ValidateDateformatIsCanonical(text);
    var d :| ValidDate(d) && FormatIso(d) == text;
  }

  /** A month written with one digit is refused: no ISO rendering is nine characters long. */
  lemma UnpaddedMonthRefused()
    ensures !ValidateDateformat("2020-2-03")
  {
    ValidateDateformatIsCanonical("2020-2-03");
  }

  /** Each character of an ISO rendering is the digit of the date it stands for. */
  lemma IsoDigits(d: Date)
    requires ValidDate(d)
    ensures var s := FormatIso(d);
      && s[0] == Digit(d.year / 100 / 10) && s[1] == Digit(d.year / 100 % 10)
      && s[2] == Digit(d.year % 100 / 10) && s[3] == Digit(d.year % 100 % 10)
      && s[5] == Digit(d.month / 10) && s[6] == Digit(d.month % 10)
      && s[8] == Digit(d.day / 10) && s[9] == Digit(d.day % 10)
  {
    var s := FormatIso(d);
    assert s[..4] == Pad4(d.year) && s[5..7] == Pad2(d.month) && s[8..] == Pad2(d.day);
  }

  /** A ten-character text with the date's digits around two dashes is that date's ISO
      rendering. */
  lemma {:induction false} IsoTextOf(d: Date, text: string)
    requires ValidDate(d) && |text| == 10 && text[4] == '-' && text[7] == '-'
    requires text[0] == Digit(d.year / 100 / 10) && text[1] == Digit(d.year / 100 % 10)
    requires text[2] == Digit(d.year % 100 / 10) && text[3] == Digit(d.year % 100 % 10)
    requires text[5] == Digit(d.month / 10) && text[6] == Digit(d.month % 10)
    requires text[8] == Digit(d.day / 10) && text[9] == Digit(d.day % 10)
    ensures FormatIso(d) == text
  {
    IsoDigits(d);
    var s := FormatIso(d);
    forall i | 0 <= i < 10
      ensures s[i] == text[i]
    {
    }
  }

  /** 29 February 2020 is accepted: 2020 is a leap year. */
  lemma LeapDayAccepted()
    ensures ValidateDateformat("2020-02-29")
  {
    var d := Date(2020, 2, 29);
    IsoTextOf(d, "2020-02-29");
    IsoRoundTrip(d);
  }

  /** A text naming 29 February is refused when its year is not a leap year. */
  lemma {:induction false} LeapDayNeedsLeapYear(text: string)
    requires |text| == 10 && text[5] == '0' && text[6] == '2' && text[8] == '2' && text[9] == '9'
    requires !IsLeapYear(Value(text[..4]))
    ensures !ValidateDateformat(text)
  {
    forall d | ValidDate(d)
      ensures FormatIso(d) != text
    {
      IsoDigits(d);
    }
    ValidateDateformatIsCanonical(text);
  }

  /** 29 February 2021 is refused: 2021 is not a leap year. */
  lemma NonLeapDayRefused()
    ensures !ValidateDateformat("2021-02-29")
  {
    var text := "2021-02-29";
    assert text[..4] == "20" + "21";
    assert Value("20") == 20 by { assert "20"[..1] == "2" && "2"[..0] == ""; }
    assert Value("21") == 21 by { assert "21"[..1] == "2" && "2"[..0] == ""; }
    ValueAppend2("20", "21");
    LeapDayNeedsLeapYear(text);
  }

  /** A number below 100 is read back from its two digits. */
  lemma TwoDigits(n: int, hi: char, lo: char)
    requires 0 <= n <= 99 && Digit(n / 10) == hi && Digit(n % 10) == lo
    ensures n == 10 * (hi as int - '0' as int) + (lo as int - '0' as int)
  {
  }

  /** No valid date renders as the 31st of a 30-day month. */
  lemma ThirtyFirstNotIso(d: Date, text: string)
    requires ValidDate(d)
    requires |text| == 10 && text[8] == '3' && text[9] == '1'
    requires (text[5] == '0' && text[6] in "469") || (text[5] == '1' && text[6] == '1')
    ensures FormatIso(d) != text
  {
    IsoDigits(d);
    var s := FormatIso(d);
    TwoDigits(d.day, s[8], s[9]);
    TwoDigits(d.month, s[5], s[6]);
  }

  /** A text naming the 31st of April, June, September or November is refused: those
      months have 30 days. */
  lemma ThirtyFirstNeedsLongMonth(text: string)
    requires |text| == 10 && text[8] == '3' && text[9] == '1'
    requires (text[5] == '0' && text[6] in "469") || (text[5] == '1' && text[6] == '1')
    ensures !ValidateDateformat(text)
  {
    forall d | ValidDate(d)
      ensures FormatIso(d) != text
    {
      ThirtyFirstNotIso(d, text);
    }
    ValidateDateformatIsCanonical(text);
  }

  /** 31 April 2021 is refused. */
  lemma AprilThirtyFirstRefused()
    ensures !ValidateDateformat("2021-04-31")
  {
    ThirtyFirstNeedsLongMonth("2021-04-31");
  }

  // ---------------------------------------------------------------------------
  // Now

  /** A moment: a date and the microseconds elapsed since its midnight. */
  datatype Instant = Instant(date: Date, micros: nat)

  /** Dates in calendar order. */
  predicate Before(a: Date, b: Date) {
    || a.year < b.year
    || (a.year == b.year && a.month < b.month)
    || (a.year == b.year && a.month == b.month && a.day < b.day)
  }

  /** Moments in time order. */
  predicate EarlierThan(a: Instant, b: Instant) {
    Before(a.date, b.date) || (a.date == b.date && a.micros < b.micros)
  }

  /** `strptime` yields midnight of the date it reads. */
  function Midnight(d: Date): Instant {
    Instant(d, 0)
  }

  /** `strptime(expdate) < now`: the expiry date's midnight has passed. */
  predicate Expired(expiry: Date, now: Instant) {
    EarlierThan(Midnight(expiry), now)
  }

  /** An expiry date has passed exactly when it lies before today, or is today and the
      day has begun. */
  lemma ExpiredIffBeforeToday(expiry: Date, now: Instant)
    ensures Expired(expiry, now) <==> Before(expiry, now.date) || (expiry == now.date && now.micros > 0)
  {
  }

  /** Once passed, an expiry date stays passed. */
  lemma ExpiredStaysExpired(expiry: Date, now: Instant, later: Instant)
    requires Expired(expiry, now)
    requires !EarlierThan(later, now)
    ensures Expired(expiry, later)
  {
  }
}
