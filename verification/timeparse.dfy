/**
 * The two uses of Go's `time.Parse` in the scoring rules: the layout
 * `2006-01-02` (`time.DateOnly`) for the purchase date and `15:04` for the
 * purchase time.  The parsers follow Go's layout interpreter chunk by chunk:
 * `getnum` for two-digit fields, `atoi` over four bytes for the year, exact
 * matching of the literal separators, rejection of extra text, and validation
 * of the month and of the day against the length of the month.
 */
module TimeParse {
  import opened Wrappers

  datatype Date = Date(year: nat, month: nat, day: nat)
  datatype Clock = Clock(hour: nat, minute: nat)

  /** A number read from the front of the input, and the input left over. */
  datatype Chunk = Chunk(value: nat, rest: string)

  predicate IsDigit(c: char) {
    '0' <= c <= '9'
  }

  function DigitValue(c: char): (d: nat)
    requires IsDigit(c)
    ensures d <= 9
  {
    c as int - '0' as int
  }

  /**
   * Go's `getnum`: one digit, or two when a second digit follows; with `fixed`
   * exactly two digits are required.
   */
  function GetNum(s: string, fixed: bool): Option<Chunk> {
    if |s| == 0 || !IsDigit(s[0]) then None
    else if |s| < 2 || !IsDigit(s[1]) then
      if fixed then None else Some(Chunk(DigitValue(s[0]), s[1..]))
    else Some(Chunk(10 * DigitValue(s[0]) + DigitValue(s[1]), s[2..]))
  }

  /** The `2006` field: four bytes, the first a digit, read by `atoi` with nothing left over. */
  function LongYear(s: string): Option<Chunk> {
    if |s| < 4 || !IsDigit(s[0]) || !IsDigit(s[1]) || !IsDigit(s[2]) || !IsDigit(s[3]) then None
    else
      Some(Chunk(1000 * DigitValue(s[0]) + 100 * DigitValue(s[1])
                 + 10 * DigitValue(s[2]) + DigitValue(s[3]), s[4..]))
  }

  /** A literal chunk of the layout (here `-` or `:`) must be matched exactly. */
  function Skip(s: string, literal: char): Option<string> {
    if |s| == 0 || s[0] != literal then None else Some(s[1..])
  }

  /** The proleptic Gregorian leap-year rule. */
  predicate IsLeap(year: int) {
    year % 4 == 0 && (year % 100 != 0 || year % 400 == 0)
  }

  /** Go's `daysIn`: the number of days of a month (1..12) in a given year. */
  function DaysIn(month: nat, year: int): (n: nat)
    requires 1 <= month <= 12
    ensures 28 <= n <= 31
    ensures n == 28 <==> month == 2 && !IsLeap(year)
    ensures n == 29 <==> month == 2 && IsLeap(year)
    ensures n == 30 <==> month in {4, 6, 9, 11}
    ensures n == 31 <==> month in {1, 3, 5, 7, 8, 10, 12}
  {
    if month == 2 then (if IsLeap(year) then 29 else 28)
    else if month == 4 || month == 6 || month == 9 || month == 11 then 30
    else 31
  }

  predicate ValidDate(d: Date) {
    1 <= d.month <= 12 && 1 <= d.day <= DaysIn(d.month, d.year)
  }

  /** The shape `DDDD-DD-DD`, D a decimal digit. */
  predicate DateShape(s: string) {
    && |s| == 10
    && IsDigit(s[0]) && IsDigit(s[1]) && IsDigit(s[2]) && IsDigit(s[3])
    && s[4] == '-' && IsDigit(s[5]) && IsDigit(s[6])
    && s[7] == '-' && IsDigit(s[8]) && IsDigit(s[9])
  }

  /** The year, month and day written in a string of shape `DDDD-DD-DD`. */
  function DateFields(s: string): Date
    requires DateShape(s)
  {
    Date(1000 * DigitValue(s[0]) + 100 * DigitValue(s[1]) + 10 * DigitValue(s[2]) + DigitValue(s[3]),
         10 * DigitValue(s[5]) + DigitValue(s[6]),
         10 * DigitValue(s[8]) + DigitValue(s[9]))
  }

  /**
   * `time.Parse(time.DateOnly, s)`: succeeds exactly on strings of shape
   * `DDDD-DD-DD` that name a real calendar date, and yields that date.
   */
  function ParseDate(s: string): (r: Option<Date>)
    ensures r.Some? <==> DateShape(s) && ValidDate(DateFields(s))
    ensures r.Some? ==> r.value == DateFields(s)
  {
    var year :- LongYear(s);
    var afterYear :- Skip(year.rest, '-');
    var month :- GetNum(afterYear, true);
    if month.value < 1 || 12 < month.value then None
    else
      var afterMonth :- Skip(month.rest, '-');
      var day :- GetNum(afterMonth, true);
      if day.rest != [] then None
      else if day.value < 1 || DaysIn(month.value, year.value) < day.value then None
      else Some(Date(year.value, month.value, day.value))
  }

  /** The shapes `D:DD` and `DD:DD`, D a decimal digit. */
  predicate ClockShape(s: string) {
    || (|s| == 4 && IsDigit(s[0]) && s[1] == ':' && IsDigit(s[2]) && IsDigit(s[3]))
    || (|s| == 5 && IsDigit(s[0]) && IsDigit(s[1]) && s[2] == ':' && IsDigit(s[3]) && IsDigit(s[4]))
  }

  /** The hour and minute written in a string of clock shape. */
  function ClockFields(s: string): Clock
    requires ClockShape(s)
  {
    if |s| == 4 then Clock(DigitValue(s[0]), 10 * DigitValue(s[2]) + DigitValue(s[3]))
    else Clock(10 * DigitValue(s[0]) + DigitValue(s[1]), 10 * DigitValue(s[3]) + DigitValue(s[4]))
  }

  predicate ValidClock(c: Clock) {
    c.hour < 24 && c.minute < 60
  }

  /**
   * `time.Parse("15:04", s)`: a one- or two-digit hour below 24, a colon and a
   * two-digit minute below 60, and nothing else.
   */
  function ParseClock(s: string): (r: Option<Clock>)
    ensures r.Some? <==> ClockShape(s) && ValidClock(ClockFields(s))
    ensures r.Some? ==> r.value == ClockFields(s)
  {
    var hour :- GetNum(s, false);
    if 24 <= hour.value then None
    else
      var afterHour :- Skip(hour.rest, ':');
      var minute :- GetNum(afterHour, true);
      if 60 <= minute.value then None
      else if minute.rest != [] then None
      else Some(Clock(hour.value, minute.value))
  }

  const MinutesPerDay: nat := 24 * 60

  function DaysInYear(year: int): nat {
    if IsLeap(year) then 366 else 365
  }

  /**
   * The instant Go's zero `Time` (January 1 of year 1, 00:00 UTC) stands for,
   * in minutes since January 1 of year 0, 00:00 UTC.
   */
  const ZeroTimeMinutes: nat := DaysInYear(0) * MinutesPerDay

  /** The minute of the day a clock reading names. */
  function MinuteOfDay(c: Clock): nat {
    60 * c.hour + c.minute
  }

  /**
   * The `Time` returned by `time.Parse("15:04", s)`, in minutes since January 1
   * of year 0, 00:00 UTC: a parsed clock reading falls on that first day of
   * year 0; a failed parse returns the zero `Time`, which lies a whole (leap)
   * year later.
   */
  function ClockInstant(s: string): (m: nat)
    ensures ParseClock(s).Some? ==> m == 60 * ParseClock(s).value.hour + ParseClock(s).value.minute
    ensures ParseClock(s).Some? ==> m < MinutesPerDay
    ensures ParseClock(s).None? ==> m == 366 * MinutesPerDay
  {
    match ParseClock(s)
    case Some(c) => 60 * c.hour + c.minute
    case None => ZeroTimeMinutes
  }

  /**
   * `isBetween`: the parsed `purchaseTime` is strictly after `start` and
   * strictly before `end`, parse errors being ignored as the source ignores them.
   */
  predicate IsBetween(purchaseTime: string, start: string, end: string)
    ensures ParseClock(start).Some? && ParseClock(end).Some? ==>
              (IsBetween(purchaseTime, start, end) <==>
                 ParseClock(purchaseTime).Some?
                 && MinuteOfDay(ParseClock(start).value) < MinuteOfDay(ParseClock(purchaseTime).value)
                 && MinuteOfDay(ParseClock(purchaseTime).value) < MinuteOfDay(ParseClock(end).value))
  {
    var t := ClockInstant(purchaseTime);
    ClockInstant(start) < t && t < ClockInstant(end)
  }

  /** Writes a digit 0..9. */
  function DigitChar(d: nat): (c: char)
    requires d <= 9
    ensures IsDigit(c) && DigitValue(c) == d
  {
    ('0' as int + d) as char
  }

  /** The `2006-01-02` rendering of a date whose year has at most four digits. */
  function FormatDate(d: Date): string
    requires d.year <= 9999 && d.month <= 99 && d.day <= 99
  {
    [DigitChar(d.year / 1000), DigitChar(d.year / 100 % 10), DigitChar(d.year / 10 % 10),
     DigitChar(d.year % 10), '-', DigitChar(d.month / 10), DigitChar(d.month % 10),
     '-', DigitChar(d.day / 10), DigitChar(d.day % 10)]
  }

  /** The decimal digits of a number below 100, most significant first. */
  lemma TwoDigits(a: nat, b: nat)
    requires a <= 9 && b <= 9
    ensures (10 * a + b) / 10 == a && (10 * a + b) % 10 == b
  {
  }

  /** The decimal digits of a number below 10000, most significant first. */
  lemma FourDigits(a: nat, b: nat, c: nat, e: nat)
    requires a <= 9 && b <= 9 && c <= 9 && e <= 9
    ensures var n := 1000 * a + 100 * b + 10 * c + e;
            n / 1000 == a && n / 100 % 10 == b && n / 10 % 10 == c && n % 10 == e
  {
    var n := 1000 * a + 100 * b + 10 * c + e;
    assert n / 10 == 100 * a + 10 * b + c;
    assert n / 100 == 10 * a + b;
    assert n / 1000 == a;
  }

  lemma DigitInverse(c: char)
    requires IsDigit(c)
    ensures DigitChar(DigitValue(c)) == c
  {
  }

  /** A number below 10000 is the sum of its four decimal digits, weighted. */
  lemma SplitFourDigits(y: nat)
    requires y <= 9999
    ensures y / 1000 <= 9
    ensures 1000 * (y / 1000) + 100 * (y / 100 % 10) + 10 * (y / 10 % 10) + y % 10 == y
  {
    assert y == 10 * (y / 10) + y % 10;
    assert y / 10 == 10 * (y / 100) + y / 10 % 10;
    assert y / 100 == 10 * (y / 1000) + y / 100 % 10;
  }

  /** Every valid date of a four-digit year is read back from its rendering. */
  lemma ParseFormatDate(d: Date)
    requires ValidDate(d) && d.year <= 9999
    ensures ParseDate(FormatDate(d)) == Some(d)
  {
    var s := FormatDate(d);
    SplitFourDigits(d.year);
    assert DateShape(s);
    var e := DateFields(s);
    assert e.year == d.year;
    assert e.month == d.month;
    assert e.day == d.day;
  }

  /** The date layout has exactly one spelling per date: a parsed string is its date's rendering. */
  lemma FormatParseDate(s: string)
    requires ParseDate(s).Some?
    ensures FormatDate(ParseDate(s).value) == s
  {
    var d := ParseDate(s).value;
    FourDigits(DigitValue(s[0]), DigitValue(s[1]), DigitValue(s[2]), DigitValue(s[3]));
    TwoDigits(DigitValue(s[5]), DigitValue(s[6]));
    TwoDigits(DigitValue(s[8]), DigitValue(s[9]));
    DigitInverse(s[0]); DigitInverse(s[1]); DigitInverse(s[2]); DigitInverse(s[3]);
    DigitInverse(s[5]); DigitInverse(s[6]); DigitInverse(s[8]); DigitInverse(s[9]);
    var f := FormatDate(d);
    assert f[0] == s[0] && f[1] == s[1] && f[2] == s[2] && f[3] == s[3] && f[4] == s[4];
    assert f[5] == s[5] && f[6] == s[6] && f[7] == s[7] && f[8] == s[8] && f[9] == s[9];
  }

  /** The `15:04` rendering of a clock reading, always with a two-digit hour. */
  function FormatClock(c: Clock): string
    requires c.hour <= 99 && c.minute <= 99
  {
    [DigitChar(c.hour / 10), DigitChar(c.hour % 10), ':', DigitChar(c.minute / 10), DigitChar(c.minute % 10)]
  }

  /** Every valid clock reading is read back from its rendering. */
  lemma ParseFormatClock(c: Clock)
    requires ValidClock(c)
    ensures ParseClock(FormatClock(c)) == Some(c)
  {
    var s := FormatClock(c);
    assert ClockShape(s);
    assert DigitValue(s[0]) == c.hour / 10 && DigitValue(s[1]) == c.hour % 10;
    assert DigitValue(s[3]) == c.minute / 10 && DigitValue(s[4]) == c.minute % 10;
    assert ClockFields(s) == c;
  }

  /**
   * An accepted time string is the two-digit rendering of its reading, or, for
   * an hour below 10, that rendering without the leading zero.
   */
  lemma FormatParseClock(s: string)
    requires ParseClock(s).Some?
    ensures var c := ParseClock(s).value;
            s == FormatClock(c) || (c.hour < 10 && s == FormatClock(c)[1..])
  {
    var c := ParseClock(s).value;
    var f := FormatClock(c);
    if |s| == 5 {
      TwoDigits(DigitValue(s[0]), DigitValue(s[1]));
      TwoDigits(DigitValue(s[3]), DigitValue(s[4]));
      DigitInverse(s[0]); DigitInverse(s[1]); DigitInverse(s[3]); DigitInverse(s[4]);
      assert f[0] == s[0] && f[1] == s[1] && f[2] == s[2] && f[3] == s[3] && f[4] == s[4];
    } else {
      TwoDigits(0, DigitValue(s[0]));
      TwoDigits(DigitValue(s[2]), DigitValue(s[3]));
      DigitInverse(s[0]); DigitInverse(s[2]); DigitInverse(s[3]);
      assert f[1..][0] == s[0] && f[1..][1] == s[1] && f[1..][2] == s[2] && f[1..][3] == s[3];
    }
  }
}
