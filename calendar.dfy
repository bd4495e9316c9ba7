/** Calendar dates as the backend compares them (`date` columns), and the `YYYY-MM-DD`
    text that requests carry. */
module Calendar {
  import opened Common
  import opened Text

  datatype CalDate = CalDate(year: int, month: int, day: int)

  /** A month as a `YYYY-MM` request field names it. */
  datatype YearMonth = YearMonth(year: int, month: int)

  /** Chronological order of dates (and of SQL `date` values). */
  predicate DateLe(a: CalDate, b: CalDate) {
    a.year < b.year
    || (a.year == b.year && a.month < b.month)
    || (a.year == b.year && a.month == b.month && a.day <= b.day)
  }

  /** A leap year of the Gregorian calendar. */
  predicate IsLeapYear(y: int) {
    y % 4 == 0 && (y % 100 != 0 || y % 400 == 0)
  }

  /** The number of days of a month of the Gregorian calendar. */
  function DaysInMonth(y: int, m: int): (n: int)
    requires 1 <= m <= 12
    ensures 28 <= n <= 31
    ensures n == 29 <==> m == 2 && IsLeapYear(y)
  {
    if m == 2 then (if IsLeapYear(y) then 29 else 28)
    else if m == 4 || m == 6 || m == 9 || m == 11 then 30
    else 31
  }

  /** A value PostgreSQL's `date` type accepts from `YYYY-MM-DD` text: a real day of the
      Gregorian calendar from year 1 to the type's last year, 5874897. Text such as
      "2026-13-01", "2026-02-30" or "0000-01-01" is refused as out of range. */
  predicate ValidDate(d: CalDate) {
    1 <= d.year <= 5874897 && 1 <= d.month <= 12 && 1 <= d.day <= DaysInMonth(d.year, d.month)
  }

  /** The first day of the month of a real date is a real date. */
  lemma MonthStartValid(d: CalDate)
    requires ValidDate(d)
    ensures ValidDate(MonthStart(d))
  {
  }

  /** February has its 29th day exactly in leap years, and never a 30th. */
  lemma FebruaryDays(y: int)
    requires 1 <= y <= 5874897
    ensures ValidDate(CalDate(y, 2, 29)) <==> IsLeapYear(y)
    ensures !ValidDate(CalDate(y, 2, 30)) && !ValidDate(CalDate(y, 13, 1)) && !ValidDate(CalDate(y, 0, 1))
  {
  }

  /** SQL's `date_trunc('month', d)`: the first day of the month of `d`. */
  function MonthStart(d: CalDate): (r: CalDate)
    ensures r.year == d.year && r.month == d.month && r.day == 1
  {
    d.(day := 1)
  }

  /** The stored first-of-month date of a plan month, `${month}-01`. */
  function PlanMonthOf(m: YearMonth): (r: CalDate)
    ensures r == MonthStart(CalDate(m.year, m.month, 1))
  {
    CalDate(m.year, m.month, 1)
  }

  /** SQL's `r BETWEEN date_trunc('month', d) AND d` is exactly "same year and month as `d`,
      on a day from 1 through the day of `d`". */
  lemma BetweenMonthStartAnd(r: CalDate, d: CalDate)
    ensures DateLe(MonthStart(d), r) && DateLe(r, d)
        <==> r.year == d.year && r.month == d.month && 1 <= r.day <= d.day
  {
  }

  /** The first day `${month}-01` of a requested month is a real date exactly when the
      month is 01..12 of a year from 1 on. */
  lemma PlanMonthValid(m: YearMonth)
    ensures ValidDate(PlanMonthOf(m)) <==> 1 <= m.year <= 5874897 && 1 <= m.month <= 12
  {
  }

  /** The `YYYY-MM-DD` text of a date: year unpadded, month and day padded to two digits. */
  function DateText(d: CalDate): string {
    IntToString(d.year) + "-" + PadStart2(IntToString(d.month)) + "-" + PadStart2(IntToString(d.day))
  }

  /** Reads text matching `^\d{4}-\d{2}-\d{2}$`, the format the request validators accept. */
  function ParseIsoDate(s: string): (r: Option<CalDate>)
    ensures r.Some? ==> 0 <= r.value.year <= 9999 && 0 <= r.value.month <= 99 && 0 <= r.value.day <= 99
  {
    if |s| == 10 && s[4] == '-' && s[7] == '-'
       && AllDigits(s[..4]) && AllDigits(s[5..7]) && AllDigits(s[8..])
    then
      DigitsBound(s[..4]);
      DigitsBound(s[5..7]);
      DigitsBound(s[8..]);
      Some(CalDate(DigitsValue(s[..4]), DigitsValue(s[5..7]), DigitsValue(s[8..])))
    else None
  }

  lemma {:induction false} DigitsBound(s: string)
    requires AllDigits(s)
    ensures |s| == 2 ==> DigitsValue(s) < 100
    ensures |s| == 4 ==> DigitsValue(s) < 10000
    decreases |s|
  {
    if s != [] {
      DigitsBound(s[..|s| - 1]);
      if |s| == 2 {
        assert DigitsValue(s[..1]) == s[0] as int - '0' as int;
      } else if |s| == 4 {
        var t := s[..3];
        assert t[..2] == s[..2];
        DigitsBound(s[..2]);
        assert DigitsValue(t) < 1000;
      }
    }
  }

  /** A digit run without a leading zero is the rendering of its own value. */
  lemma {:induction false} CanonicalDigits(s: string)
    requires AllDigits(s) && |s| >= 1 && (|s| == 1 || s[0] != '0')
    ensures NatToString(DigitsValue(s)) == s
    ensures |s| >= 2 ==> DigitsValue(s) >= 10
    decreases |s|
  {
    if |s| >= 2 {
      var t := s[..|s| - 1];
      assert t[0] == s[0];
      CanonicalDigits(t);
      if |t| == 1 {
        assert DigitsValue(t[..0]) == 0;
        assert DigitsValue(t) >= 1;
      }
      var n := DigitsValue(s);
      assert n / 10 == DigitsValue(t) && n % 10 == s[|s| - 1] as int - '0' as int;
      assert s == t + [s[|s| - 1]];
    } else {
      assert DigitsValue(s[..0]) == 0;
    }
  }

  /** A two-digit field reads back to a number that pads to the same field. */
  lemma TwoDigitsCanonical(f: string)
    requires |f| == 2 && AllDigits(f)
    ensures PadStart2(IntToString(DigitsValue(f))) == f
  {
    if f[0] != '0' {
      CanonicalDigits(f);
    } else {
      CanonicalDigits(f[1..]);
      assert f[..1] == "0";
      assert DigitsValue(f[..1]) == 0;
      assert DigitsValue(f) == DigitsValue(f[1..]);
      NatToStringLength(DigitsValue(f[1..]));
      assert f == "0" + f[1..];
    }
  }

  /** Parsing undoes rendering for four-digit years and two-digit months and days. */
  lemma FormatThenParse(d: CalDate)
    requires 1000 <= d.year <= 9999 && 0 <= d.month < 100 && 0 <= d.day < 100
    ensures ParseIsoDate(DateText(d)) == Some(d)
  {
    var y, m, dd := IntToString(d.year), PadStart2(IntToString(d.month)), PadStart2(IntToString(d.day));
    NatToStringLength(d.year);
    TwoDigitField(d.month);
    TwoDigitField(d.day);
    var s := DateText(d);
    assert s == y + "-" + m + "-" + dd;
    assert s[..4] == y && s[5..7] == m && s[8..] == dd;
  }

  /** Rendering undoes parsing when the year does not start with a zero. */
  lemma ParseThenFormat(s: string)
    requires ParseIsoDate(s).Some? && s[0] != '0'
    ensures DateText(ParseIsoDate(s).value) == s
  {
    var d := ParseIsoDate(s).value;
    CanonicalDigits(s[..4]);
    TwoDigitsCanonical(s[5..7]);
    TwoDigitsCanonical(s[8..]);
    assert s == s[..4] + "-" + s[5..7] + "-" + s[8..];
  }
}
