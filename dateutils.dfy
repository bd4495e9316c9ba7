/** The dashboard's local-date formatter (FrontEnd/src/utils/dateUtils.ts). A JavaScript
    `Date` is represented by the three local-time components the formatter reads. */
module DateUtils {
  import opened Common
  import opened Text
  import opened Calendar

  /** `getFullYear()`, `getMonth()` (0 for January) and `getDate()` of a `Date`. */
  datatype LocalDate = LocalDate(fullYear: int, month: int, date: int)

  /** The ranges a JavaScript `Date` guarantees for its month and day-of-month. */
  predicate ValidLocal(d: LocalDate) {
    0 <= d.month <= 11 && 1 <= d.date <= 31
  }

  /** `formatLocalDate`: the year, a dash, the 1-based month padded to two digits, a dash and
      the day padded to two digits. */
  function FormatLocalDate(d: LocalDate): (r: string)
    ensures ValidLocal(d) && d.fullYear >= 0 ==>
      && |r| >= 7 && r[|r| - 6] == '-' && r[|r| - 3] == '-'
      && r[..|r| - 6] == NatToString(d.fullYear)
      && AllDigits(r[|r| - 5..|r| - 3]) && DigitsValue(r[|r| - 5..|r| - 3]) == d.month + 1
      && AllDigits(r[|r| - 2..]) && DigitsValue(r[|r| - 2..]) == d.date
    ensures ValidLocal(d) && 1000 <= d.fullYear <= 9999 ==>
      && |r| == 10 && r[4] == '-' && r[7] == '-'
      && ParseIsoDate(r) == Some(CalDate(d.fullYear, d.month + 1, d.date))
  {
    FormatFields(d);
    IntToString(d.fullYear) + "-" + PadStart2(IntToString(d.month + 1)) + "-" + PadStart2(IntToString(d.date))
  }

  /** The field layout of the formatted text, for `FormatLocalDate`'s contract. */
  lemma FormatFields(d: LocalDate)
    ensures var r := IntToString(d.fullYear) + "-" + PadStart2(IntToString(d.month + 1)) + "-" + PadStart2(IntToString(d.date));
      && (ValidLocal(d) && d.fullYear >= 0 ==>
        && |r| >= 7 && r[|r| - 6] == '-' && r[|r| - 3] == '-'
        && r[..|r| - 6] == NatToString(d.fullYear)
        && AllDigits(r[|r| - 5..|r| - 3]) && DigitsValue(r[|r| - 5..|r| - 3]) == d.month + 1
        && AllDigits(r[|r| - 2..]) && DigitsValue(r[|r| - 2..]) == d.date)
      && (ValidLocal(d) && 1000 <= d.fullYear <= 9999 ==>
        && |r| == 10 && r[4] == '-' && r[7] == '-'
        && ParseIsoDate(r) == Some(CalDate(d.fullYear, d.month + 1, d.date)))
  {
    var year := IntToString(d.fullYear);
    var month := PadStart2(IntToString(d.month + 1));
    var day := PadStart2(IntToString(d.date));
    var r := year + "-" + month + "-" + day;
    if ValidLocal(d) && d.fullYear >= 0 {
      TwoDigitField(d.month + 1);
      TwoDigitField(d.date);
      assert r[..|r| - 6] == year && r[|r| - 5..|r| - 3] == month && r[|r| - 2..] == day;
      if 1000 <= d.fullYear <= 9999 {
        assert r == DateText(CalDate(d.fullYear, d.month + 1, d.date));
        FormatThenParse(CalDate(d.fullYear, d.month + 1, d.date));
        NatToStringLength(d.fullYear);
      }
    }
  }

  /** Months 0..11 render as the fields "01".."12": two digits carrying the 1-based month,
      with a leading "0" exactly for January through September. */
  lemma MonthFieldRange(m: int)
    requires 0 <= m <= 11
    ensures var f := PadStart2(IntToString(m + 1));
      |f| == 2 && AllDigits(f) && DigitsValue(f) == m + 1
      && (m < 9 ==> f[0] == '0') && (m >= 9 ==> f[0] == '1')
  {
    TwoDigitField(m + 1);
    assert IntToString(m + 1) == NatToString(m + 1);
    if m < 9 {
      NatToStringLength(m + 1);
    } else {
      TeenDigits(m + 1);
    }
  }

  /** Days 1..31 render as the fields "01".."31". */
  lemma DayFieldRange(day: int)
    requires 1 <= day <= 31
    ensures var f := PadStart2(IntToString(day));
      |f| == 2 && AllDigits(f) && DigitsValue(f) == day && '0' <= f[0] <= '3'
  {
    TwoDigitField(day);
    NatToStringLength(day);
  }

  /** Two dates with four-digit years format to the same text only if they are the same date. */
  lemma FormatLocalDateInjective(a: LocalDate, b: LocalDate)
    requires ValidLocal(a) && ValidLocal(b)
    requires 1000 <= a.fullYear <= 9999 && 1000 <= b.fullYear <= 9999
    requires FormatLocalDate(a) == FormatLocalDate(b)
    ensures a == b
  {
  }

  /** `getTodayLocalDate`: today's date in local time, with the clock reading passed in. */
  function GetTodayLocalDate(now: LocalDate): (r: string)
    ensures ValidLocal(now) && 1000 <= now.fullYear <= 9999 ==>
      |r| == 10 && ParseIsoDate(r) == Some(CalDate(now.fullYear, now.month + 1, now.date))
  {
    FormatLocalDate(now)
  }
}
