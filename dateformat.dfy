/** `formatDate` (static/js/app.js): a bar's date as `YYYYMMDD`. Parsing the date string
    with `new Date` happens before this model starts; the calendar fields arrive parsed. */
module DateFormat {
  import opened Common
  import opened JsText

  /** What `getFullYear()`, `getMonth()` and `getDate()` return: the month is 0-based. */
  datatype CalendarDate = CalendarDate(year: nat, monthIndex: nat, day: nat)

  predicate ValidDate(d: CalendarDate) {
    d.monthIndex < 12 && 1 <= d.day <= 31
  }

  /** `String(n).padStart(2, '0')`. */
  function TwoDigits(n: nat): string {
    PadStart(DecimalString(n), 2, '0')
  }

  /** `${yyyy}${mm}${dd}` with the 1-based month. */
  function FormatDate(d: CalendarDate): string {
    DecimalString(d.year) + TwoDigits(d.monthIndex + 1) + TwoDigits(d.day)
  }

  /** A number below 100 always takes exactly two characters, both digits, and reads back
      as itself. */
  lemma TwoDigitsExact(n: nat)
    requires n < 100
    ensures |TwoDigits(n)| == 2
    ensures Digits(TwoDigits(n))
    ensures ParseDecimal(TwoDigits(n)) == n
  {
    DecimalStringLength(n);
    DecimalStringSpec(n);
    ParseDecimalString(n);
    if n < 10 {
      assert TwoDigits(n) == "0" + DecimalString(n);
      ParseLeadingZero(DecimalString(n));
    }
  }

  /** Reads formatted text back into calendar fields: the last four digits are the month
      and the day, everything before them the year; month `00` has no reading. */
  function ParseDate(s: string): Option<CalendarDate>
    requires |s| >= 5 && Digits(s)
  {
    var month := ParseDecimal(s[|s| - 4..|s| - 2]);
    if month == 0 then None
    else Some(CalendarDate(ParseDecimal(s[..|s| - 4]), month - 1, ParseDecimal(s[|s| - 2..])))
  }

  /** The output is all digits: the year in as many digits as it needs, then the 1-based
      month and the day each padded to two digits; a four-digit year gives eight digits. */
  lemma FormatDateLayout(d: CalendarDate)
    requires ValidDate(d)
    ensures |FormatDate(d)| == |DecimalString(d.year)| + 4
    ensures 1000 <= d.year <= 9999 ==> |FormatDate(d)| == 8
    ensures Digits(FormatDate(d))
    ensures FormatDate(d)[..|FormatDate(d)| - 4] == DecimalString(d.year)
    ensures FormatDate(d)[|FormatDate(d)| - 4..|FormatDate(d)| - 2] == TwoDigits(d.monthIndex + 1)
    ensures FormatDate(d)[|FormatDate(d)| - 2..] == TwoDigits(d.day)
  {
    var y := DecimalString(d.year);
    DecimalStringLength(d.year);
    ParseDecimalString(d.year);
    TwoDigitsExact(d.monthIndex + 1);
    TwoDigitsExact(d.day);
    var s := FormatDate(d);
    assert s[..|y|] == y;
    assert s[|y|..|y| + 2] == TwoDigits(d.monthIndex + 1);
    assert s[|y| + 2..] == TwoDigits(d.day);
    forall i | 0 <= i < |s| ensures IsDigit(s[i]) {
      if i < |y| {
        assert s[i] == y[i];
      } else if i < |y| + 2 {
        assert s[i] == s[|y|..|y| + 2][i - |y|];
      } else {
        assert s[i] == s[|y| + 2..][i - |y| - 2];
      }
    }
  }

  /** Reading the formatted date back gives the same date, whatever the year's length. */
  lemma FormatDateRoundTrip(d: CalendarDate)
    requires ValidDate(d)
    ensures |FormatDate(d)| >= 5 && Digits(FormatDate(d))
    ensures ParseDate(FormatDate(d)) == Some(d)
  {
    FormatDateLayout(d);
    ParseDecimalString(d.year);
    TwoDigitsExact(d.monthIndex + 1);
    TwoDigitsExact(d.day);
  }

  /** Two dates with different fields never format alike, so the label of a bar
      identifies its date. */
  lemma FormatDateInjective(d1: CalendarDate, d2: CalendarDate)
    requires ValidDate(d1) && ValidDate(d2)
    requires FormatDate(d1) == FormatDate(d2)
    ensures d1 == d2
  {
    FormatDateRoundTrip(d1);
    FormatDateRoundTrip(d2);
    assert Some(d1) == ParseDate(FormatDate(d1)) == Some(d2);
  }
}
