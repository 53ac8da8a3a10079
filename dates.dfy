/**
  Calendar dates as the playlist's `added_at` timestamps carry them once
  parsed, and their `MM/DD/YYYY` rendering, which the pipeline sorts by and
  writes to the sheet.
 */
module Dates {
  import opened Wrappers
  import opened Text

  datatype Date = Date(year: int, month: int, day: int)

  predicate IsLeapYear(y: int) {
    y % 4 == 0 && (y % 100 != 0 || y % 400 == 0)
  }

  function DaysInMonth(y: int, m: int): int {
    if m == 2 then (if IsLeapYear(y) then 29 else 28)
    else if m == 4 || m == 6 || m == 9 || m == 11 then 30
    else 31
  }

  /** The dates a parsed timestamp can hold: years 1 to 9999 of the Gregorian calendar. */
  predicate ValidDate(d: Date) {
    1 <= d.year <= 9999 && 1 <= d.month <= 12 && 1 <= d.day <= DaysInMonth(d.year, d.month)
  }

  type CalendarDate = d: Date | ValidDate(d) witness Date(2017, 1, 1)

  /** Chronological order: earlier year, then earlier month, then earlier day. */
  predicate Before(a: Date, b: Date) {
    a.year < b.year || (a.year == b.year && (a.month < b.month || (a.month == b.month && a.day < b.day)))
  }

  /**
    The order in which the rendered strings sort: month first, then day, then
    year, because the rendering puts the year last.
   */
  predicate KeyBefore(a: Date, b: Date) {
    a.month < b.month || (a.month == b.month && (a.day < b.day || (a.day == b.day && a.year < b.year)))
  }

  /** `strftime('%m/%d/%Y')`: two-digit month, two-digit day, four-digit year. */
  function FormatDate(d: CalendarDate): (s: string)
    ensures |s| == 10 && s[2] == '/' && s[5] == '/'
    ensures AllDigits(s[..2]) && AllDigits(s[3..5]) && AllDigits(s[6..])
  {
    var r := ZeroPad(d.month, 2) + ("/" + (ZeroPad(d.day, 2) + ("/" + ZeroPad(d.year, 4))));
    assert r[..2] == ZeroPad(d.month, 2);
    assert r[3..5] == ZeroPad(d.day, 2);
    assert r[6..] == ZeroPad(d.year, 4);
    r
  }

  /** Reads an `MM/DD/YYYY` string back, refusing anything that is not a valid date. */
  function ParseDate(s: string): Option<CalendarDate> {
    if |s| == 10 && s[2] == '/' && s[5] == '/'
       && AllDigits(s[..2]) && AllDigits(s[3..5]) && AllDigits(s[6..])
    then
      var d := Date(DecimalValue(s[6..]), DecimalValue(s[..2]), DecimalValue(s[3..5]));
      if ValidDate(d) then Some(d) else None
    else None
  }

  /** The rendering loses nothing: parsing it gives the date back. */
  lemma FormatThenParse(d: CalendarDate)
    ensures ParseDate(FormatDate(d)) == Some(d)
  {
    var s := FormatDate(d);
    assert s[..2] == ZeroPad(d.month, 2);
    assert s[3..5] == ZeroPad(d.day, 2);
    assert s[6..] == ZeroPad(d.year, 4);
    ZeroPadValue(d.month, 2);
    ZeroPadValue(d.day, 2);
    ZeroPadValue(d.year, 4);
  }

  /** Every string that parses is the rendering of the date it parses to. */
  lemma ParseThenFormat(s: string, d: CalendarDate)
    requires ParseDate(s) == Some(d)
    ensures FormatDate(d) == s
  {
    var m, dd, y := s[..2], s[3..5], s[6..];
    assert d.month == DecimalValue(m) && d.day == DecimalValue(dd) && d.year == DecimalValue(y);
    DecimalValuePad(m);
    DecimalValuePad(dd);
    DecimalValuePad(y);
    DateStringFields(s);
  }

  /** A ten-character string with `/` at positions 2 and 5 is its three fields joined by `/`. */
  lemma DateStringFields(s: string)
    requires |s| == 10 && s[2] == '/' && s[5] == '/'
    ensures s == s[..2] + ("/" + (s[3..5] + ("/" + s[6..])))
  {
    var r := s[..2] + ("/" + (s[3..5] + ("/" + s[6..])));
    assert |r| == 10;
    forall k | 0 <= k < 10 ensures r[k] == s[k] {
      if k < 2 {
      } else if k == 2 {
      } else if k < 5 {
        assert r[k] == s[3..5][k - 3];
      } else if k == 5 {
      } else {
        assert r[k] == s[6..][k - 6];
      }
    }
  }

  /** The sort key orders dates by month, then day, then year. */
  lemma DateKeyOrder(a: CalendarDate, b: CalendarDate)
    ensures LexLess(FormatDate(a), FormatDate(b)) <==> KeyBefore(a, b)
  {
    var ma, mb := ZeroPad(a.month, 2), ZeroPad(b.month, 2);
    var da, db := ZeroPad(a.day, 2), ZeroPad(b.day, 2);
    var ya, yb := ZeroPad(a.year, 4), ZeroPad(b.year, 4);
    var ta, tb := "/" + ya, "/" + yb;
    var ra, rb := "/" + (da + ta), "/" + (db + tb);
    LexLessConcat(ma, mb, ra, rb);
    LexLessConcat("/", "/", da + ta, db + tb);
    LexLessIrreflexive("/");
    LexLessConcat(da, db, ta, tb);
    LexLessConcat("/", "/", ya, yb);
    ZeroPadOrder(a.month, b.month, 2);
    ZeroPadOrder(a.day, b.day, 2);
    ZeroPadOrder(a.year, b.year, 4);
    ZeroPadInjective(a.month, b.month, 2);
    ZeroPadInjective(a.day, b.day, 2);
    assert ra == rb <==> da + ta == db + tb;
    assert da + ta == db + tb <==> da == db && ta == tb by {
      if da + ta == db + tb {
        assert da == (da + ta)[..2] && db == (db + tb)[..2];
        assert ta == (da + ta)[2..] && tb == (db + tb)[2..];
      }
    }
  }

  /** Within one year the sort key is chronological. */
  lemma SameYearKeyIsChronological(a: CalendarDate, b: CalendarDate)
    requires a.year == b.year
    ensures LexLess(FormatDate(a), FormatDate(b)) <==> Before(a, b)
  {
    DateKeyOrder(a, b);
  }

  /**
    Across a year boundary it is not: 12/01/2017 comes before 02/01/2018 in
    time, yet its rendering sorts after.
   */
  lemma KeyIsNotChronological()
    ensures Before(Date(2017, 12, 1), Date(2018, 2, 1))
    ensures LexLess(FormatDate(Date(2018, 2, 1)), FormatDate(Date(2017, 12, 1)))
  {
    DateKeyOrder(Date(2018, 2, 1), Date(2017, 12, 1));
  }
}
