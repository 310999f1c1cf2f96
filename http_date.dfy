/**
 * Calendar dates as `datetime.strptime(s, "%Y-%m-%d")` reads them and as
 * `strftime("%a, %d %b %Y %H:%M:%S GMT")` writes them (the IMF-fixdate of
 * section 7.1.1.1 of RFC 7231) for the `Sunset` response header.
 *
 * Day numbering follows Python's proleptic Gregorian `date.toordinal()`
 * (0001-01-01 is day 1, a Monday) and `date.weekday()` (Monday is 0).
 */
module HttpDate {
  import opened Wrappers
  import opened Digits

  datatype Date = Date(year: int, month: int, day: int)

  predicate IsLeapYear(y: int) {
    y % 4 == 0 && (y % 100 != 0 || y % 400 == 0)
  }

  function DaysInYear(y: int): int {
    if IsLeapYear(y) then 366 else 365
  }

  function DaysInMonth(y: int, m: int): (n: int)
    requires 1 <= m <= 12
    ensures 28 <= n <= 31
    ensures n == 29 <==> m == 2 && IsLeapYear(y)
  {
    if m == 2 then (if IsLeapYear(y) then 29 else 28)
    else if m == 4 || m == 6 || m == 9 || m == 11 then 30
    else 31
  }

  /** The dates `datetime` accepts: years MINYEAR = 1 to MAXYEAR = 9999. */
  predicate ValidDate(d: Date) {
    1 <= d.year <= 9999 && 1 <= d.month <= 12 && 1 <= d.day <= DaysInMonth(d.year, d.month)
  }

  /** Days in the years before `y`. */
  function DaysBeforeYear(y: int): int
    requires y >= 1
  {
    var p := y - 1;
    p * 365 + p / 4 - p / 100 + p / 400
  }

  /** Days in the months of year `y` before month `m` (month 13 stands for the next year's start). */
  function DaysBeforeMonth(y: int, m: int): int
    requires 1 <= m <= 13
  {
    [0, 31, 59, 90, 120, 151, 181, 212, 243, 273, 304, 334, 365][m - 1]
      + (if m > 2 && IsLeapYear(y) then 1 else 0)
  }

  /**
   * The proleptic Gregorian day number of `d`; 0001-01-01 is day 1 and
   * 9999-12-31, the last date `datetime` represents, is day 3652059.
   */
  function Ordinal(d: Date): (o: int)
    requires ValidDate(d)
    ensures 1 <= o <= 3652059
  {
    DaysBeforeYear(d.year) + DaysBeforeMonth(d.year, d.month) + d.day
  }

  /** The day of the week, Monday = 0 to Sunday = 6. */
  function Weekday(d: Date): (w: int)
    requires ValidDate(d)
    ensures 0 <= w < 7
  {
    (Ordinal(d) + 6) % 7
  }

  /** The calendar day after `d`. */
  function NextDay(d: Date): Date
    requires ValidDate(d)
  {
    if d.day < DaysInMonth(d.year, d.month) then Date(d.year, d.month, d.day + 1)
    else if d.month < 12 then Date(d.year, d.month + 1, 1)
    else Date(d.year + 1, 1, 1)
  }

  lemma DaysBeforeYearStep(y: int)
    requires y >= 1
    ensures DaysBeforeYear(y + 1) == DaysBeforeYear(y) + DaysInYear(y)
  {
    FourStep(y);
    CenturyStep(y);
    QuadCenturyStep(y);
  }

  /** Counting multiples of 4, 100 and 400 up to `y` instead of up to `y - 1`. */
  lemma FourStep(y: int)
    ensures y / 4 == (y - 1) / 4 + (if y % 4 == 0 then 1 else 0)
  {
  }

  lemma CenturyStep(y: int)
    ensures y / 100 == (y - 1) / 100 + (if y % 100 == 0 then 1 else 0)
  {
  }

  lemma QuadCenturyStep(y: int)
    ensures y / 400 == (y - 1) / 400 + (if y % 400 == 0 then 1 else 0)
  {
  }

  /** Successive calendar days have successive day numbers and weekdays. */
  lemma NextDayOrdinal(d: Date)
    requires ValidDate(d) && d != Date(9999, 12, 31)
    ensures ValidDate(NextDay(d))
    ensures Ordinal(NextDay(d)) == Ordinal(d) + 1
    ensures Weekday(NextDay(d)) == (Weekday(d) + 1) % 7
  {
    var n := NextDay(d);
    if d.day < DaysInMonth(d.year, d.month) {
      assert n == Date(d.year, d.month, d.day + 1);
    } else if d.month < 12 {
      assert n == Date(d.year, d.month + 1, 1);
      assert DaysBeforeMonth(d.year, d.month + 1) == DaysBeforeMonth(d.year, d.month) + DaysInMonth(d.year, d.month);
    } else {
      assert n == Date(d.year + 1, 1, 1);
      DaysBeforeYearStep(d.year);
      assert DaysBeforeMonth(d.year, 12) + 31 == DaysInYear(d.year);
    }
    WeekdayStep(Ordinal(d));
  }

  lemma WeekdayStep(o: int)
    ensures (o + 1 + 6) % 7 == ((o + 6) % 7 + 1) % 7
  {
  }

  // ---------------------------------------------------------------------
  // The `YYYY-MM-DD` form of the version table

  /** The `YYYY-MM-DD` spelling of `d`. */
  function IsoDate(d: Date): (s: string)
    requires ValidDate(d)
    ensures |s| == 10 && s[4] == '-' && s[7] == '-'
  {
    PadDigits(d.year, 4) + "-" + PadDigits(d.month, 2) + "-" + PadDigits(d.day, 2)
  }

  /**
   * The date a zero-padded `YYYY-MM-DD` string names, or None otherwise. Only the
   * zero-padded form is read: `strptime` also accepts unpadded fields, and raises
   * only on a string that names no calendar day.
   */
  function ParseIsoDate(s: string): (r: Option<Date>)
    ensures r.Some? ==> ValidDate(r.value)
  {
    if |s| != 10 || s[4] != '-' || s[7] != '-' then None
    else
      var y, m, dd := ParseDigits(s[0..4]), ParseDigits(s[5..7]), ParseDigits(s[8..10]);
      if y.Some? && m.Some? && dd.Some? && ValidDate(Date(y.value, m.value, dd.value))
      then Some(Date(y.value, m.value, dd.value))
      else None
  }

  lemma IsoDateRoundTrip(d: Date)
    requires ValidDate(d)
    ensures ParseIsoDate(IsoDate(d)) == Some(d)
  {
    var s := IsoDate(d);
    assert s[0..4] == PadDigits(d.year, 4);
    assert s[5..7] == PadDigits(d.month, 2);
    assert s[8..10] == PadDigits(d.day, 2);
    ParsePadDigits(d.year, 4);
    ParsePadDigits(d.month, 2);
    ParsePadDigits(d.day, 2);
  }

  /** Every string the parser accepts is the canonical spelling of the date it yields. */
  lemma ParseIsoDateCanonical(s: string)
    requires ParseIsoDate(s).Some?
    ensures IsoDate(ParseIsoDate(s).value) == s
  {
    var d := ParseIsoDate(s).value;
    assert |s| == 10 && s[4] == '-' && s[7] == '-';
    assert ParseDigits(s[0..4]) == Some(d.year);
    assert ParseDigits(s[5..7]) == Some(d.month);
    assert ParseDigits(s[8..10]) == Some(d.day);
    PadParseDigits(s[0..4], d.year);
    PadParseDigits(s[5..7], d.month);
    PadParseDigits(s[8..10], d.day);
    assert s == s[0..4] + "-" + s[5..7] + "-" + s[8..10];
  }

  // ---------------------------------------------------------------------
  // IMF-fixdate, `Www, DD Mon YYYY 00:00:00 GMT`

  /** `%a` in the C locale for weekday `w`, Monday = 0. */
  function DayName(w: int): (s: string)
    requires 0 <= w < 7
    ensures |s| == 3
  {
    ["Mon", "Tue", "Wed", "Thu", "Fri", "Sat", "Sun"][w]
  }

  /** `%b` in the C locale for month `m`, January = 1. */
  function MonthName(m: int): (s: string)
    requires 1 <= m <= 12
    ensures |s| == 3
  {
    if m == 1 then "Jan" else if m == 2 then "Feb" else if m == 3 then "Mar"
    else if m == 4 then "Apr" else if m == 5 then "May" else if m == 6 then "Jun"
    else if m == 7 then "Jul" else if m == 8 then "Aug" else if m == 9 then "Sep"
    else if m == 10 then "Oct" else if m == 11 then "Nov" else "Dec"
  }

  /** The time-of-day and zone suffix: a date parsed without a time is midnight. */
  const MidnightGmt: string := " 00:00:00 GMT"

  /** The month number whose abbreviated name is `name`. */
  function MonthNumber(name: string): (r: Option<int>)
    ensures r.Some? ==> 1 <= r.value <= 12 && MonthName(r.value) == name
    ensures r.None? ==> forall m :: 1 <= m <= 12 ==> MonthName(m) != name
  {
    if name == "Jan" then Some(1) else if name == "Feb" then Some(2)
    else if name == "Mar" then Some(3) else if name == "Apr" then Some(4)
    else if name == "May" then Some(5) else if name == "Jun" then Some(6)
    else if name == "Jul" then Some(7) else if name == "Aug" then Some(8)
    else if name == "Sep" then Some(9) else if name == "Oct" then Some(10)
    else if name == "Nov" then Some(11) else if name == "Dec" then Some(12)
    else None
  }

  /** The `Sunset` header value for midnight GMT at the start of `d`. */
  function ImfFixdate(d: Date): (s: string)
    requires ValidDate(d)
    ensures |s| == 29
    ensures s[0..3] == DayName(Weekday(d)) && s[3..5] == ", "
    ensures s[5..7] == PadDigits(d.day, 2) && s[7] == ' '
    ensures s[8..11] == MonthName(d.month) && s[11] == ' '
    ensures s[12..16] == PadDigits(d.year, 4) && s[16..] == MidnightGmt
  {
    var www, dd, mon, yyyy := DayName(Weekday(d)), PadDigits(d.day, 2), MonthName(d.month), PadDigits(d.year, 4);
    var s := www + ", " + dd + " " + mon + " " + yyyy + MidnightGmt;
    assert s[5..7] == dd && s[8..11] == mon && s[12..16] == yyyy && s[16..] == MidnightGmt;
    s
  }

  /**
   * Reads an IMF-fixdate at midnight GMT back into a date; None unless the
   * weekday name agrees with the date.
   */
  function ParseImfFixdate(s: string): (r: Option<Date>)
    ensures r.Some? ==> ValidDate(r.value)
  {
    if |s| != 29 || s[3..5] != ", " || s[7] != ' ' || s[11] != ' ' || s[16..] != MidnightGmt then None
    else
      var dd, m, y := ParseDigits(s[5..7]), MonthNumber(s[8..11]), ParseDigits(s[12..16]);
      if dd.Some? && m.Some? && y.Some? then
        var d := Date(y.value, m.value, dd.value);
        if ValidDate(d) && s[0..3] == DayName(Weekday(d)) then Some(d) else None
      else None
  }

  lemma ImfFixdateRoundTrip(d: Date)
    requires ValidDate(d)
    ensures ParseImfFixdate(ImfFixdate(d)) == Some(d)
  {
    var s := ImfFixdate(d);
    ParsePadDigits(d.day, 2);
    ParsePadDigits(d.year, 4);
    MonthNumberOfName(d.month);
    assert ParseDigits(s[5..7]) == Some(d.day);
    assert MonthNumber(s[8..11]) == Some(d.month);
    assert ParseDigits(s[12..16]) == Some(d.year);
  }

  lemma MonthNumberOfName(m: int)
    requires 1 <= m <= 12
    ensures MonthNumber(MonthName(m)) == Some(m)
  {
  }

  /** A parsed IMF-fixdate is exactly the string the formatter writes for that date. */
  lemma ParseImfFixdateCanonical(s: string)
    requires ParseImfFixdate(s).Some?
    ensures ImfFixdate(ParseImfFixdate(s).value) == s
  {
    var d := ParseImfFixdate(s).value;
    assert |s| == 29 && s[3..5] == ", " && s[7] == ' ' && s[11] == ' ' && s[16..] == MidnightGmt;
    assert ParseDigits(s[5..7]) == Some(d.day);
    assert MonthNumber(s[8..11]) == Some(d.month);
    assert ParseDigits(s[12..16]) == Some(d.year);
    assert s[0..3] == DayName(Weekday(d));
    PadParseDigits(s[5..7], d.day);
    PadParseDigits(s[12..16], d.year);
    assert s == s[0..3] + s[3..5] + s[5..7] + [s[7]] + s[8..11] + [s[11]] + s[12..16] + s[16..];
  }

  /** Different dates get different `Sunset` values. */
  lemma ImfFixdateInjective(d1: Date, d2: Date)
    requires ValidDate(d1) && ValidDate(d2) && ImfFixdate(d1) == ImfFixdate(d2)
    ensures d1 == d2
  {
    ImfFixdateRoundTrip(d1);
    ImfFixdateRoundTrip(d2);
  }

  /** The Unix epoch, 1970-01-01, was a Thursday; 2024-05-01 a Wednesday. */
  lemma KnownWeekdays()
    ensures Weekday(Date(1970, 1, 1)) == 3
    ensures Weekday(Date(2024, 5, 1)) == 2
  {
    assert DaysBeforeYear(1970) == 719162;
    assert Ordinal(Date(1970, 1, 1)) == 719163;
    assert DaysBeforeYear(2024) == 738885;
    assert DaysBeforeMonth(2024, 5) == 121;
    assert Ordinal(Date(2024, 5, 1)) == 739007;
  }

  /** The `Sunset` value for a table entry of `2024-05-01`. */
  lemma SunsetExample()
    ensures ImfFixdate(Date(2024, 5, 1)) == "Wed, 01 May 2024 00:00:00 GMT"
  {
    SunsetExampleFields();
    ImfFixdateFields(Date(2024, 5, 1), "Wed", "01", "May", "2024");
    SunsetExampleText();
  }

  lemma SunsetExampleText()
    ensures "Wed" + ", " + "01" + " " + "May" + " " + "2024" + MidnightGmt == "Wed, 01 May 2024 00:00:00 GMT"
  {
  }

  /** An IMF-fixdate is determined by its weekday, day, month and year fields. */
  lemma ImfFixdateFields(d: Date, www: string, dd: string, mon: string, yyyy: string)
    requires ValidDate(d)
    requires ImfFixdate(d)[0..3] == www && ImfFixdate(d)[5..7] == dd
    requires ImfFixdate(d)[8..11] == mon && ImfFixdate(d)[12..16] == yyyy
    ensures ImfFixdate(d) == www + ", " + dd + " " + mon + " " + yyyy + MidnightGmt
  {
    var s := ImfFixdate(d);
    assert s == s[0..3] + s[3..5] + s[5..7] + [s[7]] + s[8..11] + [s[11]] + s[12..16] + s[16..];
  }

  lemma SunsetExampleFields()
    ensures ImfFixdate(Date(2024, 5, 1))[0..3] == "Wed"
    ensures ImfFixdate(Date(2024, 5, 1))[5..7] == "01"
    ensures ImfFixdate(Date(2024, 5, 1))[8..11] == "May"
    ensures ImfFixdate(Date(2024, 5, 1))[12..16] == "2024"
  {
    KnownWeekdays();
    PaddedExamples();
  }

  lemma PaddedExamples()
    ensures PadDigits(1, 2) == "01" && PadDigits(2024, 4) == "2024"
  {
    assert PadDigits(1, 2) == PadDigits(0, 1) + "1";
    assert PadDigits(2024, 4) == PadDigits(202, 3) + "4";
    assert PadDigits(202, 3) == PadDigits(20, 2) + "2";
    assert PadDigits(20, 2) == PadDigits(2, 1) + "0";
  }
}
