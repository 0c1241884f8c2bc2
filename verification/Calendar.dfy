/** Calendar dates as day numbers, with the proleptic Gregorian conversion
    that JavaScript's `Date` uses, and the two string helpers of the chart:
    `getDateAtNoon` (read "YYYY-MM-DD" as a local date) and `formatDate`
    (print a date as "YYYY-MM-DD" with a zero-padded month and day).

    A `Date` at local noon is identified with its calendar day; the
    time-of-day and the time zone never change which day it is. */
module Calendar {
  import opened Wrappers
  import opened Strings

  /** A calendar day, counted from 1970-01-01 (day 0, a Thursday). */
  type Day = int

  datatype Civil = Civil(year: int, month: int, day: int)

  predicate IsLeapYear(y: int) {
    y % 4 == 0 && (y % 100 != 0 || y % 400 == 0)
  }

  function DaysInYear(y: int): int {
    if IsLeapYear(y) then 366 else 365
  }

  function DaysInMonth(y: int, m: int): int
    requires 1 <= m <= 12
  {
    if m == 2 then (if IsLeapYear(y) then 29 else 28)
    else if m == 4 || m == 6 || m == 9 || m == 11 then 30
    else 31
  }

  /** A real calendar date: month 1..12 and a day that month has. */
  predicate ValidCivil(c: Civil) {
    1 <= c.month <= 12 && 1 <= c.day <= DaysInMonth(c.year, c.month)
  }

  /** Day number of January 1 of year y: the lengths of the years from
      1970 up to y are added, or those from y up to 1969 are taken away. */
  function DaysBeforeYear(y: int): Day
    decreases if y >= 1970 then y - 1970 else 1970 - y
  {
    if y == 1970 then 0
    else if y > 1970 then DaysBeforeYear(y - 1) + DaysInYear(y - 1)
    else DaysBeforeYear(y + 1) - DaysInYear(y)
  }

  lemma DaysBeforeYearStep(y: int)
    ensures DaysBeforeYear(y + 1) == DaysBeforeYear(y) + DaysInYear(y)
  {
  }

  /** Leap years counted up to year x (a difference of two of these counts
      the leap years in between). */
  function LeapYearsThrough(x: int): int {
    x / 4 - x / 100 + x / 400
  }

  lemma DivStep(y: int)
    ensures LeapYearsThrough(y) - LeapYearsThrough(y - 1) == if IsLeapYear(y) then 1 else 0
  {
    assert y / 4 - (y - 1) / 4 == if y % 4 == 0 then 1 else 0;
    assert y / 100 - (y - 1) / 100 == if y % 100 == 0 then 1 else 0;
    assert y / 400 - (y - 1) / 400 == if y % 400 == 0 then 1 else 0;
    assert y % 100 == 0 ==> y % 4 == 0;
    assert y % 400 == 0 ==> y % 100 == 0;
  }

  /** The usual closed form: 365 days a year plus one per leap year. */
  lemma {:induction false} DaysBeforeYearClosedForm(y: int)
    ensures DaysBeforeYear(y) == 365 * (y - 1970) + LeapYearsThrough(y - 1) - LeapYearsThrough(1969)
    decreases if y >= 1970 then y - 1970 else 1970 - y
  {
    if y > 1970 {
      DaysBeforeYearClosedForm(y - 1);
      DivStep(y - 1);
    } else if y < 1970 {
      DaysBeforeYearClosedForm(y + 1);
      DivStep(y);
    }
  }

  lemma {:induction false} DaysBeforeYearMonotone(a: int, b: int)
    requires a <= b
    ensures DaysBeforeYear(a) + 365 * (b - a) <= DaysBeforeYear(b)
    decreases b - a
  {
    if a < b {
      DaysBeforeYearStep(a);
      DaysBeforeYearMonotone(a + 1, b);
    }
  }

  /** Days of year y before the first of month m. */
  function DaysBeforeMonth(y: int, m: int): int
    requires 1 <= m <= 12
  {
    [0, 31, 59, 90, 120, 151, 181, 212, 243, 273, 304, 334][m - 1]
    + (if m > 2 && IsLeapYear(y) then 1 else 0)
  }

  lemma DaysBeforeMonthStep(y: int, m: int)
    requires 1 <= m < 12
    ensures DaysBeforeMonth(y, m + 1) == DaysBeforeMonth(y, m) + DaysInMonth(y, m)
  {
  }

  lemma DaysBeforeMonthLast(y: int)
    ensures DaysBeforeMonth(y, 12) + DaysInMonth(y, 12) == DaysInYear(y)
  {
  }

  lemma DaysBeforeMonthMonotone(y: int, m1: int, m2: int)
    requires 1 <= m1 < m2 <= 12
    ensures DaysBeforeMonth(y, m1) + DaysInMonth(y, m1) <= DaysBeforeMonth(y, m2)
  {
  }

  lemma DaysBeforeMonthBound(y: int, m: int)
    requires 1 <= m <= 12
    ensures DaysBeforeMonth(y, m) + DaysInMonth(y, m) <= DaysInYear(y)
  {
  }

  /** The day number of a date whose month is in range (the day may lie
      outside the month, and then counts on from the month's first day). */
  function DaysFromCivil(c: Civil): Day
    requires 1 <= c.month <= 12
  {
    DaysBeforeYear(c.year) + DaysBeforeMonth(c.year, c.month) + c.day - 1
  }

  /** ECMAScript's MakeDay with a 1-based month: `new Date(year, month - 1,
      day)` for any integers, a month outside 1..12 moving the year. */
  function MakeDay(year: int, month: int, day: int): (r: Day)
    ensures 1 <= month <= 12 ==> r == DaysFromCivil(Civil(year, month, day))
  {
    DaysFromCivil(Civil(year + (month - 1) / 12, (month - 1) % 12 + 1, day))
  }

  function YearUp(y: int, n: Day): int
    requires DaysBeforeYear(y) <= n
    decreases n - DaysBeforeYear(y)
  {
    DaysBeforeYearStep(y);
    if n < DaysBeforeYear(y + 1) then y else YearUp(y + 1, n)
  }

  lemma {:induction false} YearUpBounds(y: int, n: Day)
    requires DaysBeforeYear(y) <= n
    ensures DaysBeforeYear(YearUp(y, n)) <= n < DaysBeforeYear(YearUp(y, n) + 1)
    decreases n - DaysBeforeYear(y)
  {
    DaysBeforeYearStep(y);
    if n >= DaysBeforeYear(y + 1) {
      YearUpBounds(y + 1, n);
    }
  }

  function YearDown(y: int, n: Day): int
    requires n < DaysBeforeYear(y + 1)
    decreases DaysBeforeYear(y + 1) - n
  {
    DaysBeforeYearStep(y);
    if DaysBeforeYear(y) <= n then y else YearDown(y - 1, n)
  }

  lemma {:induction false} YearDownBounds(y: int, n: Day)
    requires n < DaysBeforeYear(y + 1)
    ensures DaysBeforeYear(YearDown(y, n)) <= n < DaysBeforeYear(YearDown(y, n) + 1)
    decreases DaysBeforeYear(y + 1) - n
  {
    DaysBeforeYearStep(y);
    if DaysBeforeYear(y) > n {
      YearDownBounds(y - 1, n);
    }
  }

  /** The year that day n falls in: searched upwards from 1970 for days on
      or after 1970-01-01, downwards from 1969 for days before it. */
  function YearOf(n: Day): int {
    if n >= 0 then YearUp(1970, n) else YearDown(1969, n)
  }

  lemma YearOfBounds(n: Day)
    ensures DaysBeforeYear(YearOf(n)) <= n < DaysBeforeYear(YearOf(n) + 1)
  {
    if n >= 0 {
      YearUpBounds(1970, n);
    } else {
      YearDownBounds(1969, n);
    }
  }

  /** Month and day of the day that lies r days after the first of month m. */
  function MonthOf(y: int, r: int, m: int): (int, int)
    requires 1 <= m <= 12
    requires 0 <= r < DaysInYear(y) - DaysBeforeMonth(y, m)
    decreases 12 - m
  {
    if r < DaysInMonth(y, m) then (m, r + 1)
    else
      if m == 12 then DaysBeforeMonthLast(y); assert false; (m, r + 1)
      else
        DaysBeforeMonthStep(y, m);
        MonthOf(y, r - DaysInMonth(y, m), m + 1)
  }

  lemma {:induction false} MonthOfBounds(y: int, r: int, m: int)
    requires 1 <= m <= 12
    requires 0 <= r < DaysInYear(y) - DaysBeforeMonth(y, m)
    ensures var md := MonthOf(y, r, m);
      && m <= md.0 <= 12 && 1 <= md.1 <= DaysInMonth(y, md.0)
      && DaysBeforeMonth(y, md.0) + md.1 - 1 == DaysBeforeMonth(y, m) + r
    decreases 12 - m
  {
    if r >= DaysInMonth(y, m) {
      if m == 12 {
        DaysBeforeMonthLast(y);
        assert false;
      } else {
        DaysBeforeMonthStep(y, m);
        MonthOfBounds(y, r - DaysInMonth(y, m), m + 1);
      }
    }
  }

  /** The calendar date of day n. */
  function CivilFromDays(n: Day): Civil {
    var y := YearOf(n);
    YearOfBounds(n);
    DaysBeforeYearStep(y);
    var md := MonthOf(y, n - DaysBeforeYear(y), 1);
    Civil(y, md.0, md.1)
  }

  /** Day n's calendar date is a real date and has day number n. */
  lemma CivilFromDaysSound(n: Day)
    ensures ValidCivil(CivilFromDays(n))
    ensures DaysFromCivil(CivilFromDays(n)) == n
  {
    var y := YearOf(n);
    YearOfBounds(n);
    DaysBeforeYearStep(y);
    MonthOfBounds(y, n - DaysBeforeYear(y), 1);
  }

  lemma DaysFromCivilInYear(c: Civil)
    requires ValidCivil(c)
    ensures DaysBeforeYear(c.year) <= DaysFromCivil(c) < DaysBeforeYear(c.year + 1)
  {
    DaysBeforeMonthBound(c.year, c.month);
    DaysBeforeYearStep(c.year);
  }

  lemma YearUnique(y1: int, y2: int, n: Day)
    requires DaysBeforeYear(y1) <= n < DaysBeforeYear(y1 + 1)
    requires DaysBeforeYear(y2) <= n < DaysBeforeYear(y2 + 1)
    ensures y1 == y2
  {
    if y1 < y2 {
      DaysBeforeYearMonotone(y1 + 1, y2);
    } else if y2 < y1 {
      DaysBeforeYearMonotone(y2 + 1, y1);
    }
  }

  /** Different dates have different day numbers. */
  lemma DaysFromCivilInjective(a: Civil, b: Civil)
    requires ValidCivil(a) && ValidCivil(b)
    requires DaysFromCivil(a) == DaysFromCivil(b)
    ensures a == b
  {
    DaysFromCivilInYear(a);
    DaysFromCivilInYear(b);
    YearUnique(a.year, b.year, DaysFromCivil(a));
    if a.month < b.month {
      DaysBeforeMonthMonotone(a.year, a.month, b.month);
    } else if b.month < a.month {
      DaysBeforeMonthMonotone(a.year, b.month, a.month);
    }
  }

  /** Converting a date to its day number and back gives the date. */
  lemma CivilRoundTrip(c: Civil)
    requires ValidCivil(c)
    ensures CivilFromDays(DaysFromCivil(c)) == c
  {
    CivilFromDaysSound(DaysFromCivil(c));
    DaysFromCivilInjective(CivilFromDays(DaysFromCivil(c)), c);
  }

  /** `Date.prototype.getDay`: 0 is Sunday, 6 is Saturday. */
  function Weekday(n: Day): (w: int)
    ensures 0 <= w < 7
  {
    (n + 4) % 7
  }

  /** A field `Number` reads as a non-negative integer. */
  predicate IsNumberField(t: string) {
    |t| >= 1 && AllDigits(t)
  }

  /** `getDateAtNoon`: split at '-', read year, month and day, and build
      `new Date(y, m - 1, d, 12)`. `None` is an Invalid Date. */
  function ParseDate(s: string): Option<Day> {
    var parts := Split(s, '-');
    if |parts| < 3 || !IsNumberField(parts[0]) || !IsNumberField(parts[1])
       || !IsNumberField(parts[2]) then None
    else
      var y := DigitsValue(parts[0]);
      // the Date constructor reads a year 0..99 as 1900..1999
      var year := if y <= 99 then 1900 + y else y;
      Some(MakeDay(year, DigitsValue(parts[1]), DigitsValue(parts[2])))
  }

  /** `String(n).padStart(2, '0')`. */
  function Pad2(n: nat): string {
    var t := NatToString(n);
    if |t| >= 2 then t else "0" + t
  }

  lemma Pad2Digits(n: nat)
    requires n < 100
    ensures |Pad2(n)| == 2 && AllDigits(Pad2(n)) && DigitsValue(Pad2(n)) == n
  {
    NatToStringLength(n, 2);
    NatToStringLength(n, 1);
    var t := NatToString(n);
    if |t| < 2 {
      assert Pad2(n)[..1] == "0";
    }
  }

  lemma Pad2OfDigits(t: string)
    requires |t| == 2 && AllDigits(t)
    ensures Pad2(DigitsValue(t)) == t
  {
    if t[0] == '0' {
      assert t[1..] == [t[1]] && t[..1] == "0";
      assert DigitsValue(t[..1]) == 0;
      NatToStringOfDigits(t[1..]);
      assert DigitsValue(t) == DigitsValue(t[1..]);
    } else {
      NatToStringOfDigits(t);
    }
  }

  /** `formatDate`: the year as `String` prints it, then month and day
      zero-padded to two digits. */
  function FormatDate(n: Day): string {
    CivilFromDaysSound(n);
    var c := CivilFromDays(n);
    IntToString(c.year) + "-" + Pad2(c.month) + "-" + Pad2(c.day)
  }

  /** `t.padStart(width, '0')` on decimal text: zeros in front up to
      `width` digits, which leaves the value alone. */
  function ZeroPad(t: string, width: nat): (r: string)
    requires |t| >= 1 && AllDigits(t)
    ensures |r| == if |t| >= width then |t| else width
    ensures AllDigits(r) && DigitsValue(r) == DigitsValue(t)
    decreases width - |t|
  {
    if |t| >= width then t
    else
      var z := "0" + t;
      DigitsValueLeadingZero(z);
      assert z[1..] == t;
      ZeroPad(z, width)
  }

  /** The year field of `Date.prototype.toISOString`: four digits for the
      years 0..9999, otherwise a sign and six digits. */
  function IsoYear(y: int): (r: string)
    ensures 0 <= y <= 9999 ==> |r| == 4 && AllDigits(r) && DigitsValue(r) == y
    ensures y < 0 ==> |r| >= 7 && r[0] == '-' && AllDigits(r[1..]) && DigitsValue(r[1..]) == -y
    ensures y > 9999 ==> |r| >= 7 && r[0] == '+' && AllDigits(r[1..]) && DigitsValue(r[1..]) == y
  {
    if 0 <= y <= 9999 then
      NatToStringLength(y, 4);
      ZeroPad(NatToString(y), 4)
    else
      var sign := if y < 0 then "-" else "+";
      var digits := ZeroPad(NatToString(if y < 0 then -y else y), 6);
      assert (sign + digits)[1..] == digits;
      sign + digits
  }

  /** `date.toISOString().split('T')[0]` for a day: the ISO year field, then
      month and day as two digits each. */
  function IsoDate(n: Day): string {
    CivilFromDaysSound(n);
    var c := CivilFromDays(n);
    IsoYear(c.year) + "-" + Pad2(c.month) + "-" + Pad2(c.day)
  }

  /** For the years 1000..9999 the ISO text and `formatDate` agree. */
  lemma IsoDateIsFormatDate(n: Day)
    requires 1000 <= CivilFromDays(n).year <= 9999
    ensures IsoDate(n) == FormatDate(n)
  {
    var y := CivilFromDays(n).year;
    NatToStringLength(y, 4);
    NatToStringLength(y, 3);
  }

  /** The ISO text of a day of the years 0..9999 is "YYYY-MM-DD" naming
      that day; any other year makes text of another shape. */
  lemma IsoDateFields(n: Day)
    ensures var c := CivilFromDays(n); var s := IsoDate(n);
      0 <= c.year <= 9999 ==>
        IsCalendarDateText(s) && YearField(s) == c.year && MonthField(s) == c.month && DayField(s) == c.day
    ensures !(0 <= CivilFromDays(n).year <= 9999) ==> !IsDateText(IsoDate(n))
  {
    CivilFromDaysSound(n);
    var c := CivilFromDays(n);
    var y, a, b := IsoYear(c.year), Pad2(c.month), Pad2(c.day);
    Pad2Digits(c.month);
    Pad2Digits(c.day);
    if 0 <= c.year <= 9999 {
      DateTextOf(y, a, b);
    } else {
      assert |IsoDate(n)| == |y| + 6;
    }
  }

  lemma DashedFields(y: string, a: string, b: string)
    requires |a| == 2 && |b| == 2
    ensures var r := y + "-" + a + "-" + b;
      && |r| == |y| + 6 && r[|r| - 6] == '-' && r[|r| - 3] == '-'
      && r[|r| - 5..|r| - 3] == a && r[|r| - 2..] == b && r[..|r| - 6] == y
  {
    var r := y + "-" + a + "-" + b;
    assert r[|r| - 5..|r| - 3] == a;
    assert r[|r| - 2..] == b;
    assert r[..|r| - 6] == y;
  }

  /** The printed text is the year, '-', two month digits, '-', two day
      digits, each field holding the civil date's value. */
  lemma FormatDateFields(n: Day)
    ensures ValidCivil(CivilFromDays(n))
    ensures |FormatDate(n)| >= 7
    ensures FormatDate(n)[|FormatDate(n)| - 6] == '-' && FormatDate(n)[|FormatDate(n)| - 3] == '-'
    ensures Pad2(CivilFromDays(n).month) == FormatDate(n)[|FormatDate(n)| - 5..|FormatDate(n)| - 3]
    ensures Pad2(CivilFromDays(n).day) == FormatDate(n)[|FormatDate(n)| - 2..]
    ensures IntToString(CivilFromDays(n).year) == FormatDate(n)[..|FormatDate(n)| - 6]
    ensures AllDigits(Pad2(CivilFromDays(n).month)) && DigitsValue(Pad2(CivilFromDays(n).month)) == CivilFromDays(n).month
    ensures AllDigits(Pad2(CivilFromDays(n).day)) && DigitsValue(Pad2(CivilFromDays(n).day)) == CivilFromDays(n).day
  {
    CivilFromDaysSound(n);
    var c := CivilFromDays(n);
    Pad2Digits(c.month);
    Pad2Digits(c.day);
    DashedFields(IntToString(c.year), Pad2(c.month), Pad2(c.day));
    assert |IntToString(c.year)| >= 1;
  }

  lemma IntToStringInjective(a: int, b: int)
    requires IntToString(a) == IntToString(b)
    ensures a == b
  {
    if a < 0 && b < 0 {
      assert NatToString(-a) == IntToString(a)[1..];
    }
  }

  /** Different days print differently, so a holiday text names one day. */
  lemma FormatDateInjective(a: Day, b: Day)
    requires FormatDate(a) == FormatDate(b)
    ensures a == b
  {
    var ca := CivilFromDays(a);
    var cb := CivilFromDays(b);
    CivilFromDaysSound(a);
    CivilFromDaysSound(b);
    Pad2Digits(ca.month);
    Pad2Digits(ca.day);
    Pad2Digits(cb.month);
    Pad2Digits(cb.day);
    DashedInjective(IntToString(ca.year), Pad2(ca.month), Pad2(ca.day),
                    IntToString(cb.year), Pad2(cb.month), Pad2(cb.day));
    IntToStringInjective(ca.year, cb.year);
  }


  /** Texts "y-mm-dd" with two-digit fields are equal only field by field. */
  lemma DashedInjective(y1: string, m1: string, d1: string, y2: string, m2: string, d2: string)
    requires |m1| == 2 && |d1| == 2 && |m2| == 2 && |d2| == 2
    requires y1 + "-" + m1 + "-" + d1 == y2 + "-" + m2 + "-" + d2
    ensures y1 == y2 && m1 == m2 && d1 == d2
  {
    DashedFields(y1, m1, d1);
    DashedFields(y2, m2, d2);
  }



  /** Text of the form DDDD-DD-DD. */
  predicate IsDateText(s: string) {
    |s| == 10 && s[4] == '-' && s[7] == '-'
    && AllDigits(s[..4]) && AllDigits(s[5..7]) && AllDigits(s[8..])
  }

  function YearField(s: string): nat requires IsDateText(s) { DigitsValue(s[..4]) }
  function MonthField(s: string): nat requires IsDateText(s) { DigitsValue(s[5..7]) }
  function DayField(s: string): nat requires IsDateText(s) { DigitsValue(s[8..]) }

  /** "YYYY-MM-DD" naming a real date (`full-date` of RFC 3339, section 5.6). */
  predicate IsCalendarDateText(s: string) {
    IsDateText(s) && 1 <= MonthField(s) <= 12 && 1 <= DayField(s) <= DaysInMonth(YearField(s), MonthField(s))
  }

  lemma SplitDateText(s: string)
    requires IsDateText(s)
    ensures Split(s, '-') == [s[..4], s[5..7], s[8..]]
  {
    assert s[4] == '-';
    assert forall j :: 0 <= j < 4 ==> s[j] == s[..4][j];
    assert IndexOf(s, '-') == 4;
    var t := s[5..];
    assert t[2] == '-';
    assert forall j :: 0 <= j < 2 ==> t[j] == s[5..7][j];
    assert IndexOf(t, '-') == 2;
    var u := t[3..];
    assert u == s[8..];
    assert forall j :: 0 <= j < |u| ==> u[j] == s[8..][j];
    assert '-' !in u;
    assert Split(t, '-') == [t[..2]] + Split(u, '-');
    assert t[..2] == s[5..7];
  }

  /** What `getDateAtNoon` makes of DDDD-DD-DD text. */
  lemma ParseDateText(s: string)
    requires IsDateText(s)
    ensures ParseDate(s) == Some(MakeDay(
      if YearField(s) <= 99 then 1900 + YearField(s) else YearField(s), MonthField(s), DayField(s)))
  {
    SplitDateText(s);
  }

  /** Reading a "YYYY-MM-DD" date with a four-digit year from 1000 on and
      printing it again gives the same text. */
  lemma ParseFormatRoundTrip(s: string)
    requires IsCalendarDateText(s) && YearField(s) >= 1000
    ensures ParseDate(s).Some?
    ensures FormatDate(ParseDate(s).value) == s
  {
    var c := Civil(YearField(s), MonthField(s), DayField(s));
    assert ParseDate(s) == Some(DaysFromCivil(c)) by { ParseDateText(s); }
    assert s[0] != '0' by {
      if s[0] == '0' {
        DigitsValueLeadingZero(s[..4]);
        DigitsValueBound(s[..4][1..]);
      }
    }
    calc {
      FormatDate(DaysFromCivil(c));
      { CivilRoundTrip(c); }
      IntToString(c.year) + "-" + Pad2(c.month) + "-" + Pad2(c.day);
      { NatToStringOfDigits(s[..4]); Pad2OfDigits(s[5..7]); Pad2OfDigits(s[8..]); }
      s[..4] + "-" + s[5..7] + "-" + s[8..];
      s;
    }
  }

  lemma DateTextOf(y: string, a: string, b: string)
    requires |y| == 4 && |a| == 2 && |b| == 2
    requires AllDigits(y) && AllDigits(a) && AllDigits(b)
    ensures var s := y + "-" + a + "-" + b;
      IsDateText(s) && s[..4] == y && s[5..7] == a && s[8..] == b
  {
    var s := y + "-" + a + "-" + b;
    assert s[..4] == y && s[5..7] == a && s[8..] == b;
  }

  /** Printing a day of the years 1000..9999 gives "YYYY-MM-DD" text that
      reads back as the same day. */
  lemma FormatParseRoundTrip(n: Day)
    requires 1000 <= CivilFromDays(n).year <= 9999
    ensures IsCalendarDateText(FormatDate(n))
    ensures ParseDate(FormatDate(n)) == Some(n)
  {
    CivilFromDaysSound(n);
    var c := CivilFromDays(n);
    var y := NatToString(c.year);
    NatToStringLength(c.year, 4);
    NatToStringLength(c.year, 3);
    var a, b := Pad2(c.month), Pad2(c.day);
    Pad2Digits(c.month);
    Pad2Digits(c.day);
    var s := y + "-" + a + "-" + b;
    assert FormatDate(n) == s;
    DateTextOf(y, a, b);
    assert YearField(s) == c.year && MonthField(s) == c.month && DayField(s) == c.day;
    ParseDateText(s);
  }

  /** The Date constructor's two-digit-year rule: a year field 0001..0099
      is read as 1901..1999, so such text does not print back as it was
      read. (0000 is read as 1900 too; 0000-02-29 is a real date and
      1900-02-29 is not, so that year is left out here.) */
  lemma TwoDigitYearRead(s: string)
    requires IsCalendarDateText(s) && 1 <= YearField(s) <= 99
    ensures ParseDate(s) == Some(DaysFromCivil(Civil(1900 + YearField(s), MonthField(s), DayField(s))))
    ensures CivilFromDays(ParseDate(s).value).year != YearField(s)
  {
    var y := YearField(s);
    var c := Civil(1900 + y, MonthField(s), DayField(s));
    assert ParseDate(s) == Some(MakeDay(1900 + y, MonthField(s), DayField(s))) by { ParseDateText(s); }
    assert DaysInMonth(y, MonthField(s)) <= DaysInMonth(1900 + y, MonthField(s)) by { LeapCentury(y); }
    CivilRoundTrip(c);
  }

  /** For a year from 1 to 99, 1900 + y is a leap year exactly when y is. */
  lemma LeapCentury(y: int)
    requires 1 <= y <= 99
    ensures IsLeapYear(1900 + y) == IsLeapYear(y)
  {
    assert (1900 + y) % 4 == y % 4;
    assert (1900 + y) % 100 == y;
  }

}
