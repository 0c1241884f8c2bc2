/** The chart's business-day engine: `getBusinessDays` counts the working
    days of an inclusive date range, `addBusinessDays` finds the date on
    which a given number of working days is used up. A working (business)
    day is neither a Saturday, nor a Sunday, nor listed among the holidays
    (compared as "YYYY-MM-DD" text). Both loops stop after 3650 steps.

    The counting and stepping are stated for any property `ok` of days and
    then used with the business-day property. */
module BusinessDays {
  import opened Wrappers
  import opened Calendar

  /** The iteration budget of both loops. */
  const SafetyCap: nat := 3650

  /** What `formatDate` prints for an Invalid Date. */
  const InvalidDateText: string := "NaN-NaN-NaN"

  predicate IsBusinessDay(d: Day, holidays: seq<string>) {
    Weekday(d) != 0 && Weekday(d) != 6 && FormatDate(d) !in holidays
  }

  /** The business-day property for a holiday list. */
  function BusinessDay(holidays: seq<string>): Day -> bool {
    d => IsBusinessDay(d, holidays)
  }

  function Min(a: int, b: int): int { if a <= b then a else b }

  /** How many of the days lo, lo+1, ..., hi-1 satisfy ok. */
  function CountIn(ok: Day -> bool, lo: Day, hi: Day): (r: nat)
    ensures r <= if hi <= lo then 0 else hi - lo
    decreases hi - lo
  {
    if hi <= lo then 0
    else CountIn(ok, lo, hi - 1) + (if ok(hi - 1) then 1 else 0)
  }

  /** What the loop of `getBusinessDays` counts: it visits s, s+1, ... while
      the day is at most e and fewer than SafetyCap days have been
      visited. */
  function CountWithin(ok: Day -> bool, s: Day, e: Day): (r: nat)
    ensures r <= SafetyCap
    ensures s > e ==> r == 0
  {
    CountIn(ok, s, Min(e + 1, s + SafetyCap))
  }

  /** `getBusinessDays` on the stored "YYYY-MM-DD" texts; "" stands for a
      missing date. An Invalid Date compares false with everything, so the
      loop does not run. */
  function BusinessDayCount(start: string, end: string, holidays: seq<string>): (n: nat)
    ensures n <= SafetyCap
    ensures start == "" || end == "" ==> n == 0
    ensures ParseDate(start).Some? && ParseDate(end).Some? && ParseDate(start).value > ParseDate(end).value ==> n == 0
  {
    if start == "" || end == "" then 0
    else match (ParseDate(start), ParseDate(end))
      case (Some(s), Some(e)) => CountWithin(BusinessDay(holidays), s, e)
      case _ => 0
  }

  method GetBusinessDays(start: string, end: string, holidays: seq<string>) returns (count: nat)
    ensures count == BusinessDayCount(start, end, holidays)
  {
    if start == "" || end == "" {
      return 0;
    }
    var current := ParseDate(start);
    var endDate := ParseDate(end);
    if current.None? || endDate.None? {
      return 0;
    }
    count := CountDays(BusinessDay(holidays), current.value, endDate.value);
  }

  /** The counting loop of `getBusinessDays`, from day s up to day e,
      with the business-day test as `ok`. */
  method CountDays(ok: Day -> bool, s: Day, e: Day) returns (count: nat)
    ensures count == CountWithin(ok, s, e)
  {
    var cur := s;
    count := 0;
    var safety := 0;
    while cur <= e && safety < SafetyCap
      invariant 0 <= safety <= SafetyCap && cur == s + safety
      invariant cur == s || cur <= e + 1
      invariant count == CountIn(ok, s, cur)
    {
      if ok(cur) {
        count := count + 1;
      }
      cur := cur + 1;
      safety := safety + 1;
    }
    assert cur == if s <= e then Min(e + 1, s + SafetyCap) else s;
  }

  lemma {:induction false} CountInMonotone(ok: Day -> bool, lo: Day, a: Day, b: Day)
    requires lo <= a <= b
    ensures CountIn(ok, lo, a) <= CountIn(ok, lo, b)
    decreases b - a
  {
    if a < b {
      CountInMonotone(ok, lo, a, b - 1);
    }
  }

  /** The count is the size of the set of days it counts. */
  lemma {:induction false} CountInIsSetSize(ok: Day -> bool, lo: Day, hi: Day)
    ensures CountIn(ok, lo, hi) == |set d | lo <= d < hi && ok(d)|
    decreases hi - lo
  {
    if hi <= lo {
      assert (set d | lo <= d < hi && ok(d)) == {};
    } else {
      CountInIsSetSize(ok, lo, hi - 1);
      var smaller := set d | lo <= d < hi - 1 && ok(d);
      if ok(hi - 1) {
        assert (set d | lo <= d < hi && ok(d)) == smaller + {hi - 1};
      } else {
        assert (set d | lo <= d < hi && ok(d)) == smaller;
      }
    }
  }

  /** Within the safety bound, `getBusinessDays` counts exactly the days of
      [s, e] that are business days. */
  lemma CountIsBusinessDaysOfRange(s: Day, e: Day, holidays: seq<string>)
    requires e < s + SafetyCap
    ensures CountWithin(BusinessDay(holidays), s, e)
         == |set d | s <= d <= e && IsBusinessDay(d, holidays)|
  {
    var ok := BusinessDay(holidays);
    CountInIsSetSize(ok, s, Min(e + 1, s + SafetyCap));
    assert (set d | s <= d < Min(e + 1, s + SafetyCap) && ok(d))
      == set d | s <= d <= e && IsBusinessDay(d, holidays);
  }

  /** `r` is where `addBusinessDays` stops when it starts at s and has
      `days` days to use up: at the first day on which the count of ok days
      since s reaches `days`, or after SafetyCap steps. */
  predicate LandsOn(ok: Day -> bool, s: Day, days: int, r: Day) {
    && s <= r <= s + SafetyCap
    && (r < s + SafetyCap ==> ok(r) && CountIn(ok, s, r + 1) == days)
    && (forall d :: s < d <= r ==> CountIn(ok, s, d) < days)
  }

  lemma LandsOnUnique(ok: Day -> bool, s: Day, days: int, r1: Day, r2: Day)
    requires LandsOn(ok, s, days, r1) && LandsOn(ok, s, days, r2)
    ensures r1 == r2
  {
  }

  function AdvanceFrom(ok: Day -> bool, s: Day, days: int, d: Day): (r: Day)
    requires days >= 1
    requires s <= d <= s + SafetyCap
    requires forall x :: s < x <= d ==> CountIn(ok, s, x) < days
    ensures LandsOn(ok, s, days, r)
    decreases s + SafetyCap - d
  {
    if d == s + SafetyCap then d
    else if CountIn(ok, s, d + 1) >= days then
      assert CountIn(ok, s, d) < days by {
        if d == s {
          assert CountIn(ok, s, d) == 0;
        }
      }
      d
    else AdvanceFrom(ok, s, days, d + 1)
  }

  /** The day on which `addBusinessDays` stops, for `days` >= 1. */
  function Advance(ok: Day -> bool, s: Day, days: int): (r: Day)
    requires days >= 1
    ensures LandsOn(ok, s, days, r)
  {
    AdvanceFrom(ok, s, days, s)
  }

  /** `addBusinessDays` on the stored texts: a missing start or a count of
      at most 0 gives the start back; an Invalid Date stays invalid. */
  function AddedBusinessDate(start: string, days: int, holidays: seq<string>): (r: string)
    ensures start == "" || days <= 0 ==> r == start
  {
    if start == "" || days <= 0 then start
    else match ParseDate(start)
      case None => InvalidDateText
      case Some(s) => FormatDate(Advance(BusinessDay(holidays), s, days))
  }

  method AddBusinessDays(start: string, days: int, holidays: seq<string>) returns (result: string)
    ensures result == AddedBusinessDate(start, days, holidays)
  {
    if start == "" {
      return start;
    }
    if days <= 0 {
      return start;
    }
    var parsed := ParseDate(start);
    if parsed.None? {
      // every step on an Invalid Date gives an Invalid Date
      return InvalidDateText;
    }
    var stop := AdvanceDays(BusinessDay(holidays), parsed.value, days);
    result := FormatDate(stop);
  }

  /** The stepping loop of `addBusinessDays`: a business start day uses up
      one day, then each following business day uses up one more. */
  method AdvanceDays(ok: Day -> bool, s: Day, days: int) returns (cur: Day)
    requires days >= 1
    ensures cur == Advance(ok, s, days)
  {
    cur := s;
    var remaining := days;
    if ok(cur) {
      remaining := remaining - 1;
    }
    var safety := 0;
    while remaining > 0 && safety < SafetyCap
      invariant 0 <= safety <= SafetyCap && cur == s + safety
      invariant remaining == days - CountIn(ok, s, cur + 1) >= 0
      invariant forall x :: s < x <= cur ==> CountIn(ok, s, x) < days
    {
      cur := cur + 1;
      if ok(cur) {
        remaining := remaining - 1;
      }
      safety := safety + 1;
    }
    LandsOnUnique(ok, s, days, cur, Advance(ok, s, days));
  }

  /** Within the bound, the stop day is an ok day on or after the start, and
      counting from the start to it gives `days`. */
  lemma CountUpToAdvance(ok: Day -> bool, s: Day, days: int)
    requires days >= 1 && Advance(ok, s, days) < s + SafetyCap
    ensures s <= Advance(ok, s, days) && ok(Advance(ok, s, days))
    ensures CountWithin(ok, s, Advance(ok, s, days)) == days
  {
  }

  /** Counting the ok days of [s, e] and stepping that many from s lands on
      e, when e is an ok day within the bound. */
  lemma AdvanceOfCount(ok: Day -> bool, s: Day, e: Day)
    requires s <= e < s + SafetyCap && ok(e)
    ensures CountWithin(ok, s, e) >= 1
    ensures Advance(ok, s, CountWithin(ok, s, e)) == e
  {
    var k := CountWithin(ok, s, e);
    assert k == CountIn(ok, s, e + 1);
    forall d | s < d <= e
      ensures CountIn(ok, s, d) < k
    {
      CountInMonotone(ok, s, d, e);
    }
    LandsOnUnique(ok, s, k, e, Advance(ok, s, k));
  }

  /** When e is not an ok day, the same round trip lands on the last ok day
      before e: no ok day lies after the result up to e. */
  lemma AdvanceOfCountIsLast(ok: Day -> bool, s: Day, e: Day)
    requires s <= e < s + SafetyCap && CountWithin(ok, s, e) >= 1
    ensures var r := Advance(ok, s, CountWithin(ok, s, e));
      && s <= r <= e && ok(r)
      && forall d :: r < d <= e ==> !ok(d)
  {
    var k := CountWithin(ok, s, e);
    var r := Advance(ok, s, k);
    forall d | r < d <= e
      ensures !ok(d)
    {
      if ok(d) {
        CountInMonotone(ok, s, r + 1, d);
        CountInMonotone(ok, s, d + 1, e + 1);
      }
    }
  }

  /** The same round trip on the stored texts: for two dates of the years
      1000..9999, counting the business days from the first to the second
      and adding that many business days to the first gives the second
      back, when the second is a business day within the bound. */
  lemma TextRoundTrip(s: Day, e: Day, holidays: seq<string>)
    requires 1000 <= CivilFromDays(s).year <= 9999 && 1000 <= CivilFromDays(e).year <= 9999
    requires s <= e < s + SafetyCap && IsBusinessDay(e, holidays)
    ensures AddedBusinessDate(FormatDate(s), BusinessDayCount(FormatDate(s), FormatDate(e), holidays), holidays)
         == FormatDate(e)
  {
    FormatParseRoundTrip(s);
    FormatParseRoundTrip(e);
    FormatDateFields(s);
    FormatDateFields(e);
    AdvanceOfCount(BusinessDay(holidays), s, e);
  }

  /** Taking one day x away from ok lowers every count over a range
      holding x by one, when x was counted. */
  lemma {:induction false} CountWithout(ok: Day -> bool, fewer: Day -> bool, x: Day, lo: Day, hi: Day)
    requires forall d :: fewer(d) == (ok(d) && d != x)
    ensures CountIn(fewer, lo, hi) == CountIn(ok, lo, hi) - (if lo <= x < hi && ok(x) then 1 else 0)
    decreases hi - lo
  {
    if lo < hi {
      CountWithout(ok, fewer, x, lo, hi - 1);
    }
  }

  /** Listing a day's text as a holiday takes exactly that day out of the
      business days. */
  lemma HolidayTakesOutOneDay(holidays: seq<string>, x: Day)
    ensures forall d :: BusinessDay(holidays + [FormatDate(x)])(d) == (BusinessDay(holidays)(d) && d != x)
  {
    forall d
      ensures BusinessDay(holidays + [FormatDate(x)])(d) == (BusinessDay(holidays)(d) && d != x)
    {
      HolidayTakesOut(holidays, x, d);
    }
  }

  lemma HolidayTakesOut(holidays: seq<string>, x: Day, d: Day)
    ensures IsBusinessDay(d, holidays + [FormatDate(x)]) == (IsBusinessDay(d, holidays) && d != x)
  {
    if FormatDate(d) == FormatDate(x) {
      FormatDateInjective(d, x);
    }
  }

  /** Adding a date of [s, e] to the holidays lowers the count by one when
      it was a business day, and leaves it as it was otherwise. */
  lemma AddingHolidayToCount(s: Day, e: Day, holidays: seq<string>, x: Day)
    requires s <= x <= e < s + SafetyCap
    ensures CountWithin(BusinessDay(holidays + [FormatDate(x)]), s, e)
         == CountWithin(BusinessDay(holidays), s, e) - (if IsBusinessDay(x, holidays) then 1 else 0)
  {
    HolidayTakesOutOneDay(holidays, x);
    CountWithout(BusinessDay(holidays), BusinessDay(holidays + [FormatDate(x)]), x, s, e + 1);
  }

  /** Monday to Friday. */
  function WorkingWeekday(): Day -> bool {
    d => Weekday(d) != 0 && Weekday(d) != 6
  }

  lemma {:induction false} CountInAgree(ok1: Day -> bool, ok2: Day -> bool, lo: Day, hi: Day)
    requires forall d :: lo <= d < hi ==> ok1(d) == ok2(d)
    ensures CountIn(ok1, lo, hi) == CountIn(ok2, lo, hi)
    decreases hi - lo
  {
    if lo < hi {
      CountInAgree(ok1, ok2, lo, hi - 1);
    }
  }

  /** Without holidays the business days are Monday to Friday. */
  lemma NoHolidays()
    ensures forall d :: BusinessDay([])(d) == WorkingWeekday()(d)
  {
  }

  /** With no holidays a single day counts once when it is a weekday and
      not at all on a weekend. */
  lemma SingleDay(d: Day)
    ensures CountWithin(BusinessDay([]), d, d) == if Weekday(d) == 0 || Weekday(d) == 6 then 0 else 1
  {
    NoHolidays();
    CountInAgree(BusinessDay([]), WorkingWeekday(), d, d + 1);
  }

  /** Day 19783 (2024-03-01) is a Friday; the eight days from it hold six
      weekdays. */
  lemma WeekdaysExample()
    ensures CountIn(WorkingWeekday(), 19783, 19791) == 6
  {
    var ok := WorkingWeekday();
    assert CountIn(ok, 19783, 19784) == 1;
    assert CountIn(ok, 19783, 19785) == 1;
    assert CountIn(ok, 19783, 19786) == 1;
    assert CountIn(ok, 19783, 19787) == 2;
    assert CountIn(ok, 19783, 19788) == 3;
    assert CountIn(ok, 19783, 19789) == 4;
    assert CountIn(ok, 19783, 19790) == 5;
  }

  lemma MarchDays()
    ensures DaysFromCivil(Civil(2024, 3, 1)) == 19783
    ensures DaysFromCivil(Civil(2024, 3, 8)) == 19790
  {
    DaysBeforeYearClosedForm(2024);
    assert LeapYearsThrough(2023) == 505 - 20 + 5;
    assert LeapYearsThrough(1969) == 492 - 19 + 4;
    assert DaysBeforeYear(2024) == 19723;
  }

  /** 2024-03-01 (a Friday) to 2024-03-08 (the next Friday), no holidays:
      six business days. */
  lemma CountExample()
    ensures CountWithin(BusinessDay([]), DaysFromCivil(Civil(2024, 3, 1)), DaysFromCivil(Civil(2024, 3, 8))) == 6
  {
    MarchDays();
    NoHolidays();
    CountInAgree(BusinessDay([]), WorkingWeekday(), 19783, 19791);
    WeekdaysExample();
  }
}
