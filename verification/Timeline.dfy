/** The chart's horizontal extent: the plan's earliest and latest dates
    snapped outwards to whole months, and one marker per month across it.
    Instants are reduced to calendar days; the percentage layout is not
    modelled. */
module Timeline {
  import opened Wrappers
  import opened Calendar
  import opened PlanEdits

  /** `new Date(text)` on a task date, modelled for the "YYYY-MM-DD" form
      only: a real date of that form is that day, and every other text,
      including the "YYYY", "YYYY-MM" and expanded-year forms the Date
      parser also accepts, is read as an Invalid Date. */
  function ParseIsoDate(s: string): (r: Option<Day>)
    ensures r.Some? <==> IsCalendarDateText(s)
  {
    if IsCalendarDateText(s) then Some(DaysFromCivil(Civil(YearField(s), MonthField(s), DayField(s))))
    else None
  }

  /** The model's parser reads the ISO text of a day of the years 0..9999
      back as that day, and rejects the expanded six-digit-year text of
      every other day (which the Date parser itself would accept). */
  lemma ParseIsoOfIsoDate(n: Day)
    ensures ParseIsoDate(IsoDate(n)) == if 0 <= CivilFromDays(n).year <= 9999 then Some(n) else None
  {
    IsoDateFields(n);
    CivilFromDaysSound(n);
  }

  /** A task added at `nowMillis` starts on the chart at its creation day,
      whenever that day falls in the years 0..9999. */
  lemma NewTaskStartsOnChart(nowMillis: int)
    ensures var d := nowMillis / DayMillis;
      0 <= CivilFromDays(d).year <= 9999 ==> ParseIsoDate(NewTask(nowMillis).startDate) == Some(d)
  {
    var d := nowMillis / DayMillis;
    NewTaskSpansAWeek(nowMillis);
    if 0 <= CivilFromDays(d).year <= 9999 {
      ParseIsoOfIsoDate(d);
    }
  }

  /** A task added at `nowMillis` ends on the chart seven days after its
      creation day, whenever that day falls in the years 0..9999. */
  lemma NewTaskEndsOnChart(nowMillis: int)
    ensures var e := nowMillis / DayMillis + 7;
      0 <= CivilFromDays(e).year <= 9999 ==> ParseIsoDate(NewTask(nowMillis).endDate) == Some(e)
  {
    var e := nowMillis / DayMillis + 7;
    assert NewTask(nowMillis).endDate == IsoDate(e) by { NewTaskSpansAWeek(nowMillis); }
    if 0 <= CivilFromDays(e).year <= 9999 {
      ParseIsoOfIsoDate(e);
    }
  }

  // ---------------------------------------------------------------------
  // Month arithmetic as the Date setters perform it
  // ---------------------------------------------------------------------

  /** `d.setDate(1)`: the first day of d's month. */
  function MonthStart(d: Day): Day {
    CivilFromDaysSound(d);
    var c := CivilFromDays(d);
    DaysFromCivil(Civil(c.year, c.month, 1))
  }

  /** The last day of d's month. */
  function MonthEnd(d: Day): Day {
    CivilFromDaysSound(d);
    var c := CivilFromDays(d);
    DaysFromCivil(Civil(c.year, c.month, DaysInMonth(c.year, c.month)))
  }

  /** `d.setMonth(d.getMonth() + 1)`: same day of the month, one month on;
      a day the next month lacks runs over into the month after. */
  function AddMonth(d: Day): Day {
    var c := CivilFromDays(d);
    MakeDay(c.year, c.month + 1, c.day)
  }

  /** `d.setMonth(d.getMonth() + 1); d.setDate(0)`, the end-of-range step of
      the chart as it is written. */
  function MonthEndAsWritten(d: Day): Day {
    var c := CivilFromDays(AddMonth(d));
    MakeDay(c.year, c.month, 0)
  }

  predicate IsMonthStart(d: Day) {
    CivilFromDays(d).day == 1
  }

  predicate IsMonthEnd(d: Day) {
    var c := CivilFromDays(d);
    c.day == DaysInMonth(c.year, c.month)
  }

  /** Two days lie in the same month of the same year. */
  predicate SameMonth(a: Day, b: Day) {
    var ca := CivilFromDays(a);
    var cb := CivilFromDays(b);
    ca.year == cb.year && ca.month == cb.month
  }

  lemma MonthStartFacts(d: Day)
    ensures MonthStart(d) <= d && d - MonthStart(d) < 31
    ensures IsMonthStart(MonthStart(d)) && SameMonth(MonthStart(d), d)
  {
    CivilFromDaysSound(d);
    var c := CivilFromDays(d);
    CivilRoundTrip(Civil(c.year, c.month, 1));
  }

  lemma MonthEndFacts(d: Day)
    ensures d <= MonthEnd(d) && MonthEnd(d) - d < 31
    ensures IsMonthEnd(MonthEnd(d)) && SameMonth(MonthEnd(d), d)
  {
    CivilFromDaysSound(d);
    var c := CivilFromDays(d);
    CivilRoundTrip(Civil(c.year, c.month, DaysInMonth(c.year, c.month)));
  }

  /** The first day of the month after (y, m) follows the last day of (y, m). */
  lemma NextMonthFirst(y: int, m: int)
    requires 1 <= m <= 12
    ensures MakeDay(y, m + 1, 1) == DaysFromCivil(Civil(y, m, DaysInMonth(y, m))) + 1
  {
    if m < 12 {
      DaysBeforeMonthStep(y, m);
    } else {
      DaysBeforeYearStep(y + 1);
      DaysBeforeMonthLast(y);
    }
  }

  /** A month start plus one month is the next month start, right after the
      month's last day. */
  lemma AddMonthOfMonthStart(d: Day)
    requires IsMonthStart(d)
    ensures AddMonth(d) == MonthEnd(d) + 1
    ensures IsMonthStart(AddMonth(d))
  {
    CivilFromDaysSound(d);
    var c := CivilFromDays(d);
    NextMonthFirst(c.year, c.month);
    var n := Civil(c.year + c.month / 12, c.month % 12 + 1, 1);
    CivilRoundTrip(n);
  }

  lemma MonthStartOfMonthStart(d: Day)
    requires IsMonthStart(d)
    ensures MonthStart(d) == d
  {
    CivilFromDaysSound(d);
  }

  /** The month-end step as written agrees with the month end whenever the
      day exists in every month. */
  lemma {:induction false} MonthEndAsWrittenAgrees(d: Day)
    requires CivilFromDays(d).day <= 28
    ensures MonthEndAsWritten(d) == MonthEnd(d)
  {
    CivilFromDaysSound(d);
    var c := CivilFromDays(d);
    NextMonthFirst(c.year, c.month);
    var n := Civil(c.year + c.month / 12, c.month % 12 + 1, c.day);
    assert AddMonth(d) == DaysFromCivil(n);
    CivilRoundTrip(n);
    assert DaysFromCivil(n) == MakeDay(c.year, c.month + 1, 1) + c.day - 1;
  }

  /** The month-end step as written is the day before the first day of the
      month that one month on from d falls in. */
  lemma MonthEndAsWrittenIsDayBefore(d: Day)
    ensures MonthEndAsWritten(d) == MonthStart(AddMonth(d)) - 1
  {
    CivilFromDaysSound(AddMonth(d));
  }

  /** One month on from d is as many days past d's month end as d's day. */
  lemma AddMonthPastMonthEnd(d: Day)
    ensures AddMonth(d) == MonthEnd(d) + CivilFromDays(d).day
    ensures 1 <= CivilFromDays(d).day <= 31
  {
    CivilFromDaysSound(d);
    var c := CivilFromDays(d);
    NextMonthFirst(c.year, c.month);
  }

  /** The day after any month end is a month start. */
  lemma DayAfterMonthEnd(d: Day)
    ensures IsMonthStart(MonthEnd(d) + 1)
  {
    var s := MonthStart(d);
    MonthStartFacts(d);
    assert MonthEnd(s) == MonthEnd(d);
    AddMonthOfMonthStart(s);
  }

  /** Every day from a month start up to its month end has that month start. */
  lemma MonthStartWithin(f: Day, x: Day)
    requires IsMonthStart(f) && f <= x <= MonthEnd(f)
    ensures MonthStart(x) == f
  {
    CivilFromDaysSound(f);
    var c := CivilFromDays(f);
    var a := Civil(c.year, c.month, 1 + x - f);
    assert DaysFromCivil(a) == x && ValidCivil(a);
    CivilRoundTrip(a);
  }

  /** A month has at least 28 days. */
  lemma MonthLength(f: Day)
    requires IsMonthStart(f)
    ensures MonthEnd(f) - f >= 27
  {
    CivilFromDaysSound(f);
  }

  /** While one month on from d stays in the next month, the month-end step
      as written lands on d's own month end. */
  lemma MonthEndAsWrittenStays(d: Day)
    requires AddMonth(d) <= MonthEnd(MonthEnd(d) + 1)
    ensures MonthEndAsWritten(d) == MonthEnd(d)
  {
    var f := MonthEnd(d) + 1;
    MonthEndAsWrittenIsDayBefore(d);
    AddMonthPastMonthEnd(d);
    DayAfterMonthEnd(d);
    MonthStartWithin(f, AddMonth(d));
  }

  /** When one month on from d runs over into the month after next, the
      month-end step as written lands on the next month's end. */
  lemma MonthEndAsWrittenRunsOver(d: Day)
    requires AddMonth(d) > MonthEnd(MonthEnd(d) + 1)
    ensures MonthEndAsWritten(d) == MonthEnd(MonthEnd(d) + 1)
  {
    var f := MonthEnd(d) + 1;
    var g := MonthEnd(f) + 1;
    MonthEndAsWrittenIsDayBefore(d);
    AddMonthPastMonthEnd(d);
    DayAfterMonthEnd(d);
    MonthLength(f);
    DayAfterMonthEnd(f);
    MonthLength(g);
    MonthStartWithin(g, AddMonth(d));
  }

  /** The month-end step as written lands on d's own month end while one
      month on from d still lies in the next month, and on the next month's
      end when d's day runs over into the month after that. */
  lemma MonthEndAsWrittenCases(d: Day)
    ensures AddMonth(d) <= MonthEnd(MonthEnd(d) + 1) ==> MonthEndAsWritten(d) == MonthEnd(d)
    ensures AddMonth(d) > MonthEnd(MonthEnd(d) + 1) ==> MonthEndAsWritten(d) == MonthEnd(MonthEnd(d) + 1)
  {
    if AddMonth(d) <= MonthEnd(MonthEnd(d) + 1) {
      MonthEndAsWrittenStays(d);
    } else {
      MonthEndAsWrittenRunsOver(d);
    }
  }

  /** The month-end step as written never lands before d's month end, always
      lands on a month end, and overshoots by at most the following month. */
  lemma MonthEndAsWrittenBounds(d: Day)
    ensures MonthEnd(d) <= MonthEndAsWritten(d) && IsMonthEnd(MonthEndAsWritten(d))
    ensures MonthEndAsWritten(d) == MonthEnd(d) || MonthEndAsWritten(d) == MonthEnd(MonthEnd(d) + 1)
  {
    MonthEndAsWrittenCases(d);
    MonthEndFacts(d);
    MonthEndFacts(MonthEnd(d) + 1);
  }

  /** The month-end step as written on 2024-01-31 lands on 2024-02-29: the
      31st moves to "February 31st", which is March 2nd, and day 0 of March
      is the end of February. */
  lemma MonthEndAsWrittenOvershoots()
    ensures var d := DaysFromCivil(Civil(2024, 1, 31));
      MonthEnd(d) == d && MonthEndAsWritten(d) == DaysFromCivil(Civil(2024, 2, 29))
  {
    var d := DaysFromCivil(Civil(2024, 1, 31));
    var march2 := Civil(2024, 3, 2);
    assert IsLeapYear(2024);
    calc {
      AddMonth(d);
      { CivilRoundTrip(Civil(2024, 1, 31)); }
      MakeDay(2024, 2, 31);
      DaysFromCivil(Civil(2024, 2, 31));
      DaysFromCivil(march2);
    }
    calc {
      MonthEndAsWritten(d);
      { CivilRoundTrip(march2); }
      MakeDay(2024, 3, 0);
      DaysFromCivil(Civil(2024, 2, 29));
    }
    assert MonthEnd(d) == d by { CivilRoundTrip(Civil(2024, 1, 31)); }
  }


  // ---------------------------------------------------------------------
  // getTimelineRange
  // ---------------------------------------------------------------------

  /** The range of days the chart spans, both ends inclusive; an Invalid
      Date among the task dates makes the whole range invalid. */
  datatype TimelineRange = Range(start: Day, end: Day) | InvalidRange

  function SubTaskDates(subs: seq<SubTask>): seq<string>
    decreases |subs|
  {
    if subs == [] then []
    else SubTaskDates(subs[..|subs| - 1]) + [subs[|subs| - 1].startDate, subs[|subs| - 1].endDate]
  }

  /** Every start and end date of the plan, tasks and their sub-tasks in
      order. */
  function PlanDates(tasks: seq<Task>): seq<string>
    decreases |tasks|
  {
    if tasks == [] then []
    else
      var t := tasks[|tasks| - 1];
      PlanDates(tasks[..|tasks| - 1]) + [t.startDate, t.endDate] + SubTaskDates(t.subTasks)
  }

  /** The days of some date texts, or None if one of them is invalid. */
  function ParseAll(texts: seq<string>): (r: Option<seq<Day>>)
    ensures r.Some? ==> |r.value| == |texts|
    decreases |texts|
  {
    if texts == [] then Some([])
    else match ParseAll(texts[..|texts| - 1])
      case None => None
      case Some(ds) =>
        match ParseIsoDate(texts[|texts| - 1])
        case None => None
        case Some(d) => Some(ds + [d])
  }

  function Min(a: int, b: int): int { if a <= b then a else b }
  function Max(a: int, b: int): int { if a >= b then a else b }

  /** `Math.min(...ds)`. */
  function MinOf(ds: seq<Day>): (r: Day)
    requires ds != []
    ensures r in ds && forall x :: x in ds ==> r <= x
    decreases |ds|
  {
    if |ds| == 1 then ds[0]
    else
      assert ds == ds[..|ds| - 1] + [ds[|ds| - 1]];
      Min(MinOf(ds[..|ds| - 1]), ds[|ds| - 1])
  }

  /** `Math.max(...ds)`. */
  function MaxOf(ds: seq<Day>): (r: Day)
    requires ds != []
    ensures r in ds && forall x :: x in ds ==> x <= r
    decreases |ds|
  {
    if |ds| == 1 then ds[0]
    else
      assert ds == ds[..|ds| - 1] + [ds[|ds| - 1]];
      Max(MaxOf(ds[..|ds| - 1]), ds[|ds| - 1])
  }

  lemma {:induction false} PlanDatesNonEmpty(tasks: seq<Task>)
    requires tasks != []
    ensures |PlanDates(tasks)| >= 2
  {
  }

  /** The range the chart is meant to show: today's day for an empty plan,
      otherwise the first day of the earliest date's month through the last
      day of the latest date's month. */
  function TimelineRangeOf(tasks: seq<Task>, today: Day): TimelineRange {
    if tasks == [] then Range(today, today)
    else match ParseAll(PlanDates(tasks))
      case None => InvalidRange
      case Some(ds) =>
        PlanDatesNonEmpty(tasks);
        Range(MonthStart(MinOf(ds)), MonthEnd(MaxOf(ds)))
  }

  /** The range as the chart computes it: the same, except that the end is
      the month-end step as written applied to the latest date. */
  function TimelineRangeAsWritten(tasks: seq<Task>, today: Day): TimelineRange {
    if tasks == [] then Range(today, today)
    else match ParseAll(PlanDates(tasks))
      case None => InvalidRange
      case Some(ds) =>
        PlanDatesNonEmpty(tasks);
        Range(MonthStart(MinOf(ds)), MonthEndAsWritten(MaxOf(ds)))
  }

  /** The range as written is invalid exactly when the intended one is, has
      the same start, and ends on the intended end or on the last day of the
      month after it. */
  lemma RangeAsWrittenAgainstIntended(tasks: seq<Task>, today: Day)
    ensures TimelineRangeAsWritten(tasks, today).Range? <==> TimelineRangeOf(tasks, today).Range?
    ensures var w := TimelineRangeAsWritten(tasks, today); var r := TimelineRangeOf(tasks, today);
      w.Range? ==> w.start == r.start && (w.end == r.end || w.end == MonthEnd(r.end + 1))
  {
    var w := TimelineRangeAsWritten(tasks, today);
    var r := TimelineRangeOf(tasks, today);
    if tasks == [] {
      assert w == r;
    } else if ParseAll(PlanDates(tasks)).None? {
      assert w == r;
    } else {
      var ds := ParseAll(PlanDates(tasks)).value;
      PlanDatesNonEmpty(tasks);
      var m := MaxOf(ds);
      assert w.start == r.start && w.end == MonthEndAsWritten(m) && r.end == MonthEnd(m);
      assert MonthEndAsWritten(m) == MonthEnd(m) || MonthEndAsWritten(m) == MonthEnd(MonthEnd(m) + 1) by {
        MonthEndAsWrittenBounds(m);
      }
    }
  }

  lemma {:induction false} ParseAllPrefixNone(texts: seq<string>, k: nat)
    requires k <= |texts| && ParseAll(texts[..k]) == None
    ensures ParseAll(texts) == None
    decreases |texts| - k
  {
    if k < |texts| {
      assert texts[..k + 1][..k] == texts[..k];
      ParseAllPrefixNone(texts, k + 1);
    } else {
      assert texts[..k] == texts;
    }
  }

  /** Collects `allDates` as the source does: each task's start and end,
      then its sub-tasks' start and end dates. */
  method CollectDates(tasks: seq<Task>) returns (allDates: seq<string>)
    ensures allDates == PlanDates(tasks)
  {
    allDates := [];
    var i := 0;
    while i < |tasks|
      invariant 0 <= i <= |tasks|
      invariant allDates == PlanDates(tasks[..i])
    {
      var t := tasks[i];
      var before := allDates;
      allDates := allDates + [t.startDate, t.endDate];
      var j := 0;
      while j < |t.subTasks|
        invariant 0 <= j <= |t.subTasks|
        invariant allDates == before + [t.startDate, t.endDate] + SubTaskDates(t.subTasks[..j])
      {
        assert t.subTasks[..j + 1][..j] == t.subTasks[..j];
        allDates := allDates + [t.subTasks[j].startDate, t.subTasks[j].endDate];
        j := j + 1;
      }
      assert t.subTasks[..j] == t.subTasks;
      assert tasks[..i + 1][..i] == tasks[..i];
      i := i + 1;
    }
    assert tasks[..i] == tasks;
  }

  /** `Math.min` and `Math.max` over the parsed dates in one pass; an
      Invalid Date makes both NaN. */
  method DateBounds(texts: seq<string>) returns (r: Option<(Day, Day)>)
    requires texts != []
    ensures ParseAll(texts).None? <==> r.None?
    ensures r.Some? ==> r.value == (MinOf(ParseAll(texts).value), MaxOf(ParseAll(texts).value))
  {
    var lo := 0;
    var hi := 0;
    var k := 0;
    while k < |texts|
      invariant 0 <= k <= |texts|
      invariant ParseAll(texts[..k]).Some?
      invariant k > 0 ==> lo == MinOf(ParseAll(texts[..k]).value) && hi == MaxOf(ParseAll(texts[..k]).value)
    {
      assert texts[..k + 1][..k] == texts[..k];
      var p := ParseIsoDate(texts[k]);
      if p.None? {
        ParseAllPrefixNone(texts, k + 1);
        return None;
      }
      if k == 0 || p.value < lo { lo := p.value; }
      if k == 0 || p.value > hi { hi := p.value; }
      k := k + 1;
    }
    assert texts[..k] == texts;
    return Some((lo, hi));
  }

  /** getTimelineRange, with today's date as a parameter. */
  method GetTimelineRange(tasks: seq<Task>, today: Day) returns (range: TimelineRange)
    ensures range == TimelineRangeAsWritten(tasks, today)
  {
    if |tasks| == 0 {
      return Range(today, today);
    }
    var allDates := CollectDates(tasks);
    PlanDatesNonEmpty(tasks);
    var bounds := DateBounds(allDates);
    if bounds.None? {
      return InvalidRange;
    }
    var (minDate, maxDate) := bounds.value;
    range := Range(MonthStart(minDate), MonthEndAsWritten(maxDate));
  }

  /** A non-empty plan's range, as written and as intended, starts on the
      first day of a month, ends on the last day of a month, and holds every
      task and sub-task date. */
  lemma TimelineCoversPlan(tasks: seq<Task>, today: Day)
    requires tasks != [] && TimelineRangeAsWritten(tasks, today).Range?
    ensures var r := TimelineRangeAsWritten(tasks, today);
      IsMonthStart(r.start) && IsMonthEnd(r.end) && r.start <= r.end
      && forall t :: t in PlanDates(tasks) ==>
           ParseIsoDate(t).Some? && r.start <= ParseIsoDate(t).value <= r.end
    ensures var r := TimelineRangeOf(tasks, today);
      r.Range? && IsMonthStart(r.start) && IsMonthEnd(r.end) && r.start <= r.end
      && forall t :: t in PlanDates(tasks) ==>
           ParseIsoDate(t).Some? && r.start <= ParseIsoDate(t).value <= r.end
  {
    var ds := ParseAll(PlanDates(tasks)).value;
    PlanDatesNonEmpty(tasks);
    MonthStartFacts(MinOf(ds));
    MonthEndFacts(MaxOf(ds));
    MonthEndAsWrittenBounds(MaxOf(ds));
    forall t | t in PlanDates(tasks)
      ensures ParseIsoDate(t).Some? && ParseIsoDate(t).value in ds
    {
      ParsedMember(PlanDates(tasks), t);
    }
  }

  lemma {:induction false} ParsedMember(texts: seq<string>, t: string)
    requires ParseAll(texts).Some? && t in texts
    ensures ParseIsoDate(t).Some? && ParseIsoDate(t).value in ParseAll(texts).value
    decreases |texts|
  {
    var n := |texts|;
    if t != texts[n - 1] {
      assert texts == texts[..n - 1] + [texts[n - 1]];
      ParsedMember(texts[..n - 1], t);
    }
  }

  /** The range is as tight as whole months allow: its first and last months
      are those of the earliest and the latest plan date. */
  lemma TimelineIsTight(tasks: seq<Task>, today: Day)
    requires tasks != [] && TimelineRangeOf(tasks, today).Range?
    ensures var r := TimelineRangeOf(tasks, today);
      exists t :: t in PlanDates(tasks) && ParseIsoDate(t).Some? && SameMonth(r.start, ParseIsoDate(t).value)
    ensures var r := TimelineRangeOf(tasks, today);
      exists t :: t in PlanDates(tasks) && ParseIsoDate(t).Some? && SameMonth(r.end, ParseIsoDate(t).value)
  {
    var texts := PlanDates(tasks);
    var ds := ParseAll(texts).value;
    PlanDatesNonEmpty(tasks);
    MonthStartFacts(MinOf(ds));
    MonthEndFacts(MaxOf(ds));
    var i := ParsedWitness(texts, MinOf(ds));
    var j := ParsedWitness(texts, MaxOf(ds));
    assert texts[i] in texts && texts[j] in texts;
  }

  lemma {:induction false} ParsedWitness(texts: seq<string>, d: Day) returns (i: nat)
    requires ParseAll(texts).Some? && d in ParseAll(texts).value
    ensures i < |texts| && ParseIsoDate(texts[i]) == Some(d)
    decreases |texts|
  {
    var n := |texts|;
    var ds := ParseAll(texts).value;
    assert ds == ParseAll(texts[..n - 1]).value + [ParseIsoDate(texts[n - 1]).value];
    if d == ds[n - 1] {
      i := n - 1;
    } else {
      i := ParsedWitness(texts[..n - 1], d);
    }
  }

  // ---------------------------------------------------------------------
  // generateMonthMarkers
  // ---------------------------------------------------------------------

  /** generateMonthMarkers: the first day of the range's first month, then
      one month on at a time while the marker is not past the range end.
      An invalid range has no markers. */
  method GenerateMonthMarkers(range: TimelineRange) returns (markers: seq<Day>)
    ensures range.InvalidRange? ==> markers == []
    ensures range.Range? && range.start <= range.end ==> markers != [] && markers[0] == MonthStart(range.start)
    ensures forall k :: 0 <= k < |markers| ==> IsMonthStart(markers[k]) && markers[k] <= range.end
    ensures forall k :: 0 <= k < |markers| - 1 ==> markers[k + 1] == AddMonth(markers[k])
    ensures markers != [] ==> range.end < AddMonth(markers[|markers| - 1])
  {
    if range.InvalidRange? {
      return [];
    }
    var current := MonthStart(range.start);
    MonthStartFacts(range.start);
    markers := [];
    while current <= range.end
      invariant IsMonthStart(current)
      invariant markers == [] ==> current == MonthStart(range.start)
      invariant markers != [] ==> markers[0] == MonthStart(range.start) && current == AddMonth(markers[|markers| - 1])
      invariant forall k :: 0 <= k < |markers| ==> IsMonthStart(markers[k]) && markers[k] <= range.end
      invariant forall k :: 0 <= k < |markers| - 1 ==> markers[k + 1] == AddMonth(markers[k])
      decreases range.end - current
    {
      markers := markers + [current];
      AddMonthOfMonthStart(current);
      MonthEndFacts(current);
      current := AddMonth(current);
    }
  }

  /** The markers strictly increase and each is the month start right after
      the previous marker's month. */
  lemma MarkersIncrease(markers: seq<Day>, k: nat)
    requires forall i :: 0 <= i < |markers| ==> IsMonthStart(markers[i])
    requires forall i :: 0 <= i < |markers| - 1 ==> markers[i + 1] == AddMonth(markers[i])
    requires k + 1 < |markers|
    ensures markers[k] < markers[k + 1] && markers[k + 1] == MonthEnd(markers[k]) + 1
  {
    AddMonthOfMonthStart(markers[k]);
    MonthEndFacts(markers[k]);
  }
}
