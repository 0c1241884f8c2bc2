/** The chart's edits of its plan: the task list (each task with its
    sub-tasks) and the holiday list. Every edit builds a new list from the
    old one; tasks and sub-tasks are found by id, and entries whose id does
    not match are kept as they were, in their order. */
module PlanEdits {
  import opened Wrappers
  import opened Strings
  import opened Calendar
  import opened BusinessDays

  /** A field value: the initial plan holds numbers for costs, the inputs
      store the text typed in. */
  datatype Value = Text(text: string) | Number(number: real)

  datatype SubTask = SubTask(id: int, name: string, startDate: string, endDate: string,
                             color: string, cost: Value)

  datatype Task = Task(id: int, name: string, startDate: string, endDate: string,
                       color: string, cost: Value, expanded: bool, subTasks: seq<SubTask>)

  /** The fields the chart's inputs edit by name. */
  datatype Field = NameField | StartDateField | EndDateField | ColorField | CostField

  /** Milliseconds in a day. */
  const DayMillis: int := 86400000

  // ---------------------------------------------------------------- fields

  function TaskField(t: Task, f: Field): Value {
    match f
    case NameField => Text(t.name)
    case StartDateField => Text(t.startDate)
    case EndDateField => Text(t.endDate)
    case ColorField => Text(t.color)
    case CostField => t.cost
  }

  function SubTaskField(st: SubTask, f: Field): Value {
    match f
    case NameField => Text(st.name)
    case StartDateField => Text(st.startDate)
    case EndDateField => Text(st.endDate)
    case ColorField => Text(st.color)
    case CostField => st.cost
  }

  /** `{ ...task, [field]: value }`: the named field takes the typed text;
      every other field, the id, `expanded` and the sub-tasks stay. */
  function SetTaskField(t: Task, f: Field, value: string): (r: Task)
    ensures TaskField(r, f) == Text(value)
    ensures forall g :: g != f ==> TaskField(r, g) == TaskField(t, g)
    ensures r.id == t.id && r.expanded == t.expanded && r.subTasks == t.subTasks
  {
    match f
    case NameField => t.(name := value)
    case StartDateField => t.(startDate := value)
    case EndDateField => t.(endDate := value)
    case ColorField => t.(color := value)
    case CostField => t.(cost := Text(value))
  }

  /** `{ ...st, [field]: value }` on a sub-task. */
  function SetSubTaskField(st: SubTask, f: Field, value: string): (r: SubTask)
    ensures SubTaskField(r, f) == Text(value)
    ensures forall g :: g != f ==> SubTaskField(r, g) == SubTaskField(st, g)
    ensures r.id == st.id
  {
    match f
    case NameField => st.(name := value)
    case StartDateField => st.(startDate := value)
    case EndDateField => st.(endDate := value)
    case ColorField => st.(color := value)
    case CostField => st.(cost := Text(value))
  }

  // ----------------------------------------------------- mapping by id

  /** `tasks.map(task => task.id === id ? edit(task) : task)`. */
  function MapTasks(tasks: seq<Task>, id: int, edit: Task -> Task): (r: seq<Task>)
    ensures |r| == |tasks|
    ensures forall i :: 0 <= i < |tasks| ==> r[i] == if tasks[i].id == id then edit(tasks[i]) else tasks[i]
  {
    if tasks == [] then []
    else
      var last := tasks[|tasks| - 1];
      MapTasks(tasks[..|tasks| - 1], id, edit) + [if last.id == id then edit(last) else last]
  }

  /** `subTasks.map(st => st.id === id ? edit(st) : st)`. */
  function MapSubTasks(subTasks: seq<SubTask>, id: int, edit: SubTask -> SubTask): (r: seq<SubTask>)
    ensures |r| == |subTasks|
    ensures forall i :: 0 <= i < |subTasks| ==> r[i] == if subTasks[i].id == id then edit(subTasks[i]) else subTasks[i]
  {
    if subTasks == [] then []
    else
      var last := subTasks[|subTasks| - 1];
      MapSubTasks(subTasks[..|subTasks| - 1], id, edit) + [if last.id == id then edit(last) else last]
  }

  /** `a` keeps some of the entries of `b`, in their order. */
  predicate IsSubsequence<T(==)>(a: seq<T>, b: seq<T>) {
    if a == [] then true
    else if b == [] then false
    else if a[0] == b[0] then IsSubsequence(a[1..], b[1..])
    else IsSubsequence(a, b[1..])
  }

  function TaskIds(tasks: seq<Task>): seq<int> {
    seq(|tasks|, i requires 0 <= i < |tasks| => tasks[i].id)
  }

  /** Mapping by id keeps every id in place. */
  lemma MapTasksKeepsIds(tasks: seq<Task>, id: int, edit: Task -> Task)
    requires forall t :: edit(t).id == t.id
    ensures TaskIds(MapTasks(tasks, id, edit)) == TaskIds(tasks)
  {
  }

  // ----------------------------------------------------------- task edits

  /** The task `addTask` appends: its id is the clock in milliseconds, its
      dates are today and a week later as UTC calendar days. */
  function NewTask(nowMillis: int): Task {
    Task(nowMillis, "New Task", IsoDate(nowMillis / DayMillis), IsoDate((nowMillis + 7 * DayMillis) / DayMillis),
         "#6366f1", Number(0.0), true, [])
  }

  function AddTask(tasks: seq<Task>, nowMillis: int): (r: seq<Task>)
    ensures |r| == |tasks| + 1 && r[..|tasks|] == tasks
    ensures r[|tasks|].id == nowMillis && r[|tasks|].subTasks == [] && r[|tasks|].expanded
  {
    tasks + [NewTask(nowMillis)]
  }

  /** A new task ends seven calendar days after it starts: its end date text
      is the start's day number plus seven. */
  lemma NewTaskSpansAWeek(nowMillis: int)
    ensures var d := nowMillis / DayMillis;
      NewTask(nowMillis).startDate == IsoDate(d) && NewTask(nowMillis).endDate == IsoDate(d + 7)
  {
    assert (nowMillis + 7 * DayMillis) / DayMillis == nowMillis / DayMillis + 7;
  }

  /** `tasks.filter(task => task.id !== id)`. */
  function RemoveTask(tasks: seq<Task>, id: int): (r: seq<Task>)
    ensures forall t :: t in r <==> t in tasks && t.id != id
    ensures forall t :: multiset(r)[t] == if t.id == id then 0 else multiset(tasks)[t]
    ensures IsSubsequence(r, tasks)
  {
    if tasks == [] then []
    else
      assert tasks == [tasks[0]] + tasks[1..];
      var rest := RemoveTask(tasks[1..], id);
      assert forall t :: t in tasks <==> t == tasks[0] || t in tasks[1..];
      if tasks[0].id == id then rest else [tasks[0]] + rest
  }

  /** Removing an id no task has changes nothing. */
  lemma {:induction false} RemoveAbsentTask(tasks: seq<Task>, id: int)
    requires forall t :: t in tasks ==> t.id != id
    ensures RemoveTask(tasks, id) == tasks
  {
    if tasks != [] {
      RemoveAbsentTask(tasks[1..], id);
      assert tasks == [tasks[0]] + tasks[1..];
    }
  }

  function UpdateTask(tasks: seq<Task>, id: int, f: Field, value: string): (r: seq<Task>)
    ensures |r| == |tasks|
  {
    MapTasks(tasks, id, (t: Task) => SetTaskField(t, f, value))
  }

  /** `updateTask` sets the field of the matching tasks and leaves every
      other field and every other task as it was; doing it twice is the same
      as doing it once. */
  lemma UpdateTaskEffect(tasks: seq<Task>, id: int, f: Field, value: string)
    ensures forall i :: 0 <= i < |tasks| && tasks[i].id == id ==>
      && TaskField(UpdateTask(tasks, id, f, value)[i], f) == Text(value)
      && (forall g :: g != f ==> TaskField(UpdateTask(tasks, id, f, value)[i], g) == TaskField(tasks[i], g))
    ensures forall i :: 0 <= i < |tasks| && tasks[i].id != id ==> UpdateTask(tasks, id, f, value)[i] == tasks[i]
    ensures TaskIds(UpdateTask(tasks, id, f, value)) == TaskIds(tasks)
    ensures UpdateTask(UpdateTask(tasks, id, f, value), id, f, value) == UpdateTask(tasks, id, f, value)
  {
    var r := UpdateTask(tasks, id, f, value);
    var rr := UpdateTask(r, id, f, value);
    forall i | 0 <= i < |tasks|
      ensures rr[i] == r[i]
    {
      if tasks[i].id == id {
        SetTaskFieldTwice(tasks[i], f, value);
      }
    }
    assert TaskIds(r) == TaskIds(tasks) by {
      MapTasksKeepsIds(tasks, id, (t: Task) => SetTaskField(t, f, value));
    }
  }

  lemma SetTaskFieldTwice(t: Task, f: Field, value: string)
    ensures SetTaskField(SetTaskField(t, f, value), f, value) == SetTaskField(t, f, value)
  {
  }

  /** `parseInt(duration) || 1`: NaN and 0 become one day. */
  function DurationDays(duration: string): (days: int)
    ensures days != 0
  {
    match ParseInt(duration)
    case None => 1
    case Some(v) => if v == 0 then 1 else v
  }

  /** A typed positive number is taken as it is; empty input, "0" and text
      without digits mean one day. */
  lemma DurationDaysOfInput(n: nat, s: string)
    requires forall i :: 0 <= i < |s| ==> !IsDigit(s[i])
    ensures n >= 1 ==> DurationDays(NatToString(n)) == n
    ensures DurationDays(NatToString(0)) == 1
    ensures DurationDays(s) == 1
  {
    ParseIntOfDecimal(n, []);
    ParseIntOfDecimal(0, []);
    assert NatToString(n) + [] == NatToString(n);
    assert NatToString(0) + [] == NatToString(0);
    ParseIntNoDigits(s);
  }

  /** The end date a duration input gives a task that starts on `start`. */
  function DurationEnd(start: string, duration: string, holidays: seq<string>): string {
    AddedBusinessDate(start, DurationDays(duration), holidays)
  }

  function UpdateTaskDuration(tasks: seq<Task>, id: int, duration: string, holidays: seq<string>): (r: seq<Task>)
    ensures |r| == |tasks|
  {
    MapTasks(tasks, id, (t: Task) => t.(endDate := DurationEnd(t.startDate, duration, holidays)))
  }

  /** `updateTaskDuration` changes only the end date of the matching tasks,
      to `addBusinessDays(startDate, parseInt(duration) || 1)`. */
  lemma UpdateTaskDurationEffect(tasks: seq<Task>, id: int, duration: string, holidays: seq<string>)
    ensures forall i :: 0 <= i < |tasks| ==>
      UpdateTaskDuration(tasks, id, duration, holidays)[i]
        == if tasks[i].id == id then tasks[i].(endDate := DurationEnd(tasks[i].startDate, duration, holidays))
           else tasks[i]
  {
  }

  /** Reading a duration back: when the start is a day of the years
      1000..9999, the typed duration is positive, and the end lands inside
      the loop bound on a day of those years, the business days from the
      start to the new end are exactly the typed duration. */
  lemma DurationRoundTrip(s: Day, duration: string, holidays: seq<string>)
    requires 1000 <= CivilFromDays(s).year <= 9999
    requires DurationDays(duration) >= 1
    requires Advance(BusinessDay(holidays), s, DurationDays(duration)) < s + SafetyCap
    requires 1000 <= CivilFromDays(Advance(BusinessDay(holidays), s, DurationDays(duration))).year <= 9999
    ensures BusinessDayCount(FormatDate(s), DurationEnd(FormatDate(s), duration, holidays), holidays)
         == DurationDays(duration)
  {
    var ok := BusinessDay(holidays);
    var days := DurationDays(duration);
    var r := Advance(ok, s, days);
    FormatParseRoundTrip(s);
    FormatParseRoundTrip(r);
    FormatDateFields(s);
    FormatDateFields(r);
    CountUpToAdvance(ok, s, days);
  }

  function SubTaskDurationEdit(parentId: int, subTaskId: int, duration: string, holidays: seq<string>): Task -> Task {
    (t: Task) => t.(subTasks := MapSubTasks(t.subTasks, subTaskId,
      (st: SubTask) => st.(endDate := DurationEnd(st.startDate, duration, holidays))))
  }

  function UpdateSubTaskDuration(tasks: seq<Task>, parentId: int, subTaskId: int, duration: string,
                                 holidays: seq<string>): (r: seq<Task>)
    ensures |r| == |tasks|
  {
    MapTasks(tasks, parentId, SubTaskDurationEdit(parentId, subTaskId, duration, holidays))
  }

  /** `updateSubTaskDuration` changes only the end dates of the matching
      sub-tasks of the matching tasks. */
  lemma UpdateSubTaskDurationEffect(tasks: seq<Task>, parentId: int, subTaskId: int, duration: string,
                                    holidays: seq<string>)
    ensures forall i :: 0 <= i < |tasks| && tasks[i].id != parentId ==>
      UpdateSubTaskDuration(tasks, parentId, subTaskId, duration, holidays)[i] == tasks[i]
    ensures forall i :: 0 <= i < |tasks| && tasks[i].id == parentId ==>
      var t := UpdateSubTaskDuration(tasks, parentId, subTaskId, duration, holidays)[i];
      && t == tasks[i].(subTasks := t.subTasks)
      && |t.subTasks| == |tasks[i].subTasks|
      && forall j :: 0 <= j < |t.subTasks| ==>
           t.subTasks[j] == if tasks[i].subTasks[j].id == subTaskId
             then tasks[i].subTasks[j].(endDate := DurationEnd(tasks[i].subTasks[j].startDate, duration, holidays))
             else tasks[i].subTasks[j]
  {
  }

  function ToggleExpanded(tasks: seq<Task>, id: int): (r: seq<Task>)
    ensures |r| == |tasks|
  {
    MapTasks(tasks, id, (t: Task) => t.(expanded := !t.expanded))
  }

  /** Toggling flips `expanded` of the matching tasks only, and toggling
      twice restores the list. */
  lemma ToggleExpandedEffect(tasks: seq<Task>, id: int)
    ensures forall i :: 0 <= i < |tasks| ==>
      ToggleExpanded(tasks, id)[i] == if tasks[i].id == id then tasks[i].(expanded := !tasks[i].expanded) else tasks[i]
    ensures ToggleExpanded(ToggleExpanded(tasks, id), id) == tasks
  {
    var r := ToggleExpanded(ToggleExpanded(tasks, id), id);
    assert forall i :: 0 <= i < |tasks| ==> r[i] == tasks[i];
  }

  // ------------------------------------------------------ sub-task edits

  /** `tasks.find(t => t.id === id)`. */
  function FindTask(tasks: seq<Task>, id: int): (r: Option<Task>)
    ensures r.None? <==> forall t :: t in tasks ==> t.id != id
    ensures r.Some? ==> exists i :: 0 <= i < |tasks| && tasks[i] == r.value && r.value.id == id
                                    && forall j :: 0 <= j < i ==> tasks[j].id != id
  {
    if tasks == [] then None
    else if tasks[0].id == id then Some(tasks[0])
    else
      var r := FindTask(tasks[1..], id);
      assert forall t :: t in tasks <==> t == tasks[0] || t in tasks[1..];
      assert r.Some? ==> exists i :: 0 <= i < |tasks| && tasks[i] == r.value && r.value.id == id
                                    && forall j :: 0 <= j < i ==> tasks[j].id != id by {
        if r.Some? {
          var i :| 0 <= i < |tasks[1..]| && tasks[1..][i] == r.value && r.value.id == id
                   && forall j :: 0 <= j < i ==> tasks[1..][j].id != id;
          assert tasks[i + 1] == r.value && forall j :: 0 <= j < i + 1 ==> tasks[j].id != id;
        }
      }
      r
  }

  /** The sub-task `addSubTask` appends: it copies the parent's dates and
      takes the parent's colour with "cc" (a transparency) appended. */
  function NewSubTask(parent: Task, nowMillis: int): SubTask {
    SubTask(nowMillis, "New Sub-task", parent.startDate, parent.endDate, parent.color + "cc", Number(0.0))
  }

  /** `addSubTask`: None when no task has the id (reading the missing
      parent's fields throws). Every task with the id gets the new sub-task
      at the end of its list and is expanded. */
  function AddSubTask(tasks: seq<Task>, parentId: int, nowMillis: int): (r: Option<seq<Task>>)
    ensures r.None? <==> forall t :: t in tasks ==> t.id != parentId
  {
    match FindTask(tasks, parentId)
    case None => None
    case Some(parent) =>
      var sub := NewSubTask(parent, nowMillis);
      Some(MapTasks(tasks, parentId, (t: Task) => t.(subTasks := t.subTasks + [sub], expanded := true)))
  }

  /** With the parent found at index p, the parent keeps its fields, gets one
      more sub-task copying its dates, and is expanded; other tasks stay. */
  lemma AddSubTaskEffect(tasks: seq<Task>, parentId: int, nowMillis: int, p: int)
    requires 0 <= p < |tasks| && tasks[p].id == parentId
    requires forall j :: 0 <= j < |tasks| && j != p ==> tasks[j].id != parentId
    ensures AddSubTask(tasks, parentId, nowMillis).Some?
    ensures var r := AddSubTask(tasks, parentId, nowMillis).value;
      && |r| == |tasks|
      && (forall j :: 0 <= j < |tasks| && j != p ==> r[j] == tasks[j])
      && r[p] == tasks[p].(subTasks := tasks[p].subTasks + [NewSubTask(tasks[p], nowMillis)], expanded := true)
      && r[p].subTasks[|tasks[p].subTasks|].startDate == tasks[p].startDate
      && r[p].subTasks[|tasks[p].subTasks|].endDate == tasks[p].endDate
  {
    var found := FindTask(tasks, parentId);
    var i :| 0 <= i < |tasks| && tasks[i] == found.value && found.value.id == parentId
             && forall j :: 0 <= j < i ==> tasks[j].id != parentId;
    assert i == p;
  }

  /** `subTasks.filter(st => st.id !== id)`. */
  function RemoveSubTaskFrom(subTasks: seq<SubTask>, id: int): (r: seq<SubTask>)
    ensures forall st :: st in r <==> st in subTasks && st.id != id
    ensures forall st :: multiset(r)[st] == if st.id == id then 0 else multiset(subTasks)[st]
    ensures IsSubsequence(r, subTasks)
  {
    if subTasks == [] then []
    else
      assert subTasks == [subTasks[0]] + subTasks[1..];
      var rest := RemoveSubTaskFrom(subTasks[1..], id);
      assert forall st :: st in subTasks <==> st == subTasks[0] || st in subTasks[1..];
      if subTasks[0].id == id then rest else [subTasks[0]] + rest
  }

  function RemoveSubTask(tasks: seq<Task>, parentId: int, subTaskId: int): (r: seq<Task>)
    ensures |r| == |tasks|
  {
    MapTasks(tasks, parentId, (t: Task) => t.(subTasks := RemoveSubTaskFrom(t.subTasks, subTaskId)))
  }

  /** `removeSubTask` drops the sub-tasks with the id from the matching
      tasks, keeps their other sub-tasks in order, and nothing else. */
  lemma RemoveSubTaskEffect(tasks: seq<Task>, parentId: int, subTaskId: int)
    ensures forall i :: 0 <= i < |tasks| && tasks[i].id != parentId ==> RemoveSubTask(tasks, parentId, subTaskId)[i] == tasks[i]
    ensures forall i :: 0 <= i < |tasks| && tasks[i].id == parentId ==>
      var t := RemoveSubTask(tasks, parentId, subTaskId)[i];
      && t == tasks[i].(subTasks := t.subTasks)
      && (forall st :: st in t.subTasks <==> st in tasks[i].subTasks && st.id != subTaskId)
      && IsSubsequence(t.subTasks, tasks[i].subTasks)
  {
  }

  function UpdateSubTask(tasks: seq<Task>, parentId: int, subTaskId: int, f: Field, value: string): (r: seq<Task>)
    ensures |r| == |tasks|
  {
    MapTasks(tasks, parentId, (t: Task) => t.(subTasks := MapSubTasks(t.subTasks, subTaskId, (st: SubTask) => SetSubTaskField(st, f, value))))
  }

  /** `updateSubTask` sets the field of the matching sub-tasks of the
      matching tasks and leaves every other field, sub-task and task. */
  lemma UpdateSubTaskEffect(tasks: seq<Task>, parentId: int, subTaskId: int, f: Field, value: string)
    ensures forall i :: 0 <= i < |tasks| && tasks[i].id != parentId ==> UpdateSubTask(tasks, parentId, subTaskId, f, value)[i] == tasks[i]
    ensures forall i :: 0 <= i < |tasks| && tasks[i].id == parentId ==>
      var t := UpdateSubTask(tasks, parentId, subTaskId, f, value)[i];
      && t == tasks[i].(subTasks := t.subTasks)
      && |t.subTasks| == |tasks[i].subTasks|
      && forall j :: 0 <= j < |t.subTasks| ==>
           if tasks[i].subTasks[j].id == subTaskId then
             && SubTaskField(t.subTasks[j], f) == Text(value)
             && t.subTasks[j].id == subTaskId
             && forall g :: g != f ==> SubTaskField(t.subTasks[j], g) == SubTaskField(tasks[i].subTasks[j], g)
           else t.subTasks[j] == tasks[i].subTasks[j]
  {
  }

  // ------------------------------------------------------------ holidays

  /** String order by character code, as the default `Array.prototype.sort`
      compares strings. */
  predicate LexLe(a: string, b: string) {
    a == [] || (b != [] && (a[0] < b[0] || (a[0] == b[0] && LexLe(a[1..], b[1..]))))
  }

  lemma {:induction false} LexLeTotal(a: string, b: string)
    ensures LexLe(a, b) || LexLe(b, a)
  {
    if a != [] && b != [] && a[0] == b[0] {
      LexLeTotal(a[1..], b[1..]);
    }
  }

  lemma {:induction false} LexLeAntisymmetric(a: string, b: string)
    requires LexLe(a, b) && LexLe(b, a)
    ensures a == b
  {
    if a != [] && b != [] {
      LexLeAntisymmetric(a[1..], b[1..]);
      assert a == [a[0]] + a[1..] && b == [b[0]] + b[1..];
    }
  }

  lemma {:induction false} LexLeTransitive(a: string, b: string, c: string)
    requires LexLe(a, b) && LexLe(b, c)
    ensures LexLe(a, c)
  {
    if a != [] && b != [] && c != [] && a[0] == b[0] && b[0] == c[0] {
      LexLeTransitive(a[1..], b[1..], c[1..]);
    }
  }

  predicate Sorted(s: seq<string>) {
    forall i, j :: 0 <= i < j < |s| ==> LexLe(s[i], s[j])
  }

  predicate NoDuplicates(s: seq<string>) {
    forall i, j :: 0 <= i < j < |s| ==> s[i] != s[j]
  }

  /** Inserts x into a sorted list at its place. */
  function Insert(x: string, s: seq<string>): (r: seq<string>)
    requires Sorted(s)
    ensures Sorted(r)
    ensures multiset(r) == multiset(s) + multiset{x}
  {
    if s == [] then [x]
    else if LexLe(x, s[0]) then
      assert forall j :: 0 <= j < |s| ==> LexLe(x, s[j]) by {
        forall j | 0 <= j < |s|
          ensures LexLe(x, s[j])
        {
          if j > 0 {
            LexLeTransitive(x, s[0], s[j]);
          }
        }
      }
      [x] + s
    else
      LexLeTotal(x, s[0]);
      assert Sorted(s[1..]);
      var rest := Insert(x, s[1..]);
      assert forall y :: y in rest ==> LexLe(s[0], y) by {
        forall y | y in rest
          ensures LexLe(s[0], y)
        {
          assert y in multiset(rest);
          if y != x {
            assert y in multiset(s[1..]);
            var k :| 0 <= k < |s[1..]| && s[1..][k] == y;
            assert s[k + 1] == y;
          }
        }
      }
      var r := [s[0]] + rest;
      assert forall i, j :: 0 <= i < j < |r| ==> LexLe(r[i], r[j]) by {
        forall i, j | 0 <= i < j < |r|
          ensures LexLe(r[i], r[j])
        {
          if i == 0 {
            assert r[j] == rest[j - 1];
            assert r[j] in rest;
          } else {
            assert r[i] == rest[i - 1] && r[j] == rest[j - 1];
          }
        }
      }
      assert s == [s[0]] + s[1..];
      r
  }

  /** What the default `Array.prototype.sort` makes of a list of strings. */
  function SortStrings(s: seq<string>): (r: seq<string>)
    ensures Sorted(r)
    ensures multiset(r) == multiset(s)
  {
    if s == [] then []
    else
      assert s == [s[0]] + s[1..];
      Insert(s[0], SortStrings(s[1..]))
  }

  /** `addHoliday` on the holiday list and the pending date input: a new,
      non-empty date is added, the list sorted and the input cleared; an
      empty or already listed date changes nothing. */
  function AddHoliday(holidays: seq<string>, pending: string): (r: (seq<string>, string))
    ensures pending == "" || pending in holidays ==> r == (holidays, pending)
    ensures pending != "" && pending !in holidays ==>
      Sorted(r.0) && multiset(r.0) == multiset(holidays) + multiset{pending} && r.1 == ""
  {
    if pending != "" && pending !in holidays then (SortStrings(holidays + [pending]), "")
    else (holidays, pending)
  }

  /** A duplicate-free holiday list stays duplicate-free, and the new date is
      listed. */
  lemma AddHolidayKeepsDistinct(holidays: seq<string>, pending: string)
    requires NoDuplicates(holidays)
    ensures NoDuplicates(AddHoliday(holidays, pending).0)
    ensures pending != "" ==> pending in AddHoliday(holidays, pending).0
  {
    var r := AddHoliday(holidays, pending).0;
    if pending != "" && pending !in holidays {
      assert pending in multiset(r);
      var extended := holidays + [pending];
      assert NoDuplicates(extended) by {
        forall i, j | 0 <= i < j < |extended|
          ensures extended[i] != extended[j]
        {
          if j == |holidays| {
            assert extended[i] in holidays;
          }
        }
      }
      forall i, j | 0 <= i < j < |r|
        ensures r[i] != r[j]
      {
        if r[i] == r[j] {
          MultisetCountTwo(r, i, j);
          DistinctCountOne(holidays + [pending], r[i]);
        }
      }
    }
  }

  lemma MultisetCountTwo(s: seq<string>, i: int, j: int)
    requires 0 <= i < j < |s| && s[i] == s[j]
    ensures multiset(s)[s[i]] >= 2
  {
    var x := s[i];
    assert s == s[..i] + [x] + s[i + 1..j] + [x] + s[j + 1..];
  }

  lemma {:induction false} DistinctCountOne(s: seq<string>, x: string)
    requires NoDuplicates(s)
    ensures multiset(s)[x] <= 1
  {
    if s != [] {
      var t := s[..|s| - 1];
      assert s == t + [s[|s| - 1]];
      assert NoDuplicates(t);
      DistinctCountOne(t, x);
      if x == s[|s| - 1] {
        assert x !in t;
        assert multiset(t)[x] == 0;
      }
    }
  }

  /** `holidays.filter(h => h !== date)`. */
  function RemoveHoliday(holidays: seq<string>, date: string): (r: seq<string>)
    ensures forall h :: h in r <==> h in holidays && h != date
    ensures forall h :: multiset(r)[h] == if h == date then 0 else multiset(holidays)[h]
    ensures IsSubsequence(r, holidays)
  {
    if holidays == [] then []
    else
      assert holidays == [holidays[0]] + holidays[1..];
      var rest := RemoveHoliday(holidays[1..], date);
      assert forall h :: h in holidays <==> h == holidays[0] || h in holidays[1..];
      assert rest != [] ==> rest[0] in rest && rest[0] != date;
      if holidays[0] == date then rest else [holidays[0]] + rest
  }

  /** A subsequence of a sorted list is sorted: removing a holiday keeps the
      list sorted. */
  lemma {:induction false} SubsequenceSorted(a: seq<string>, b: seq<string>)
    requires IsSubsequence(a, b) && Sorted(b)
    ensures Sorted(a)
  {
    if a != [] && b != [] {
      assert Sorted(b[1..]);
      if a[0] == b[0] {
        SubsequenceSorted(a[1..], b[1..]);
        forall j | 0 < j < |a|
          ensures LexLe(a[0], a[j])
        {
          SubsequenceMember(a[1..], b[1..], j - 1);
        }
      } else {
        SubsequenceSorted(a, b[1..]);
      }
    }
  }

  lemma {:induction false} SubsequenceMember(a: seq<string>, b: seq<string>, k: int)
    requires IsSubsequence(a, b) && 0 <= k < |a|
    ensures a[k] in b
  {
    if a[0] == b[0] {
      if k > 0 {
        SubsequenceMember(a[1..], b[1..], k - 1);
      }
    } else {
      SubsequenceMember(a, b[1..], k);
    }
  }
}
