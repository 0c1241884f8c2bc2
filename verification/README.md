# Gantt chart: business days, plan edits, sessions and sign-in

This project models the logic at the centre of a React Gantt-chart
application and its small serverless backend, and proves properties of it
in Dafny.

- **Chart.** The chart (`GanttChart.jsx`) keeps a plan of tasks and
  sub-tasks with "YYYY-MM-DD" start and end dates, plus a list of holidays.
  - It counts business days in a range (`getBusinessDays`).
  - It moves a date forward by a number of business days
    (`addBusinessDays`).
  - It edits the plan by id (add, remove and update tasks and sub-tasks,
    durations, the expanded flag, holidays).
  - It snaps the plan's date span outwards to whole months
    (`getTimelineRange`) and emits one marker per month
    (`generateMonthMarkers`).
- **Dashboard.** It clamps completion percentages into [0, 100] and
  labels them (`DashboardView.jsx`).
- **Backend.** The backend signs users in with OAuth. It keeps a signed
  session cookie and stores one JSON workspace per user.
  - `api/_lib/session.js`: cookie parsing and serialisation, and signed
    tokens. The session and OAuth-state cookies follow RFC 6265
    (sections 4.1 and 4.2).
  - `api/_lib/env.js`: the base URL and the environment lookups.
  - `api/_lib/oauth.js`: the authorize URLs and the profile checks of the
    authorization-code flow (section 4.1 of RFC 6749).
  - `api/_lib/users.js`: identity resolution over the `app_user` and
    `user_identity` tables.
  - `api/workspace.js`: the workspace endpoint.
  - `api/auth/callback/google.js`: the Google callback.

Modelling choices:

- **Dates.** Dates are day numbers counted from 1970-01-01. They convert
  to and from proleptic-Gregorian (year, month, day) triples. The weekday
  is computed modulo 7.
- **Loops and mutation.** The loops of the source are methods with loop
  invariants. Each is proved equal to a specification function, and the
  properties are proved about those functions.
  - The response object is a class with the fields the handlers set.
  - The user tables and the workspace table are classes whose methods
    update maps.
- **Exceptions.** A thrown error is a `Result` carrying its message.
- **Outside inputs.** The clock and random identifiers are parameters. So
  are the outcomes of network exchanges and the database failures of the
  workspace handler. The user tables model only their key and index
  conflicts.
- **Encoders.** HMAC, base64url, JSON text, URI encoding and whether the
  URL parser accepts a text are fields of a `Codecs` record of functions. Lemmas that need a round trip of them
  take it as a precondition.

Files, one module each:

- `Wrappers`
- `Strings`: the JavaScript string built-ins used.
- `Json`
- `Http`
- `Env`
- `Calendar`: `getDateAtNoon` and `formatDate`.
- `BusinessDays`
- `PlanEdits`
- `Timeline`
- `Dashboard`
- `Session`
- `OAuth`
- `Users`
- `Workspace`
- `GoogleCallback`

## Model

| member | source | states |
|---|---|---|
| Strings.Trim | api/_lib/env.js:3 | `trim()` drops exactly the leading and the trailing whitespace: the result is the text between them, starts and ends with no whitespace, and is empty exactly for all-whitespace text |
| Strings.TrimStart | api/_lib/env.js:3 | the result is a suffix of the text, everything before it is whitespace, and it does not start with whitespace |
| Strings.TrimEnd | api/_lib/env.js:3 | the result is a prefix of the text, everything after it is whitespace, and it does not end with whitespace |
| Strings.TrimOfTrimmed | api/_lib/env.js:3 | trimming text that has no whitespace at either end changes nothing |
| Strings.TrimIdempotent | api/_lib/users.js:6 | trimming twice is trimming once |
| Strings.Lower | api/_lib/users.js:6 | `toLowerCase()` keeps the length |
| Strings.LowerAt | api/_lib/users.js:6 | each character is lower-cased on its own, capitals A-Z becoming a-z and every other character kept |
| Strings.LowerKeepsTrimmed | api/_lib/users.js:6 | lower-casing trimmed text keeps it trimmed |
| Strings.LowerIdempotent | api/_lib/users.js:6 | lower-casing twice is lower-casing once |
| Strings.NatToString | GanttChart.jsx:15-17 | `String(n)` is a non-empty digit string with no leading zero that reads back as n |
| Strings.NatToStringOfDigits | GanttChart.jsx:10 | digits without a leading zero, read by `Number` and printed by `String`, give the same text |
| Strings.IntToString | GanttChart.jsx:15 | `String(i)` of an integer is the canonical digits of its magnitude, after a '-' exactly for a negative number; the text determines the number (Calendar.FormatDateFields, Calendar.FormatDateInjective) |
| Strings.IndexOf | api/_lib/session.js:17 | `indexOf` gives the first position holding the character |
| Strings.Split | api/_lib/session.js:12-13 | `split` always gives at least one part |
| Strings.SplitPartsFree | GanttChart.jsx:10 | no part of `split(sep)` contains the separator |
| Strings.JoinSplit | api/_lib/session.js:12-13 | joining the parts of `split(sep)` with the separator gives the text back |
| Strings.SplitTwo | api/_lib/session.js:76 | two separator-free texts joined by the separator split into exactly those two parts |
| Strings.ParseIntOfDecimal | GanttChart.jsx:272 | `parseInt` of decimal text followed by a non-digit reads the number |
| Strings.ParseIntOfNegative | GanttChart.jsx:272 | `parseInt` of "-" and decimal text reads the negated number |
| Strings.ParseIntNoDigits | GanttChart.jsx:272 | `parseInt` of text without digits is NaN |
| Strings.ParseInt | GanttChart.jsx:272 | the definition of `parseInt` without a radix: whitespace skipped, one sign, "0x" for base 16, the longest digit run, NaN without a digit; its properties are the rows Strings.ParseIntOfDecimal, Strings.ParseIntOfNegative and Strings.ParseIntNoDigits |
| Json.Lookup | api/_lib/session.js:86 | a parsed member is absent exactly when no member has the name; otherwise it is the last member of that name |
| Json.LookupAt | api/_lib/session.js:86 | a member with no later duplicate is the one read |
| Json.Get | api/_lib/session.js:143 | a member of anything but an object is undefined |
| Json.StringOrNull | api/_lib/session.js:151-152 | `typeof x === 'string' ? x : null` keeps exactly the string members |
| Json.NullIfEmpty | api/_lib/session.js:97-98 | `x \|\| null` turns exactly the missing and empty strings into null and keeps the others |
| Json.JsonOfOption | api/_lib/session.js:97-98 | the claim is a JSON string exactly when a value is given, and null otherwise |
| Json.Utf8Length | api/workspace.js:22 | the UTF-8 byte length lies between the character count and four times it |
| Json.Property | api/workspace.js:55 | reading a property throws exactly on null and otherwise yields the member |
| Json.JsText | api/_lib/oauth.js:79-80 | `String(undefined)` is "undefined" and `String` of a string is the string |
| Json.JsString | api/_lib/oauth.js:159 | `String` of a string value is the string itself |
| Http.Header | api/_lib/env.js:12-13 | a request header is present exactly when the request carries it |
| Http.QueryParam | api/auth/callback/google.js:32 | a query parameter is present exactly when the request carries it |
| Http.HeaderValues | api/_lib/session.js:39-40 | an unset header carries no values |
| Http.Others | api/auth/callback/google.js:20-21 | the pairs kept beside a set name are exactly the pairs of the list with other names: each comes from the list, and none is dropped |
| Http.OthersOfUnnamed | api/auth/callback/google.js:20-21 | a list without the name is kept whole |
| Http.SetParam | api/auth/callback/google.js:20-21 | after `searchParams.set` the pair is present, every pair came from before or is the new one, and every pair with another name is kept |
| Http.SetParamReadsBack | api/auth/callback/google.js:20-21 | after `searchParams.set` the name reads back as the value and exactly one pair holds it |
| Http.SetParamNew | api/auth/callback/google.js:20-21 | setting a name not yet present appends the pair |
| Http.ParamValue | api/auth/callback/google.js:20-21 | the value read for a name is a pair of the list, absent exactly when no pair has the name |
| Http.Response.constructor | api/_lib/http.js:1-11 | a fresh response has status 200, no headers, no body, and is not ended |
| Http.SendJson | api/_lib/http.js:1-5 | `json` sets the status, the JSON content type and the body, ends the response, and leaves cookies, Location and Allow alone |
| Http.Redirect | api/_lib/http.js:7-11 | `redirect` sets the status and Location, ends the response, and leaves cookies, body and Allow alone |
| Env.EnvVar | api/_lib/env.js:19 | `process.env[key]` is set exactly when the variable exists |
| Env.TrailingSlashes | api/_lib/env.js:5 | counts exactly the run of '/' at the end |
| Env.StripTrailingSlashes | api/_lib/env.js:5 | `replace(/\/+$/, '')` keeps a prefix, drops only slashes and leaves no trailing '/' |
| Env.NormalizeBaseUrl | api/_lib/env.js:1-6 | null exactly for a missing or blank value; otherwise the trimmed text with only '/' characters cut from its end, leaving text that neither starts with whitespace nor ends in '/' |
| Env.NormalizeOnlySlashes | api/_lib/env.js:5 | a value of only slashes normalises to "" |
| Env.NormalizeIdempotent | api/_lib/env.js:3-5 | normalising again changes nothing when the first result is non-empty and does not end in whitespace |
| Env.NormalizeKeepsInnerSpace | api/_lib/env.js:3-5 | "a /" normalises to "a " because the trim happens before the slashes are stripped |
| Env.NormalizeNotIdempotent | api/_lib/env.js:3-5 | so normalising is not idempotent: a second pass turns "a " into "a" |
| Env.HeaderOr | api/_lib/env.js:12-13 | `req.headers[name] \|\| fallback`: a present non-empty header wins, otherwise the fallback |
| Env.GetBaseUrl | api/_lib/env.js:8-16 | a non-empty normalised APP_URL wins; otherwise `proto://host` from x-forwarded-host over host and x-forwarded-proto over "https"; null exactly without a host |
| Env.BaseUrlFromEnvHasNoTrailingSlash | api/_lib/env.js:9-10 | a base URL taken from APP_URL never ends in '/' |
| Env.GetEnv | api/_lib/env.js:18-24 | throws "Missing required environment variable: KEY" exactly for a missing or empty variable, else gives its value |
| Env.OptionalEnv | api/_lib/env.js:26-29 | null exactly for a missing or empty variable |
| Env.GetEnvAgreesWithOptionalEnv | api/_lib/env.js:18-29 | `getEnv` throws exactly where `optionalEnv` gives null, and otherwise both give the same value |
| Env.AuthProvidersConfigured | api/_lib/env.js:31-34 | a provider is configured exactly when both its client id and its secret are non-empty |
| Calendar.MakeDay | GanttChart.jsx:11 | `new Date(y, m - 1, d)` is the day number of (y, m, d) for months 1..12, with days past the month's end overflowing |
| Calendar.CivilFromDaysSound | GanttChart.jsx:15-17 | the date `getFullYear`/`getMonth`/`getDate` read is a real calendar date with that day number |
| Calendar.DaysFromCivilInjective | GanttChart.jsx:11 | different real dates have different day numbers |
| Calendar.CivilRoundTrip | GanttChart.jsx:11-17 | a real date, turned into its day and read back, is the same date |
| Calendar.Weekday | GanttChart.jsx:31 | `getDay` lies in 0..6 (0 = Sunday) |
| Calendar.Pad2Digits | GanttChart.jsx:16-17 | `padStart(2, '0')` of a number below 100 is two digits reading back as the number |
| Calendar.Pad2OfDigits | GanttChart.jsx:16-17 | two digits, read as a number and padded again, give the same text |
| Calendar.FormatDateFields | GanttChart.jsx:14-19 | `formatDate` prints the year, '-', two month digits, '-', two day digits, each field reading back as the date's value |
| Calendar.FormatDate | GanttChart.jsx:14-19 | the definition of `formatDate`; its properties are the rows Calendar.FormatDateFields, Calendar.FormatDateInjective and the two round-trip rows with Calendar.ParseDate |
| Calendar.ZeroPad | GanttChart.jsx:241-242 | padding decimal text with zeros to a width gives that many digits, or the text itself when longer, with the same value |
| Calendar.IsoYear | GanttChart.jsx:241-242 | the `toISOString` year is four digits for the years 0..9999, otherwise a sign and at least six digits, reading back as the year |
| Calendar.IsoDateIsFormatDate | GanttChart.jsx:241-242 | for the years 1000..9999 the `toISOString` date text is the `formatDate` text |
| Calendar.IsoDateFields | GanttChart.jsx:241-242 | the `toISOString` date text of a day of the years 0..9999 is "YYYY-MM-DD" text naming that day; other years give text of another shape |
| Calendar.IsoDate | GanttChart.jsx:241-242 | the definition of `toISOString().split('T')[0]` for a day; its properties are the rows Calendar.IsoYear, Calendar.IsoDateFields, Calendar.IsoDateIsFormatDate and Timeline.ParseIsoOfIsoDate |
| Calendar.FormatDateInjective | GanttChart.jsx:14-19 | two days with the same text are the same day, so a holiday text names one day |
| Calendar.ParseDateText | GanttChart.jsx:9-12 | `getDateAtNoon` on DDDD-DD-DD text is the day of its three numbers, a year 0..99 being read as 1900 + y |
| Calendar.ParseDate | GanttChart.jsx:9-12 | the definition of `getDateAtNoon`; its properties are the rows Calendar.ParseDateText, Calendar.TwoDigitYearRead, Calendar.ParseFormatRoundTrip and Calendar.FormatParseRoundTrip |
| Calendar.ParseFormatRoundTrip | GanttChart.jsx:9-19 | for `full-date` text (section 5.6 of RFC 3339) with a year from 1000, `formatDate(getDateAtNoon(s)) == s` |
| Calendar.FormatParseRoundTrip | GanttChart.jsx:9-19 | a day of the years 1000..9999 prints as `full-date` text that reads back as the same day |
| Calendar.TwoDigitYearRead | GanttChart.jsx:11 | a year field 0001..0099 is read as 1900 + y, so such a date does not survive the round trip |
| BusinessDays.CountIn | GanttChart.jsx:30-40 | a count over lo..hi-1 is at most the number of those days, and 0 for an empty range |
| BusinessDays.CountWithin | GanttChart.jsx:29-41 | the loop's count never exceeds 3650 and is 0 when the start is after the end |
| BusinessDays.BusinessDayCount | GanttChart.jsx:21-42 | `getBusinessDays` is 0 for a missing start or end and for a reversed range, and at most 3650 |
| BusinessDays.GetBusinessDays | GanttChart.jsx:21-42 | the method computes BusinessDayCount |
| BusinessDays.CountDays | GanttChart.jsx:26-41 | the counting loop computes CountWithin |
| BusinessDays.CountInIsSetSize | GanttChart.jsx:30-40 | the count is the size of the set of days it counts |
| BusinessDays.CountIsBusinessDaysOfRange | GanttChart.jsx:29-41 | within 3650 days the count is the number of days of [s, e] that are neither Saturday, Sunday nor listed holidays |
| BusinessDays.SingleDay | GanttChart.jsx:30-37 | with no holidays a single day counts once exactly when it is a weekday |
| BusinessDays.CountExample | GanttChart.jsx:21-42 | 2024-03-01 to 2024-03-08 holds six business days |
| BusinessDays.LandsOnUnique | GanttChart.jsx:58-70 | the day where the stepping stops is determined by the start and the count |
| BusinessDays.AdvanceFrom | GanttChart.jsx:63-70 | stepping on from a day where the count has not yet been reached stops where the business days reach the count, or at the safety bound |
| BusinessDays.Advance | GanttChart.jsx:58-70 | the stop day is where the business days counted from the start reach the count, or the safety bound |
| BusinessDays.AddedBusinessDate | GanttChart.jsx:45-47 | `addBusinessDays` gives its start back for a missing start or a count of at most 0 |
| BusinessDays.AddBusinessDays | GanttChart.jsx:44-73 | the method computes AddedBusinessDate |
| BusinessDays.AdvanceDays | GanttChart.jsx:58-70 | the stepping loop computes Advance |
| BusinessDays.CountUpToAdvance | GanttChart.jsx:52-72 | within the bound the result is on or after the start, a business day, and counting from the start to it gives the count |
| BusinessDays.AdvanceOfCount | GanttChart.jsx:21-73 | counting the business days of [s, e] and stepping that many from s lands on e when e is a business day |
| BusinessDays.AdvanceOfCountIsLast | GanttChart.jsx:21-73 | otherwise the same round trip lands on the last business day before e |
| BusinessDays.TextRoundTrip | GanttChart.jsx:21-73 | on the stored texts, `addBusinessDays(s, getBusinessDays(s, e, H), H) == e` for a business day e within the bound |
| BusinessDays.HolidayTakesOutOneDay | GanttChart.jsx:35 | listing a day's text as a holiday removes exactly that day from the business days |
| BusinessDays.HolidayTakesOut | GanttChart.jsx:55 | the same, for one day |
| BusinessDays.AddingHolidayToCount | GanttChart.jsx:29-41 | adding a day of [s, e] to the holidays lowers the count by one exactly when it was a business day |
| BusinessDays.NoHolidays | GanttChart.jsx:35 | without holidays the business days are Monday to Friday |
| BusinessDays.IsBusinessDay | GanttChart.jsx:35 | the definition of the loop's test (not Sunday, not Saturday, not a listed holiday text); its properties are the rows BusinessDays.SingleDay, BusinessDays.NoHolidays, BusinessDays.HolidayTakesOut and BusinessDays.CountIsBusinessDaysOfRange |
| PlanEdits.SetTaskField | GanttChart.jsx:259-265 | `{ ...task, [field]: value }` sets that field and keeps every other field, the id and the sub-tasks |
| PlanEdits.SetSubTaskField | GanttChart.jsx:340 | the same on a sub-task |
| PlanEdits.MapTasks | GanttChart.jsx:256-266 | mapping by id edits exactly the tasks with that id and keeps the length and order |
| PlanEdits.MapSubTasks | GanttChart.jsx:339-341 | the same on the sub-task list |
| PlanEdits.MapTasksKeepsIds | GanttChart.jsx:256-266 | an id-preserving edit keeps every id in place |
| PlanEdits.AddTask | GanttChart.jsx:237-249 | `addTask` appends one task with the clock as id, no sub-tasks and expanded, after the unchanged list |
| PlanEdits.NewTaskSpansAWeek | GanttChart.jsx:241-242 | the new task's dates are the `toISOString` texts of today's day and of the day seven days later |
| PlanEdits.RemoveTask | GanttChart.jsx:251-253 | `removeTask` keeps exactly the tasks with another id, each as many times as before, in their order |
| PlanEdits.RemoveAbsentTask | GanttChart.jsx:251-253 | removing an id no task has changes nothing |
| PlanEdits.UpdateTask | GanttChart.jsx:255-267 | `updateTask` keeps the number of tasks; its effect is stated by UpdateTaskEffect |
| PlanEdits.UpdateTaskEffect | GanttChart.jsx:255-267 | `updateTask` sets the field of the matching tasks only, keeps the ids, and is idempotent |
| PlanEdits.SetTaskFieldTwice | GanttChart.jsx:259-265 | setting a field twice to a value is setting it once |
| PlanEdits.DurationDays | GanttChart.jsx:272 | `parseInt(duration) \|\| 1` is never 0 |
| PlanEdits.DurationDaysOfInput | GanttChart.jsx:272 | a typed positive number is taken as it is; "0" and text without digits become 1 |
| PlanEdits.UpdateTaskDuration | GanttChart.jsx:269-275 | keeps the number of tasks; its effect is stated by UpdateTaskDurationEffect |
| PlanEdits.UpdateTaskDurationEffect | GanttChart.jsx:269-275 | `updateTaskDuration` changes only the end date of the matching tasks, to `addBusinessDays(startDate, days)` |
| PlanEdits.DurationRoundTrip | GanttChart.jsx:269-275 | counting the business days from the start to the new end gives the typed duration back, within the bound |
| PlanEdits.UpdateSubTaskDuration | GanttChart.jsx:277-289 | keeps the number of tasks; its effect is stated by UpdateSubTaskDurationEffect |
| PlanEdits.UpdateSubTaskDurationEffect | GanttChart.jsx:277-289 | `updateSubTaskDuration` changes only the end dates of the matching sub-tasks of the matching tasks |
| PlanEdits.ToggleExpanded | GanttChart.jsx:291-295 | keeps the number of tasks; its effect is stated by ToggleExpandedEffect |
| PlanEdits.ToggleExpandedEffect | GanttChart.jsx:291-295 | `toggleExpanded` flips only the matching tasks' flag, and toggling twice restores the list |
| PlanEdits.FindTask | GanttChart.jsx:309 | `find` gives a task of the list with the id, absent exactly when no task has it |
| PlanEdits.AddSubTask | GanttChart.jsx:308-324 | `addSubTask` throws exactly when no task has the parent id |
| PlanEdits.AddSubTaskEffect | GanttChart.jsx:308-324 | the parent gets one sub-task appended, copying its dates, and is expanded; every other task is unchanged |
| PlanEdits.RemoveSubTaskFrom | GanttChart.jsx:329 | keeps exactly the sub-tasks with another id, each as many times as before, in order |
| PlanEdits.RemoveSubTask | GanttChart.jsx:326-332 | keeps the number of tasks; its effect is stated by RemoveSubTaskEffect |
| PlanEdits.RemoveSubTaskEffect | GanttChart.jsx:326-332 | `removeSubTask` filters only the matching parent's sub-tasks |
| PlanEdits.UpdateSubTask | GanttChart.jsx:334-345 | keeps the number of tasks; its effect is stated by UpdateSubTaskEffect |
| PlanEdits.UpdateSubTaskEffect | GanttChart.jsx:334-345 | `updateSubTask` sets the field only on the matching sub-tasks of the matching parent |
| PlanEdits.Insert | GanttChart.jsx:299 | inserting into a sorted list keeps it sorted and adds exactly one copy of the element |
| PlanEdits.SortStrings | GanttChart.jsx:299 | `sort()` gives a sorted permutation |
| PlanEdits.AddHoliday | GanttChart.jsx:297-302 | `addHoliday` does nothing for an empty or present date; otherwise the list is sorted, gains the date, and the input is cleared |
| PlanEdits.AddHolidayKeepsDistinct | GanttChart.jsx:297-302 | a duplicate-free holiday list stays duplicate-free and holds the new date |
| PlanEdits.RemoveHoliday | GanttChart.jsx:304-306 | `removeHoliday` removes every copy of that date, keeps every other holiday as many times as before, and keeps the order |
| PlanEdits.SubsequenceSorted | GanttChart.jsx:304-306 | so removing a holiday keeps the list sorted |
| Timeline.ParseIsoDate | GanttChart.jsx:503 | `new Date(text)` is modelled as valid exactly for "YYYY-MM-DD" text naming a real calendar date; the other date-only forms it accepts are under "Non-ISO date text" in Left out |
| Timeline.ParseIsoOfIsoDate | GanttChart.jsx:241-242 | the model's `ParseIsoDate` reads the `toISOString` date text of a day of the years 0..9999 back as that day, and rejects the expanded six-digit-year text of every other day, which `new Date` itself accepts (see "Non-ISO date text" in Left out) |
| Timeline.NewTaskStartsOnChart | GanttChart.jsx:241 | a new task starts on the chart at its creation day, for a day of the years 0..9999 |
| Timeline.NewTaskEndsOnChart | GanttChart.jsx:242 | a new task ends on the chart seven days after its creation day, for a day of the years 0..9999 |
| Timeline.MonthStartFacts | GanttChart.jsx:513 | `setDate(1)` gives the first day of the same month, on or before the day |
| Timeline.MonthEndFacts | GanttChart.jsx:517-518 | the month end is the last day of the same month, on or after the day |
| Timeline.AddMonthOfMonthStart | GanttChart.jsx:555 | a month start plus one month is the next month start, the day after the month end |
| Timeline.NextMonthFirst | GanttChart.jsx:555 | the first of the next month, with December running into January, is the day after the last day of this month |
| Timeline.MonthStartOfMonthStart | GanttChart.jsx:544 | `setDate(1)` on the first of a month changes nothing |
| Timeline.MonthStart | GanttChart.jsx:513 | the definition of `setDate(1)`; its properties are the rows Timeline.MonthStartFacts, Timeline.MonthStartOfMonthStart and Timeline.MonthStartWithin |
| Timeline.MonthEnd | GanttChart.jsx:517-518 | the intended end of the latest date's month; its properties are the rows Timeline.MonthEndFacts, Timeline.DayAfterMonthEnd and Timeline.MonthLength |
| Timeline.AddMonth | GanttChart.jsx:517 | the definition of `setMonth(getMonth() + 1)`, running over into the month after when the day is missing; its properties are the rows Timeline.AddMonthOfMonthStart, Timeline.NextMonthFirst and Timeline.AddMonthPastMonthEnd |
| Timeline.MonthEndAsWritten | GanttChart.jsx:517-518 | the definition of the month-end step as written; its properties are the rows Timeline.MonthEndAsWrittenIsDayBefore, Timeline.MonthEndAsWrittenCases, Timeline.MonthEndAsWrittenBounds, Timeline.MonthEndAsWrittenAgrees and Timeline.MonthEndAsWrittenOvershoots |
| Timeline.MonthEndAsWrittenAgrees | GanttChart.jsx:517-518 | the month-end step as written is right whenever the day of the month is at most 28 |
| Timeline.MonthEndAsWrittenIsDayBefore | GanttChart.jsx:517-518 | `setDate(0)` gives the day before the first day of the month that `setMonth` reached |
| Timeline.AddMonthPastMonthEnd | GanttChart.jsx:517 | one month on from a day is as many days past its month end as its day of the month |
| Timeline.DayAfterMonthEnd | GanttChart.jsx:555 | the day after a month end is a month start |
| Timeline.MonthStartWithin | GanttChart.jsx:513 | every day from a month start to that month's end has that month start |
| Timeline.MonthLength | GanttChart.jsx:517-518 | a month has at least 28 days |
| Timeline.MonthEndAsWrittenStays | GanttChart.jsx:517-518 | while one month on from a day stays in the next month, the step as written gives the day's own month end |
| Timeline.MonthEndAsWrittenRunsOver | GanttChart.jsx:517-518 | when one month on from a day runs over into the month after next, the step as written gives the next month's end |
| Timeline.MonthEndAsWrittenCases | GanttChart.jsx:517-518 | the month-end step as written gives the day's own month end when one month on stays in the next month, and the next month's end when it runs over |
| Timeline.MonthEndAsWrittenBounds | GanttChart.jsx:517-518 | the month-end step as written is a month end, never before the day's month end, and at most one month after it |
| Timeline.MonthEndAsWrittenOvershoots | GanttChart.jsx:517-518 | as written, the range end for 2024-01-31 is 2024-02-29 |
| Timeline.ParseAll | GanttChart.jsx:503-505 | when every text parses there is one day per text |
| Timeline.MinOf | GanttChart.jsx:509 | `Math.min` is an element no greater than any other |
| Timeline.MaxOf | GanttChart.jsx:510 | `Math.max` is an element no smaller than any other |
| Timeline.CollectDates | GanttChart.jsx:501-507 | the loop collects each task's dates and then its sub-tasks' dates, in order |
| Timeline.DateBounds | GanttChart.jsx:509-510 | one pass finds the minimum and maximum, or fails exactly when a date is invalid |
| Timeline.RangeAsWrittenAgainstIntended | GanttChart.jsx:498-522 | the range as written is invalid exactly when the intended one is, starts on the same day, and ends on the intended end or on the end of the month after it |
| Timeline.TimelineRangeAsWritten | GanttChart.jsx:498-522 | the definition of the range the chart computes; its properties are the rows Timeline.GetTimelineRange, Timeline.TimelineCoversPlan and Timeline.RangeAsWrittenAgainstIntended |
| Timeline.TimelineRangeOf | GanttChart.jsx:498-522 | the definition of the intended range, ending on the latest date's month end; its properties are the rows Timeline.TimelineCoversPlan, Timeline.TimelineIsTight and Timeline.RangeAsWrittenAgainstIntended |
| Timeline.GetTimelineRange | GanttChart.jsx:498-522 | the method computes the range as written: today's day for an empty plan, invalid when a date is invalid, otherwise the earliest date's month start through the month-end step as written on the latest date |
| Timeline.TimelineCoversPlan | GanttChart.jsx:498-522 | the range as written, and the intended range, of a non-empty plan start on a month's first day, end on a month's last day, and hold every task and sub-task date |
| Timeline.TimelineIsTight | GanttChart.jsx:498-522 | the intended range's first and last months are those of plan dates |
| Timeline.GenerateMonthMarkers | GanttChart.jsx:541-559 | the markers are month starts from the range's first month, each one month after the last, none after the range's end, and the month after the last one past it; no markers for an invalid range |
| Timeline.MarkersIncrease | GanttChart.jsx:555 | consecutive markers strictly increase, each the day after the previous marker's month end |
| Dashboard.ClampPercent | DashboardView.jsx:3-6 | `clampPercent` lies in [0, 100], is 0 for a non-finite value, the value itself exactly inside [0, 100], 0 below and 100 above |
| Dashboard.ClampIdempotent | DashboardView.jsx:3-6 | clamping twice is clamping once |
| Dashboard.ClampMonotone | DashboardView.jsx:3-6 | clamping keeps the order of values |
| Dashboard.Round | DashboardView.jsx:8 | `Math.round` is the integer within half of the value, halves rounding up |
| Dashboard.PercentLabelShape | DashboardView.jsx:8 | a label is a decimal whole number 0..100 without leading zeros, equal to the rounded clamped value, followed by '%' |
| Dashboard.PercentLabelOfWhole | DashboardView.jsx:8 | a whole percentage 0..100 is shown as itself |
| Dashboard.PercentLabelNotFinite | DashboardView.jsx:4 | every non-finite input reads "0%" |
| Session.NonEmptyTrimmed | api/_lib/session.js:14-15 | the items kept are trimmed and non-empty |
| Session.CookieItems | api/_lib/session.js:10-15 | a missing or empty header gives no items |
| Session.CookieSplit | api/_lib/session.js:17-18 | an item is skipped exactly when it has no '=' or starts with one; otherwise it splits at its first '=' |
| Session.ItemPair | api/_lib/session.js:17-21 | a skipped item contributes nothing; the only error is the decoder's URIError |
| Session.AddCookie | api/_lib/session.js:16-22 | one step of the fold fails exactly when decoding the item fails |
| Session.ParseCookies | api/_lib/session.js:9-24 | the fold into the accumulator computes the cookie map, empty for a missing or empty header |
| Session.CookiesAreLastValues | api/_lib/session.js:16-22 | the parsed map holds, for each name, the value of its last item |
| Session.SingleCookie | api/_lib/session.js:9-24 | a header holding one `name=value` item parses to that one pair |
| Session.CookiePath | api/_lib/session.js:30 | the path is never empty |
| Session.SerializeCookie | api/_lib/session.js:26-36 | pushing the parts and joining them with "; " gives the serialised cookie |
| Session.CookieStart | api/_lib/session.js:27-30 | the cookie starts with the encoded `name=value`, then `Max-Age=floor(maxAge)` when a number is given, else the Path |
| Session.AttributesHoldEquals | api/_lib/session.js:29-33 | every attribute except HttpOnly and Secure holds an '=' |
| Session.CookieFlags | api/_lib/session.js:30-33 | Path is always present, HttpOnly unless it is explicitly false, Secure exactly when asked |
| Session.CookieSameSite | api/_lib/session.js:32 | SameSite appears, with exactly the given value, only when a non-empty one is given |
| Session.IsSecureRequest | api/_lib/session.js:53-60 | the definition of `isSecureRequest`; its properties are the rows Session.CookieSecure, Session.ForwardedHttpNotSecure and Session.ForwardedListSecure |
| Session.CookieSecure | api/_lib/session.js:53-60 | every cookie of the module carries Secure exactly when x-forwarded-proto contains "https", or, when that header is absent, when NODE_ENV is "production" |
| Session.ForwardedHttpNotSecure | api/_lib/session.js:53-57 | a request forwarded as plain http gets no Secure cookie, whatever NODE_ENV says |
| Session.ForwardedListSecure | api/_lib/session.js:53-57 | a forwarded list "http,https" counts as https, since `includes` finds it anywhere in the header |
| Session.AppendedKeepsOrder | api/_lib/session.js:38-51 | every Set-Cookie value already set stays in order, with the new one last (an empty single value is replaced) |
| Session.AppendSetCookie | api/_lib/session.js:38-51 | the method updates only the Set-Cookie header, to the appended value |
| Session.Sign | api/_lib/session.js:62-65 | `sign` throws exactly without AUTH_SECRET and is otherwise the HMAC under it |
| Session.CreateSignedPayload | api/_lib/session.js:67-71 | creating a token throws exactly without AUTH_SECRET |
| Session.VerifySignedPayload | api/_lib/session.js:73-90 | throws only when both parts are present and AUTH_SECRET is missing; a payload is returned only for a correctly signed token, and then it is the parsed payload part |
| Session.TokenParts | api/_lib/session.js:76 | `token.split('.')` destructured into two parts: both free of '.', the first the token up to its first '.', the whole token and "" when it has none |
| Session.VerifyOfCreate | api/_lib/session.js:67-90 | verifying a created token gives the payload back |
| Session.VerifyRejectsForgery | api/_lib/session.js:79-83 | a token whose signature is not the HMAC of its payload is rejected |
| Session.NowSeconds | api/_lib/session.js:93 | `Math.floor(Date.now() / 1000)` is the whole second containing the instant |
| Session.SessionOfPayload | api/_lib/session.js:140-154 | a session exists exactly for an object with a future numeric exp and non-empty uid and email; a name or avatar that is not a string becomes null |
| Session.CookieToken | api/_lib/session.js:130-131 | the cookie is used exactly when present and non-empty |
| Session.GetSessionFromRequest | api/_lib/session.js:128-155 | only a malformed Cookie header throws; a session comes only from a correctly signed cookie with a future expiry and non-empty uid and email |
| Session.CreatedClaims | api/_lib/session.js:92-101 | the created claims carry the user's id and email, the name and avatar or null, and an expiry 30 days on |
| Session.CreateSessionUser | api/_lib/session.js:92-101 | the definition of `createSessionUser`; its properties are the rows Session.CreatedClaims, Session.SessionOfCreated and Session.SessionRoundTrip |
| Session.SessionOfCreated | api/_lib/session.js:92-101 | created claims are accepted as that user's session until they expire, and rejected from then on |
| Session.SessionRoundTrip | api/_lib/session.js:103-155 | a session cookie read back before it expires gives the session it was made from, and nothing afterwards |
| Session.SetSessionCookie | api/_lib/session.js:103-114 | appends the signed session cookie with Max-Age 30 days, SameSite=Lax, HttpOnly, Path=/ and Secure as Session.CookieSecure states; without AUTH_SECRET it throws and changes nothing |
| Session.ClearSessionCookie | api/_lib/session.js:116-126 | appends an empty session cookie with Max-Age 0 |
| Session.LifetimeTexts | api/_lib/session.js:6-7 | the lifetimes print as 2592000 and 600 seconds |
| Session.ClearingCookie | api/_lib/session.js:116-126 | a clearing cookie carries an empty value and Max-Age=0 |
| Session.CookieLifetimes | api/_lib/session.js:103-175 | a session cookie lives 30 days and a state cookie 10 minutes |
| Session.SetOAuthStateCookie | api/_lib/session.js:157-175 | appends the signed state cookie (provider, state, expiry 600 s on) with Max-Age 600, SameSite=Lax, HttpOnly, Path=/ and Secure as Session.CookieSecure states; without AUTH_SECRET it throws and changes nothing |
| Session.OAuthStatePayload | api/_lib/session.js:157-163 | the definition of the state payload (provider, state, expiry 600 s on); its properties are the rows Session.SetOAuthStateCookie, Session.StateOfCreated and Session.OAuthStateRoundTrip |
| Session.ClearOAuthStateCookie | api/_lib/session.js:177-187 | appends an empty state cookie with Max-Age 0 |
| Session.VerifyOAuthStateFromRequest | api/_lib/session.js:189-209 | true exactly when the state cookie is correctly signed, unexpired, and names the expected provider and state; only a malformed Cookie header throws |
| Session.StateOfCreated | api/_lib/session.js:157-209 | created state claims match exactly the expected state within 10 minutes, and nothing afterwards |
| Session.OAuthStateRoundTrip | api/_lib/session.js:157-209 | a state cookie read back within 10 minutes verifies exactly against the state it was made with |
| OAuth.Kept | api/_lib/oauth.js:5-8 | no kept parameter has an empty value |
| OAuth.KeptExactly | api/_lib/oauth.js:5-8 | a pair is kept exactly when it was given with that non-empty value |
| OAuth.ToUrlWithQuery | api/_lib/oauth.js:3-10 | setting the parameters one by one gives the base with exactly the kept parameters |
| OAuth.ParamOfKept | api/_lib/oauth.js:3-10 | on the built URL a parameter reads back as its value, or is absent when undefined, null or empty |
| OAuth.GetRedirectUri | api/_lib/oauth.js:12-19 | the URI is the base URL + "/api/auth/callback/" + provider, and it throws exactly without a base URL |
| OAuth.RedirectUriSingleSlash | api/_lib/oauth.js:12-19 | with APP_URL set, the base before the callback path has no trailing '/' |
| OAuth.GoogleAuthorizeParams | api/_lib/oauth.js:24-32 | the Google parameter names are distinct |
| OAuth.GithubAuthorizeParams | api/_lib/oauth.js:89-94 | the GitHub parameter names are distinct |
| OAuth.BuildGoogleAuthorizeUrl | api/_lib/oauth.js:21-33 | fails with the redirect-URI error first, then the missing client-id error; otherwise the Google endpoint with the kept parameters |
| OAuth.GoogleParamsRead | api/_lib/oauth.js:24-32 | the Google URL reads response_type=code, scope "openid email profile", the client id, the redirect URI and the state when given |
| OAuth.BuildGithubAuthorizeUrl | api/_lib/oauth.js:86-95 | the same for GitHub, with scope "read:user user:email" and the state |
| OAuth.GoogleProfile | api/_lib/oauth.js:72-83 | the profile is rejected exactly without a truthy email or with `email_verified` other than true |
| OAuth.FindQualifying | api/_lib/oauth.js:148-149 | `find` gives the first qualifying entry, absent exactly when none qualifies |
| OAuth.SelectGithubEmailPrefersPrimary | api/_lib/oauth.js:147-150 | the chosen email is verified, primary whenever a verified primary exists, and absent exactly when none is verified |
| OAuth.SelectGithubEmail | api/_lib/oauth.js:147-150 | the definition of the email choice; its properties are the rows OAuth.SelectGithubEmailPrefersPrimary and OAuth.FindQualifying |
| OAuth.GithubDisplayName | api/_lib/oauth.js:160-162 | the display name is a non-empty string `name`, else a string `login`, else null |
| OAuth.GithubDisplayNameEmpty | api/_lib/oauth.js:160-162 | an empty display name can only come from an empty `login` |
| OAuth.GithubProfile | api/_lib/oauth.js:147-164 | succeeds exactly with a chosen email entry whose email is truthy, and then reports that email |
| Users.NormalizeEmail | api/_lib/users.js:6 | trimmed and lower-case, '' for a non-string, empty exactly for a blank value |
| Users.NormalizeEmailIdempotent | api/_lib/users.js:6 | normalising twice is normalising once |
| Users.MapUserRow | api/_lib/users.js:8-13 | the id and email are kept and empty names and avatars become null |
| Users.UserDirectory.constructor | api/_lib/db.js:21-48 | the tables start empty and meet the schema's keys, unique lower-case emails and identity links |
| Users.UserDirectory.GetUserById | api/_lib/users.js:15-23 | the user exists exactly when the id has a row, and is that row mapped |
| Users.UserDirectory.ResolveUserFromIdentity | api/_lib/users.js:25-95 | fails exactly on an empty email or a constraint conflict, and then changes nothing; otherwise the account is linked to its earlier user, else the user owning the email, else a new user; only that user's row changes, to the normalised email and the name and avatar or null |
| Users.UserDirectory.LinkNewIdentity | api/_lib/users.js:45-77 | an unlinked account is linked to the email's owner without creating a user, or to a new user when nobody owns the email |
| Users.UserDirectory.CreateAndLink | api/_lib/users.js:53-77 | inserting a new user and its identity fails exactly on a taken id, and then rolls both back |
| Users.UserDirectory.LinkAndUpdate | api/_lib/users.js:65-93 | linking to an existing user fails exactly on a taken identity id, and then changes nothing |
| Users.UserDirectory.RestoreUsers | api/_lib/db.js:80-82 | the rollback puts the user table back as it was before the transaction and leaves the identities alone |
| Users.UserDirectory.InsertUser | api/_lib/users.js:54-61 | the insert fails exactly on a taken id and otherwise adds the row |
| Users.UserDirectory.InsertIdentity | api/_lib/users.js:65-76 | the identity insert fails exactly on a taken identity id and otherwise links the account |
| Users.UserDirectory.UpdateUser | api/_lib/users.js:79-91 | the update fails exactly when another user owns the email and otherwise sets the email, name and avatar |
| Workspace.NormalizeWorkspacePayload | api/workspace.js:16-27 | only a JSON object passes, unchanged; anything else is "Invalid workspace payload", and an object over the size limit is "Workspace payload is too large" |
| Workspace.SizeLimitInclusive | api/workspace.js:5 | exactly 4,500,000 bytes is accepted and 4,500,001 rejected |
| Workspace.UnauthorizedChangesNothing | api/workspace.js:7-14 | without a session the answer is 401 and the table is unchanged; a malformed Cookie header escapes |
| Workspace.OnlySuccessfulPutWrites | api/workspace.js:53-73 | only a PUT answered 200 changes the table, and only the caller's row |
| Workspace.PutThenGet | api/workspace.js:35-73 | after a successful PUT a GET by the same user returns the stored workspace and its time |
| Workspace.RejectedPutChangesNothing | api/workspace.js:78-83 | a PUT whose body or workspace is rejected, or whose query fails, is answered 500 "Workspace sync failed" and stores nothing |
| Workspace.GetWithoutRow | api/workspace.js:40-45 | GET for a user without a row answers workspace and updatedAt null |
| Workspace.OtherMethodsRefused | api/workspace.js:76-77 | any other method gets 405 with `Allow: GET, PUT` |
| Workspace.GetOutcome | api/workspace.js:34-51 | the definition of the GET answer; its properties are the rows Workspace.GetWithoutRow and Workspace.PutThenGet |
| Workspace.PutOutcome | api/workspace.js:53-74 | the definition of the PUT answer and upsert; its properties are the rows Workspace.OnlySuccessfulPutWrites, Workspace.RejectedPutChangesNothing and Workspace.PutThenGet |
| Workspace.HandleWorkspace | api/workspace.js:29-84 | the definition of the handler's outcome on the table; its properties are the rows Workspace.UnauthorizedChangesNothing, Workspace.OnlySuccessfulPutWrites, Workspace.PutThenGet, Workspace.OtherMethodsRefused and Workspace.WorkspaceStore.Handler |
| Workspace.WorkspaceStore.constructor | api/_lib/db.js:50-56 | the workspace table starts empty |
| Workspace.WorkspaceStore.RequireSession | api/workspace.js:7-14 | answers 401 "Unauthorized" exactly when there is no session, and otherwise leaves the response alone |
| Workspace.WorkspaceStore.Handler | api/workspace.js:29-84 | the table and the response end as the handler function says, and no cookie is set |
| Workspace.WorkspaceStore.HandleOther | api/workspace.js:76-77 | the 405 answer with its Allow header |
| Workspace.WorkspaceStore.HandleGet | api/workspace.js:34-51 | the GET answer |
| Workspace.WorkspaceStore.HandlePut | api/workspace.js:53-74 | the upsert and its answer |
| GoogleCallback.WithAuthResult | api/auth/callback/google.js:12-23 | throws exactly when the base is an http(s) URL that does not parse; otherwise the URL is the base, or "/" when the base is not http(s), with `auth` set to the status and `detail` only when non-empty |
| GoogleCallback.AuthResultReads | api/auth/callback/google.js:12-23 | the URL reads `auth` as the status and `detail` only when non-empty, and the base is "/" exactly for a base that is not http(s):// |
| GoogleCallback.AuthResultUrl | api/auth/callback/google.js:12-22 | the definition of the URL withAuthResult returns; its properties are the rows GoogleCallback.AuthResultReads and GoogleCallback.WithAuthResult |
| GoogleCallback.Given | api/auth/callback/google.js:34-39 | a query parameter counts exactly when present and non-empty |
| GoogleCallback.ExchangeNeedsVerifiedState | api/auth/callback/google.js:26-42 | the code is exchanged only for a GET without an error, with code and state, whose state cookie is correctly signed and names Google and that state |
| GoogleCallback.StateCookieFlow | api/auth/callback/google.js:39-45 | with a fresh Google state cookie the code is exchanged exactly when the query state equals the cookie's, and otherwise the answer is a state mismatch |
| GoogleCallback.RouteOf | api/auth/callback/google.js:26-42 | the definition of the handler's route before the exchange; its properties are the rows GoogleCallback.ExchangeNeedsVerifiedState, GoogleCallback.StateCookieFlow and GoogleCallback.HandleGet |
| GoogleCallback.AppendedPresent | api/_lib/session.js:38-51 | appending keeps the cookies present and adds the new one last |
| GoogleCallback.StateClearings | api/auth/callback/google.js:34-53 | every exit that reaches the redirect keeps the earlier cookies, adds the session cookie only on sign-in, then one state-clearing cookie, and a second one when the base URL throws after a sign-in |
| GoogleCallback.CookiesAfter | api/auth/callback/google.js:34-53 | the definition of the Set-Cookie header after a redirect exit; its properties are the row GoogleCallback.StateClearings |
| GoogleCallback.RedirectEarly | api/auth/callback/google.js:34-42 | the provider's error and a state mismatch clear the state cookie, then redirect with their outcome, or throw exactly when the base URL does not parse |
| GoogleCallback.ExitOf | api/auth/callback/google.js:44-53 | the try block's exit records the resolved user or the error |
| GoogleCallback.ClearAndRedirect | api/auth/callback/google.js:35-36 | clears the state cookie, then redirects with 302 to the outcome URL, or throws, with status, location and end untouched, exactly when the base URL does not parse |
| GoogleCallback.Conclude | api/auth/callback/google.js:44-53 | with a user, sets the session cookie before clearing the state and redirects with success; otherwise redirects with oauth_failed; a base URL that does not parse throws in the try block, is caught, clears the state again and throws out |
| GoogleCallback.SignIn | api/auth/callback/google.js:44-53 | a failed exchange leaves the tables alone; a profile is resolved as ResolveUserFromIdentity promises; the response is then as Conclude states |
| GoogleCallback.HandleGet | api/auth/callback/google.js:31-53 | each route ends as stated: the provider's error, state_mismatch, an escaping error with the response untouched, or the sign-in; the handler throws exactly when its exit reaches withAuthResult with a base URL that does not parse |
| GoogleCallback.Handler | api/auth/callback/google.js:25-54 | a non-GET request gets 405 with `Allow: GET` and no cookie; every other exit is as HandleGet says |

## Left out

- **Time zones and instants.** The source mixes local and UTC time.
  - `getDateAtNoon` builds local noon.
  - `new Date("YYYY-MM-DD")` in `getTimelineRange` is UTC midnight.
  - `setHours` is local.

  Every date here is a calendar day, so shifts across a time-zone
  boundary or a daylight-saving change are not modelled.
- **Chart layout.** `totalDays`, `getTaskPosition` and the markers'
  percentage positions use floating-point millisecond differences, so
  they are not modelled. A marker here is its day.
- Timeline.ParseIsoDate: follows the "YYYY-MM-DD" form of the date-time
  string format of ECMAScript, under which a day past the end of its month ("2024-02-30") is
  not a date. V8 instead accepts any day up to 31 and rolls it over into
  the next month (2024-03-01); that reading is not modelled.
- Timeline.TimelineIsTight: is proved of the intended range. The range as
  written has the same start but can end one month later
  (`Timeline.RangeAsWrittenAgainstIntended`; see Findings).
- **Date range.** A JavaScript Date holds at most 8.64e15 ms either side
  of 1970, about 275760 years. Beyond that a date is an Invalid Date and
  `toISOString` throws. Day numbers here are unbounded.
- **Non-ISO date text.** `Timeline.ParseIsoDate` models only the
  "YYYY-MM-DD" form and reads every other text as an Invalid Date. The
  ECMAScript date-time string format has further date-only forms, which
  `new Date` accepts and the model rejects:
  - "YYYY" (the first of January of that year);
  - "YYYY-MM" (the first of that month);
  - the expanded years "+YYYYYY-MM-DD" and "-YYYYYY-MM-DD", which is the
    text `toISOString` gives outside the years 0..9999, so `new Date`
    reads that text back where the model does not.

  Text outside that format, which engines parse by their own rules, is
  not modelled either.
  - `Calendar.ParseDate` handles only fields of decimal digits.
- **Invalid Date.** `Calendar.ParseDate` reads a field only when it is
  decimal digits. For any other field it gives None, which the model
  treats as an Invalid Date ("NaN-NaN-NaN" from `formatDate`). The source
  reads many more fields as numbers, and the model gives None for all of
  them:
  - an empty field, which `Number` reads as 0;
  - a field padded with whitespace (" 5 " is 5);
  - a signed field ("+5", "-1");
  - a hex field ("0x0C" is 12);
  - an exponent ("1e1" is 10);
  - a fraction ("5.5", which the Date constructor truncates to 5).

  So the source reads "2024--05" as 2023-12-05, "2024-03-" as
  2024-02-29 and "-0001-01-01" as 1900-01-01. Such text can reach
  `getDateAtNoon` from an imported plan. In the source, only a field that
  `Number` reads as NaN, or a missing field, gives an Invalid Date.
- **Empty plan.** For an empty plan, `getTimelineRange` returns the current
  instant twice. Here that is today's day, taken as a parameter.
- **Sort order.** `Array.prototype.sort` compares UTF-16 code units. The
  model orders by the characters' code points. The two agree on the
  "YYYY-MM-DD" holiday texts.
- **`parseInt` size.** `parseInt` is modelled over unbounded integers. The
  loss of precision above 2^53 is not modelled.
- **Lower case.** `toLowerCase` is modelled for ASCII letters only.
- **Ids and the clock.** `Date.now()` ids and the current time are
  parameters.
  - `Session.NowSeconds` is tied to them.
  - The UUIDs of `createId` are parameters of `ResolveUserFromIdentity`.
- **Encoders.** HMAC-SHA256, base64url, `JSON.stringify`/`JSON.parse`,
  `encodeURIComponent`/`decodeURIComponent`, `String(value)` of
  non-strings and whether `new URL(text)` succeeds are fields of the
  `Codecs` record. They are not defined. A
  lemma that needs a round trip of them states it as a precondition
  (`Session.CodecsRoundTrip`).
- Session.AddCookie: stores a cookie named `__proto__` like any other.
  In the source, `acc[key] = value` on a plain object literal goes to the
  `__proto__` setter, which ignores a string, so that cookie is dropped.
  No cookie the module reads has that name.
- **`timingSafeEqual`.** It is modelled as plain equality of the two
  signatures. The length check that precedes it is subsumed by that
  equality.
- Session.VerifySignedPayload: a token is always a string here, because a
  cookie value is text. The source's check for a token that is not a
  string therefore has no counterpart.
- **Cookie values.** `serializeCookie` receives a number `maxAge` as an
  exact real. A NaN or infinite `maxAge`, which would print as "NaN" or
  "Infinity", is not modelled.
- **Query values.** A query value is a single string. A repeated query
  parameter, which the platform would give as an array, is not modelled.
- **URL serialisation.** URLs are a base text plus an ordered parameter
  list.
  - The text of `url.toString()` and the percent-encoding of the query
    are not modelled.
  - Neither is the parsing of a query the base URL already has.
- Env.NormalizeIdempotent: holds only when the first result is non-empty and
  does not end in whitespace. `normalizeBaseUrl` trims before it strips the
  slashes, so it is not idempotent in general (`Env.NormalizeNotIdempotent`).
- OAuth.ToUrlWithQuery: requires distinct parameter names, which every
  object literal the source passes has. The general `searchParams.set`
  behaviour on repeated names is modelled by `Http.SetParam`.
- **Network exchanges.** The token and profile exchanges of `oauth.js`
  (`fetch`) are not modelled. `GoogleProfile` and `GithubProfile` model
  the decisions taken on the fetched JSON. The callback takes the
  exchange's outcome as a parameter.
- **Database.** The database is not modelled.
  - Its failures are given as parameters of the workspace handler.
  - The `updated_at` time is a parameter.
  - JSONB normalisation of the stored payload is not modelled; a GET
    returns the object that was stored.
  - The user tables model their primary keys, the unique lower-case email
    index and the identity-to-user link. Their other query failures (a
    lost connection, say) are not modelled. The `user_workspace` foreign key
    to `app_user` is not modelled.
- **Other handlers.** `api/auth/signin/*.js`, `api/auth/session.js` and
  `api/auth/signout.js` are thin handlers over the modelled functions and
  are not part of this model. So are `api/_lib/db.js` (the pool and the
  schema set-up) and the body streaming of `readJsonBody`. The body is a
  parameter of the workspace handler: a parsed value or the parse error.
- **Rest of the UI.** The React rendering, `ResizableImage`, file import
  and export and logo upload are not part of this model.
- **Sign-in exceptions.** In the Google callback, `setSessionCookie` cannot
  throw once the state has been verified, because the verification already
  needed AUTH_SECRET. `GoogleCallback.Conclude` records this as its
  precondition. An exception that escapes a handler (the state check's,
  or the TypeError of a base URL that does not parse) ends in the
  platform's error response, which is not modelled: the handler returns
  the exception and leaves the response as it was when it was thrown.

## Findings

| source | as written | input that shows it | evidently intended | confidence | as-written member | corrected member |
|---|---|---|---|---|---|---|
| GanttChart.jsx:517-518 | `maxDate.setMonth(maxDate.getMonth() + 1); maxDate.setDate(0)` moves to the same day of the next month, which runs over into the month after when that day does not exist there, and then takes day 0 of that month | a plan whose latest date is 2024-01-31: the range ends on 2024-02-29 instead of 2024-01-31, so the chart grows by an empty February with its own month marker; every task still lies inside the range | the last day of the latest date's month | high (not executed) | Timeline.MonthEndAsWrittenOvershoots | Timeline.TimelineIsTight |

`Timeline.GetTimelineRange` keeps the code as written
(`Timeline.TimelineRangeAsWritten`). `Timeline.TimelineRangeOf` is the
corrected range, ending on `Timeline.MonthEnd` of the latest date.
`Timeline.RangeAsWrittenAgainstIntended` bounds the difference: the same
start, and an end at most one month later.
