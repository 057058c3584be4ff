# Employee attendance: a Dafny model of the attendance core

This project models the attendance core of a small employee-attendance web
application (an Express/MongoDB back end with a React/Redux front end) and proves
properties of the model. It covers:

- **The attendance document.** Its fields and defaults, the four statuses, and
  the unique `(userId, date)` index. It also covers the pre-save hook that
  recomputes `totalHours`.
- **The day helpers and the late-arrival rule.** A check-in after 9:30 is late;
  seconds are ignored.
- **The check-in / check-out state machine.** A store class keyed by
  `(userId, start of day)`:
  - no document → checked in → checked out;
  - three refusals, each leaving the store unchanged;
  - the hours computed on check-out, and the half-day downgrade below 4 hours.
- **The counting folds built on the documents:**
  - the personal month summary;
  - the manager's month summary, broken down by department;
  - the all-attendance listing and the CSV export rows;
  - today's checked-in / not-checked-in split;
  - the employee and manager dashboards (today's statistics, the weekly trend,
    the department head-count).
- **The front-end rules that hold logic:**
  - the team calendar's month request, day filter and colour bands;
  - the reports page's guards and totals;
  - the Redux attendance slice's reducer state machine and its query string.

**Time.** An instant is an integer number of milliseconds since 1970-01-01 00:00
local time. A calendar day is `instant / 86400000`. Where the code reads calendar
fields of "now" (`getMonth`, `getFullYear`, `setDate(1)`), "now" is a `Clock`
reading: year, month index, date and milliseconds since midnight. Month arithmetic
follows the Gregorian calendar, with JavaScript's carrying of out-of-range months.

**Hours.** Hours are integer hundredths of an hour, rounded half up from the
millisecond difference.

**Inputs.** The database, the clock and the server's answers to the front end's
requests are parameters:
- a query result is a sequence of documents, each paired with its populated user;
- a collection is the same kind of sequence, or the store's map.

Modules, one file each:

| file | module | source |
|---|---|---|
| common.dfy | `Common` | shared `Option`, `Result`, list filter |
| calendar.dfy | `Calendar` | day helpers, Gregorian months, ranges |
| attendance_model.dfy | `AttendanceModel` | `backend/models/Attendance.js` |
| status_classifier.dfy | `StatusClassifier` | `determineStatus`, the `checkIn` / `checkOut` rules |
| record_store.dfy | `RecordStore` | the collection as the two handlers update it |
| personal_aggregator.dfy | `PersonalAggregator` | `getMyHistory`, `getMySummary` |
| organization_aggregator.dfy | `OrganizationAggregator` | `getAllAttendance`, `getAttendanceSummary`, `exportAttendance`, `getTodayStatusAll` |
| dashboard.dfy | `Dashboard` | `backend/controllers/dashboardController.js` |
| team_calendar.dfy | `TeamCalendar` | `frontend/src/pages/TeamCalendar.js` |
| reports.dfy | `Reports` | `frontend/src/pages/Reports.js` |
| attendance_slice.dfy | `AttendanceSlice` | `frontend/src/store/slices/attendanceSlice.js` |

## Model

| member | source | states |
|---|---|---|
| Calendar.StartOfDay | TAP_ACADEMEY_PROJECT-main/backend/controllers/attendanceController.js:6-10 | the start of day lies on the same calendar day as t, at 00:00:00.000, with start ≤ t < start + one day |
| Calendar.EndOfDay | TAP_ACADEMEY_PROJECT-main/backend/controllers/attendanceController.js:12-16 | the end of day lies on the same calendar day as t, at 23:59:59.999, with start ≤ t ≤ end = start + one day − 1 ms |
| Calendar.Hours | TAP_ACADEMEY_PROJECT-main/backend/controllers/attendanceController.js:20 | `getHours`: the hour h with h:00 ≤ time of day < (h+1):00, in 0..23 |
| Calendar.Minutes | TAP_ACADEMEY_PROJECT-main/backend/controllers/attendanceController.js:21 | `getMinutes`: a minute in 0..59 (its placement within the hour is the bracket below) |
| Calendar.HoursMinutesBracket | TAP_ACADEMEY_PROJECT-main/backend/controllers/attendanceController.js:20-21 | the hour and minute read off an instant bracket its time of day to within one minute |
| Calendar.MonthLength | TAP_ACADEMEY_PROJECT-main/backend/controllers/attendanceController.js:164-165 | with month carrying, the next month begins the day after this month's last day, and a month has 28 to 31 days |
| Calendar.MonthRange | TAP_ACADEMEY_PROJECT-main/backend/controllers/attendanceController.js:164-165 | the month range starts at 00:00 on the 1st and ends at 23:59:59.999 on the last day, 1 ms before the next month; it spans exactly the month's days |
| Calendar.MonthRangeDays | TAP_ACADEMEY_PROJECT-main/backend/controllers/attendanceController.js:164-165 | an instant is in a month range iff its calendar day is one of the month's days, whatever its time of day |
| AttendanceModel.ParseStatus | TAP_ACADEMEY_PROJECT-main/backend/models/Attendance.js:21-25 | enum validation accepts a string only if it is the stored name of the status it returns |
| AttendanceModel.StatusNameRoundTrip | TAP_ACADEMEY_PROJECT-main/backend/models/Attendance.js:21-25 | each of the four statuses is stored under a name that validation maps back to that status |
| AttendanceModel.StatusNameInjective | TAP_ACADEMEY_PROJECT-main/backend/models/Attendance.js:21-25 | distinct statuses have distinct stored names |
| AttendanceModel.NewRecord | TAP_ACADEMEY_PROJECT-main/backend/models/Attendance.js:4-28 | a document created with only userId and date has no check-in or check-out, status present and 0 hours |
| AttendanceModel.RoundedHours | TAP_ACADEMEY_PROJECT-main/backend/controllers/attendanceController.js:106-107 | the hours are the hundredth of an hour nearest the millisecond difference, with a tie rounding up |
| AttendanceModel.RoundedHoursExact | TAP_ACADEMEY_PROJECT-main/backend/controllers/attendanceController.js:107 | a whole number of hundredths is left unchanged by rounding |
| AttendanceModel.RoundedHoursMonotone | TAP_ACADEMEY_PROJECT-main/backend/controllers/attendanceController.js:107 | a longer day never rounds to fewer hours |
| AttendanceModel.PreSave | TAP_ACADEMEY_PROJECT-main/backend/models/Attendance.js:38-44 | with both times set, the hook recomputes totalHours from their difference; otherwise the document is unchanged; key, status and times are always kept |
| AttendanceModel.PreSaveIdempotent | TAP_ACADEMEY_PROJECT-main/backend/models/Attendance.js:38-44 | saving twice stores the same document as saving once |
| AttendanceModel.ListingHasUniqueKeys | TAP_ACADEMEY_PROJECT-main/backend/models/Attendance.js:35 | a listing of a store keyed by the unique index that repeats no document has pairwise distinct (userId, date) keys |
| StatusClassifier.DetermineStatus | TAP_ACADEMEY_PROJECT-main/backend/controllers/attendanceController.js:19-28 | the status is present or late, never absent or half-day; it is late iff the time of day is 09:31:00.000 or later |
| StatusClassifier.ErrorMessage | TAP_ACADEMEY_PROJECT-main/backend/controllers/attendanceController.js:43-48 | the refusal messages (also lines 88-100), each ending in "today" |
| StatusClassifier.ErrorMessageInjective | TAP_ACADEMEY_PROJECT-main/backend/controllers/attendanceController.js:43-100 | the three refusals have distinct messages |
| StatusClassifier.LastOnTimeInstant | TAP_ACADEMEY_PROJECT-main/backend/controllers/attendanceController.js:19-28 | 09:30:59.999 is still present, because seconds are ignored, and one millisecond later is late |
| StatusClassifier.CheckInOutcome | TAP_ACADEMEY_PROJECT-main/backend/controllers/attendanceController.js:43-65 | refused with AlreadyCheckedIn iff the day's document has a check-in. Otherwise check-in = now and status = the classifier's. A new document is dated at the start of today. An existing one keeps its key and check-out; the pre-save hook then sets its hours from that check-out and now when it has one, and leaves them alone otherwise |
| StatusClassifier.CheckOutOutcome | TAP_ACADEMEY_PROJECT-main/backend/controllers/attendanceController.js:88-113 | NoCheckInRecord when there is no document, AlreadyCheckedOut when it has a check-out, success otherwise. On success: check-out = now; hours = the rounded difference from the check-in (0 when missing); the status is half-day iff the hours are below 4.00 or it already was; otherwise the old status is kept |
| StatusClassifier.HalfDayIffShort | TAP_ACADEMEY_PROJECT-main/backend/controllers/attendanceController.js:106-113 | the rounded hours fall below 4 exactly when the day lasted less than 3:59:42 |
| StatusClassifier.CheckOutSurvivesPreSave | TAP_ACADEMEY_PROJECT-main/backend/controllers/attendanceController.js:102-115 | the pre-save hook stores what the check-out handler computed |
| StatusClassifier.Lifecycle | TAP_ACADEMEY_PROJECT-main/backend/controllers/attendanceController.js:33-124 | no document → checked in → checked out; a second check-in or check-out is refused at each later stage; the finished document has both times, the rounded hours and the status the two rules give |
| StatusClassifier.CheckOutWithoutCheckIn | TAP_ACADEMEY_PROJECT-main/backend/controllers/attendanceController.js:106 | a document with no check-in time can still be checked out, and its hours are measured from the epoch |
| RecordStore.AttendanceStore.Lookup | TAP_ACADEMEY_PROJECT-main/backend/controllers/attendanceController.js:38-41 | findOne on the unique key returns the stored document iff one is filed under the key |
| RecordStore.AttendanceStore.CheckIn | TAP_ACADEMEY_PROJECT-main/backend/controllers/attendanceController.js:33-74 | the result is the check-in rule applied to the day's slot; on success only that key is (re)written; on refusal the store is unchanged; store validity is kept |
| RecordStore.AttendanceStore.CheckOut | TAP_ACADEMEY_PROJECT-main/backend/controllers/attendanceController.js:79-124 | the result is the check-out rule applied to the day's slot; on success only that key is rewritten; on either refusal the store is unchanged; store validity is kept |
| RecordStore.AttendanceStore.TodayStatus | TAP_ACADEMEY_PROJECT-main/backend/controllers/attendanceController.js:203-219 | today's document for the user if one is filed, else none; never an error |
| RecordStore.CheckInTwice | TAP_ACADEMEY_PROJECT-main/backend/controllers/attendanceController.js:43-48 | two check-ins on one day: the second is refused with AlreadyCheckedIn |
| RecordStore.CheckOutFirst | TAP_ACADEMEY_PROJECT-main/backend/controllers/attendanceController.js:88-93 | a check-out with no document for the day is refused and changes nothing |
| PersonalAggregator.CountStatusPartition | TAP_ACADEMEY_PROJECT-main/backend/controllers/attendanceController.js:180-187 | the four status counts add up to the number of documents |
| PersonalAggregator.SumHoursNonNegative | TAP_ACADEMEY_PROJECT-main/backend/controllers/attendanceController.js:186 | documents with non-negative hours sum to non-negative hours |
| PersonalAggregator.Summarize | TAP_ACADEMEY_PROJECT-main/backend/controllers/attendanceController.js:180-189 | each counter is the number of documents with its status; the counters total the document count; the hours are the exact sum |
| PersonalAggregator.SummaryMonth | TAP_ACADEMEY_PROJECT-main/backend/controllers/attendanceController.js:160-165 | month and year each default separately to the clock's: the range is MonthRange of the given-or-current year and month in all four cases; with neither given, it contains now |
| PersonalAggregator.CurrentMonthContainsNow | TAP_ACADEMEY_PROJECT-main/backend/controllers/attendanceController.js:161-165 | the default month range contains the current instant |
| PersonalAggregator.GetMySummary | TAP_ACADEMEY_PROJECT-main/backend/controllers/attendanceController.js:158-198 | the summary of exactly the user's documents dated in the requested month |
| PersonalAggregator.HistoryQuery | TAP_ACADEMEY_PROJECT-main/backend/controllers/attendanceController.js:129-153 | the history query (also getEmployeeAttendance, lines 267-291) selects the user's documents, restricted to the month only when both month and year are given |
| PersonalAggregator.HistoryByDay | TAP_ACADEMEY_PROJECT-main/backend/controllers/attendanceController.js:135-139 | with month and year given, a document is in the history iff it is the user's and its calendar day is one of that month's days |
| OrganizationAggregator.IndexOf | TAP_ACADEMEY_PROJECT-main/backend/controllers/attendanceController.js:325 | `byDepartment[dept]` finds the first entry named dept, or reports that there is none |
| OrganizationAggregator.DepartmentFold | TAP_ACADEMEY_PROJECT-main/backend/controllers/attendanceController.js:323-337 | the `byDepartment` object after the `forEach`: no more entries than documents, and empty iff there are none (its counts are the lemmas below) |
| OrganizationAggregator.BumpedNames | TAP_ACADEMEY_PROJECT-main/backend/controllers/attendanceController.js:324-332 | folding a document in keeps one entry per department and adds exactly its department |
| OrganizationAggregator.BumpedCounts | TAP_ACADEMEY_PROJECT-main/backend/controllers/attendanceController.js:324-337 | folding a document in raises its department's counter for its status by one and no other count |
| OrganizationAggregator.BumpedTotal | TAP_ACADEMEY_PROJECT-main/backend/controllers/attendanceController.js:334-337 | folding a document in raises the sum of its status's counter over departments by one |
| OrganizationAggregator.DepartmentFoldNames | TAP_ACADEMEY_PROJECT-main/backend/controllers/attendanceController.js:323-332 | the breakdown has one entry per department of the listed users and no other |
| OrganizationAggregator.DepartmentFoldCounts | TAP_ACADEMEY_PROJECT-main/backend/controllers/attendanceController.js:323-337 | each department's counter equals the number of its users' documents with that status |
| OrganizationAggregator.DepartmentFoldTotals | TAP_ACADEMEY_PROJECT-main/backend/controllers/attendanceController.js:317-338 | summed over departments, each counter equals the number of documents with that status |
| OrganizationAggregator.SummarizeOrganization | TAP_ACADEMEY_PROJECT-main/backend/controllers/attendanceController.js:317-338 | the loop's totals are the status counts and its breakdown is the department fold |
| OrganizationAggregator.GetAttendanceSummary | TAP_ACADEMEY_PROJECT-main/backend/controllers/attendanceController.js:296-347 | over the month's documents: totals are the status counts, summing to the document count; department entries are distinct, cover exactly the users' departments, count their documents, and sum to the totals |
| OrganizationAggregator.AllAttendance | TAP_ACADEMEY_PROJECT-main/backend/controllers/attendanceController.js:224-262 | as written: a document is listed iff it is in the date range (when both dates are given) and has the status (when given), and then matches the department when one is given, or else the employee when one is given |
| OrganizationAggregator.DepartmentDiscardsEmployeeCode | TAP_ACADEMEY_PROJECT-main/backend/controllers/attendanceController.js:247-252 | with a department given, the employee filter has no effect |
| OrganizationAggregator.AllAttendanceIgnoresEmployee | TAP_ACADEMEY_PROJECT-main/backend/controllers/attendanceController.js:247-252 | an Eng document of employee E1 is listed when asking for employee E2 in Eng, and the corrected listing omits it |
| OrganizationAggregator.AllAttendanceIntended | TAP_ACADEMEY_PROJECT-main/backend/controllers/attendanceController.js:246-252 | corrected: a document is listed iff it passes the date, status, employee and department filters that were given |
| OrganizationAggregator.AllAttendanceAgrees | TAP_ACADEMEY_PROJECT-main/backend/controllers/attendanceController.js:246-252 | the written and the corrected listing differ only when both an employee and a department are given |
| OrganizationAggregator.FindUserByCode | TAP_ACADEMEY_PROJECT-main/backend/controllers/attendanceController.js:366 | findOne by employee code: none iff no user has the code; otherwise the first user that has it |
| OrganizationAggregator.ExportOwner | TAP_ACADEMEY_PROJECT-main/backend/controllers/attendanceController.js:365-370 | the export is restricted to an owner iff a code is given and some user has it, and the owner is a user with that code |
| OrganizationAggregator.Cell | TAP_ACADEMEY_PROJECT-main/backend/controllers/attendanceController.js:381-382 | a missing time is "N/A"; a present one is its local time of day |
| OrganizationAggregator.ToRow | TAP_ACADEMEY_PROJECT-main/backend/controllers/attendanceController.js:376-385 | a row carries the user's code, name and department, the document's day, both time cells, a status name that parses back to the status, and the hours |
| OrganizationAggregator.ExportRows | TAP_ACADEMEY_PROJECT-main/backend/controllers/attendanceController.js:352-396 | one row per document selected by the date range and, when the code names a user, that user's id, in the query's order |
| OrganizationAggregator.UnknownCodeExportsAll | TAP_ACADEMEY_PROJECT-main/backend/controllers/attendanceController.js:365-370 | a code no user has exports the same rows as no code |
| OrganizationAggregator.KnownCodeExportsOwner | TAP_ACADEMEY_PROJECT-main/backend/controllers/attendanceController.js:365-370 | a known code selects exactly the in-range documents of the first user with that code |
| OrganizationAggregator.Roster | TAP_ACADEMEY_PROJECT-main/backend/controllers/attendanceController.js:409 | the roster is exactly the users whose role is employee |
| OrganizationAggregator.CheckedInIds | TAP_ACADEMEY_PROJECT-main/backend/controllers/attendanceController.js:411 | the ids are exactly those of the users owning a listed document |
| OrganizationAggregator.AbsentEmployees | TAP_ACADEMEY_PROJECT-main/backend/controllers/attendanceController.js:411-414 | an employee is listed absent iff no listed document is theirs, whatever its status |
| OrganizationAggregator.AbsentEmployeesCount | TAP_ACADEMEY_PROJECT-main/backend/controllers/attendanceController.js:411-423 | with distinct owners all on a roster of distinct ids, absent count + document count = roster size |
| OrganizationAggregator.OneDayDistinctUsers | TAP_ACADEMEY_PROJECT-main/backend/models/Attendance.js:35 | under the unique index, the documents of one day belong to distinct users |
| OrganizationAggregator.GetTodayStatusAll | TAP_ACADEMEY_PROJECT-main/backend/controllers/attendanceController.js:401-429 | present = the documents dated today; absent = the employees without one; checkedIn, notCheckedIn and totalEmployees are the lengths of those lists and of the roster |
| OrganizationAggregator.TodayCountsAddUp | TAP_ACADEMEY_PROJECT-main/backend/controllers/attendanceController.js:416-424 | checkedIn + notCheckedIn = totalEmployees when the index holds and everyone with a document today is on the roster |
| Dashboard.DateRange | TAP_ACADEMEY_PROJECT-main/backend/controllers/dashboardController.js:5-12 | starts at 00:00 of the day `days` before today and ends today at 23:59:59.999 |
| Dashboard.DateRangeSpan | TAP_ACADEMEY_PROJECT-main/backend/controllers/dashboardController.js:5-12 | for days ≥ 0 the range contains now and spans days + 1 whole calendar days (8 for the 7-day range) |
| Dashboard.MonthToDate | TAP_ACADEMEY_PROJECT-main/backend/controllers/dashboardController.js:14-21 | starts at 00:00 of the current month's 1st, ends at the end of today, and contains now |
| Dashboard.MonthToDateVersusMonth | TAP_ACADEMEY_PROJECT-main/backend/controllers/dashboardController.js:14-21 | starts with the calendar month, never ends after it, and ends with it iff today is the month's last day |
| Dashboard.FindOne | TAP_ACADEMEY_PROJECT-main/backend/controllers/dashboardController.js:32-35 | none iff no document matches; otherwise a matching document of the collection |
| Dashboard.GetEmployeeDashboard | TAP_ACADEMEY_PROJECT-main/backend/controllers/dashboardController.js:26-80 | today's own document if any; month-to-date counts and hours over exactly the user's month-to-date documents; last7Days = the user's documents in the 7-day range |
| Dashboard.ComputeTodayStats | TAP_ACADEMEY_PROJECT-main/backend/controllers/dashboardController.js:98-117 | onTime counts present documents and late counts late ones; present = onTime + late; absent = total employees − present; lateArrivals = the late documents in order |
| Dashboard.AbsentCountsAgree | TAP_ACADEMEY_PROJECT-main/backend/controllers/dashboardController.js:117-124 | todayStats.absent equals the absent list's length iff no document of today is half-day or absent (under the same-day uniqueness conditions) |
| Dashboard.HalfDayIsNeitherPresentNorListedAbsent | TAP_ACADEMEY_PROJECT-main/backend/controllers/dashboardController.js:106-124 | one employee with a half-day document: counted absent (1) but missing from the absent list |
| Dashboard.GetManagerDashboard | TAP_ACADEMEY_PROJECT-main/backend/controllers/dashboardController.js:85-192 | totalEmployees is the roster size; today's statistics, late arrivals and absent list come from today's documents; the weekly trend is the grouping of the 7-day range; the department stats are the head-count of today's documents |
| Dashboard.WeeklyTrend | TAP_ACADEMEY_PROJECT-main/backend/controllers/dashboardController.js:128-150 | the `$group` by day with `$sort`: at most one group per document, and none iff no documents (its correctness is WeeklyTrendCorrect) |
| Dashboard.AddToTrendDays | TAP_ACADEMEY_PROJECT-main/backend/controllers/dashboardController.js:134-136 | adding a document to the groups adds exactly its day to the set of days |
| Dashboard.AddToTrendShape | TAP_ACADEMEY_PROJECT-main/backend/controllers/dashboardController.js:134-149 | adding a document keeps the groups in strictly ascending day order with late ≤ present in each |
| Dashboard.AddToTrendCounts | TAP_ACADEMEY_PROJECT-main/backend/controllers/dashboardController.js:137-146 | adding a document raises its own day's present count (present or late) and late count (late), and no other day's |
| Dashboard.WeeklyTrendCorrect | TAP_ACADEMEY_PROJECT-main/backend/controllers/dashboardController.js:128-150 | one group per day that has documents, strictly ascending; each group's present counts its day's present-or-late documents and its late counts the late ones, so late ≤ present |
| Dashboard.GroupHoldsDayCounts | TAP_ACADEMEY_PROJECT-main/backend/controllers/dashboardController.js:135-147 | in a day-sorted grouping, each group holds its day's counts |
| Dashboard.DepartmentHeadcount | TAP_ACADEMEY_PROJECT-main/backend/controllers/dashboardController.js:153-176 | the department `$group` with `$sum: 1`: every count is between 1 and the number of documents (exact counts in DepartmentHeadcountCorrect) |
| Dashboard.DepartmentHeadcountCorrect | TAP_ACADEMEY_PROJECT-main/backend/controllers/dashboardController.js:153-176 | one entry per department with a document today, counting all of that department's documents whatever their status |
| TeamCalendar.RequestMonth | TAP_ACADEMEY_PROJECT-main/frontend/src/pages/TeamCalendar.js:17-18 | the request runs from the month's 1st to its last day and spans its length |
| TeamCalendar.RequestCoversMonth | TAP_ACADEMEY_PROJECT-main/frontend/src/pages/TeamCalendar.js:17-23 | a document dated at a day start is in the requested range iff that day is in the month |
| TeamCalendar.DayRecords | TAP_ACADEMEY_PROJECT-main/frontend/src/pages/TeamCalendar.js:28-30 | exactly the records whose date falls on the calendar day |
| TeamCalendar.SelectedDateRecords | TAP_ACADEMEY_PROJECT-main/frontend/src/pages/TeamCalendar.js:48-50 | exactly the records on the same calendar day as the selected date |
| TeamCalendar.SelectedDayCounts | TAP_ACADEMEY_PROJECT-main/frontend/src/pages/TeamCalendar.js:140-159 | the selected day's total is 0 iff no record falls on it, and present + late + absent never exceeds it |
| TeamCalendar.Band | TAP_ACADEMEY_PROJECT-main/frontend/src/pages/TeamCalendar.js:32-41 | no data iff there are no records |
| TeamCalendar.TileClass | TAP_ACADEMEY_PROJECT-main/frontend/src/pages/TeamCalendar.js:26-42 | the tile is tile-no-data iff no record falls on the day |
| TeamCalendar.TileBands | TAP_ACADEMEY_PROJECT-main/frontend/src/pages/TeamCalendar.js:34-41 | a day with records is excellent iff ≥ 90% of its records are present or late, good iff 70–90%, average iff 50–70%, poor iff below 50% |
| TeamCalendar.BandMonotone | TAP_ACADEMEY_PROJECT-main/frontend/src/pages/TeamCalendar.js:38-41 | a higher present share never gives a worse band |
| TeamCalendar.BandDependsOnRatio | TAP_ACADEMEY_PROJECT-main/frontend/src/pages/TeamCalendar.js:34-36 | scaling present and total by the same factor keeps the band: only the ratio matters |
| TeamCalendar.HalfDaysUncounted | TAP_ACADEMEY_PROJECT-main/frontend/src/pages/TeamCalendar.js:140-159 | present + late + absent + half-day = the day's total, so half-day records appear in none of the three counts shown |
| Reports.ReportsPage.constructor | TAP_ACADEMEY_PROJECT-main/frontend/src/pages/Reports.js:11-18 | empty filters, no data, not loading |
| Reports.ReportsPage.ChangeFilter | TAP_ACADEMEY_PROJECT-main/frontend/src/pages/Reports.js:26-31 | the named input is replaced and every other field is kept |
| Reports.ReportsPage.GenerateReport | TAP_ACADEMEY_PROJECT-main/frontend/src/pages/Reports.js:33-51 | a request is sent iff both dates are filled in. Without them: the missing-dates toast and nothing changes. With them: data replaced and a success toast if the request succeeds, data kept and a failure toast if it fails; loading ends either way |
| Reports.ReportsPage.ExportCsv | TAP_ACADEMEY_PROJECT-main/frontend/src/pages/Reports.js:53-81 | the same guard; a success toast iff a request was sent and succeeded; the page is never changed |
| Reports.ReportsPage.Totals | TAP_ACADEMEY_PROJECT-main/frontend/src/pages/Reports.js:83-103 | none iff the report is empty; otherwise each status counted once per record (counts total the record count) and the hours summed |
| Reports.GenerateAfterFillingDates | TAP_ACADEMEY_PROJECT-main/frontend/src/pages/Reports.js:33-51 | a first attempt with a date missing is refused; after the date is filled in, the next attempt replaces the data |
| AttendanceSlice.ResetClearsFlagsOnly | TAP_ACADEMEY_PROJECT-main/frontend/src/store/slices/attendanceSlice.js:163-168 | reset restores the four status fields to their initial values, keeps every data field, and is idempotent |
| AttendanceSlice.PendingOnlyLoads | TAP_ACADEMEY_PROJECT-main/frontend/src/store/slices/attendanceSlice.js:172-174 | every pending case (check-in, check-out, both dashboards; also lines 185-187, 207-216) sets only isLoading to true |
| AttendanceSlice.SubmitFulfilled | TAP_ACADEMEY_PROJECT-main/frontend/src/store/slices/attendanceSlice.js:175-179 | check-in/check-out fulfilled (also 188-192) clears isLoading, sets isSuccess and todayStatus := payload, and nothing else |
| AttendanceSlice.SubmitRejected | TAP_ACADEMEY_PROJECT-main/frontend/src/store/slices/attendanceSlice.js:180-184 | check-in/check-out rejected (also 193-197) clears isLoading, sets isError and message := payload, and keeps every data field, todayStatus included |
| AttendanceSlice.FetchLeavesFlags | TAP_ACADEMEY_PROJECT-main/frontend/src/store/slices/attendanceSlice.js:198-206 | the today, history, summary, all and today-status-all fulfilled cases (also 221-226) never touch the status fields |
| AttendanceSlice.DashboardsShareField | TAP_ACADEMEY_PROJECT-main/frontend/src/store/slices/attendanceSlice.js:207-220 | the two dashboards write one shared field, so the later answer replaces the earlier |
| AttendanceSlice.FlagsOnlyClearedByReset | TAP_ACADEMEY_PROJECT-main/frontend/src/store/slices/attendanceSlice.js:171-226 | no action clears isSuccess or isError, and none assigns summary |
| AttendanceSlice.FlagsStickUntilReset | TAP_ACADEMEY_PROJECT-main/frontend/src/store/slices/attendanceSlice.js:171-226 | once raised, isSuccess and isError stay raised through any run of actions without reset |
| AttendanceSlice.SummaryNeverAssigned | TAP_ACADEMEY_PROJECT-main/frontend/src/store/slices/attendanceSlice.js:12 | the summary field stays null whatever actions arrive |
| AttendanceSlice.Reduce | TAP_ACADEMEY_PROJECT-main/frontend/src/store/slices/attendanceSlice.js:170-227 | the `extraReducers` step: never lowers isSuccess or isError, never assigns summary, and leaves the state alone for an action it has no case for |
| AttendanceSlice.Reset | TAP_ACADEMEY_PROJECT-main/frontend/src/store/slices/attendanceSlice.js:163-168 | the `reset` reducer: the four status fields return to their initial values and every data field is kept |
| AttendanceSlice.Store.constructor | TAP_ACADEMEY_PROJECT-main/frontend/src/store/slices/attendanceSlice.js:6-18 | the store starts in the initial state |
| AttendanceSlice.Store.ResetFlags | TAP_ACADEMEY_PROJECT-main/frontend/src/store/slices/attendanceSlice.js:163-168 | the new state is reset applied to the old one |
| AttendanceSlice.Store.Dispatch | TAP_ACADEMEY_PROJECT-main/frontend/src/store/slices/attendanceSlice.js:170-227 | the new state is the reducer's transition of the old state for the action, and no other field changes |
| AttendanceSlice.SuccessThenFailure | TAP_ACADEMEY_PROJECT-main/frontend/src/store/slices/attendanceSlice.js:175-197 | a successful check-in followed by a refused check-out leaves both isSuccess and isError raised |
| AttendanceSlice.QueryString | TAP_ACADEMEY_PROJECT-main/frontend/src/store/slices/attendanceSlice.js:75 | the query string is empty iff no parameters are given |
| AttendanceSlice.QueryRoundTrip | TAP_ACADEMEY_PROJECT-main/frontend/src/store/slices/attendanceSlice.js:90 | a month without "&" and any year are read back from the query string exactly as sent |

## Left out

- **Floating-point hours.** `toFixed(2)` on a binary float is modelled as exact rounding half up to hundredths. Each summary's final rounding of a sum of hundredths is then the identity.
- **Time zones and daylight saving.** `toISOString`, `toDateString`, `toLocaleTimeString` and `$dateToString` are not modelled. Local time is the only clock, so:
  - the export's date column and the trend's group key are day numbers;
  - the export's time cells hold the time of day, not the formatted string.
- **Parsing query strings into numbers and dates.** `new Date(startDate)` and `month - 1` on a query string are not modelled. The date range arrives as a range, present only when both dates were given. Month and year arrive as integers. Invalid dates are not represented.
- **Database behaviour.** Not modelled:
  - the `sort({ date: -1 })` order (the model keeps the collection's order, and its filters preserve it);
  - the aggregation engine;
  - `populate` of a deleted user (an exception and a 500 answer in the source);
  - `$unwind` dropping a document whose user is missing (every entry carries its user);
  - a failed save or a schema validation error;
  - enforcement of the unique index under concurrent requests.
- **Not in the model:**
  - the Express request and response handling, routes, authentication and role middleware;
  - the `createdAt`/`updatedAt` timestamps;
  - the User model (user fields are given data).
- **Front-end I/O.** json2csv, Blob creation and file download are not modelled. Neither are the axios thunks, their error-message extraction, `localStorage`, or the toast library. The server's answer to a request is a parameter.
- **Presentation code.** The seed script and the page components' rendering are not modelled.
- TeamCalendar.RequestCoversMonth: holds for the model's single clock, where local time equals UTC. The page sends the `toISOString` dates of local midnights and the server parses them as UTC midnights. In any other zone the fetched range's upper end falls before the month's last local midnight, so a document dated on the month's last day is not fetched and its tile shows no data. The model does not capture that loss.
- Calendar.MonthStart: `new Date(y, m, d)` reads a year 0–99 as 1900 + y. The model takes every year literally, so the summaries' and the calendar's month ranges for such years differ from the source's.
- TeamCalendar.Band: compares the share by exact integer cross-multiplication. The page compares a floating-point percentage. The two agree at the 90/70/50 thresholds for whole counts, but that agreement is not proved.
- Reports.ReportsPage.Totals: statuses are always one of the four values here. So the counts always add up to the record count, and the case of an unknown status string, counted nowhere, does not arise.
- OrganizationAggregator.ExportRows: the date column is the day of the document's date. In the source it is the UTC date of a local midnight, which is the previous day east of UTC.

## Findings

| source | as written | input that shows it | evidently intended | confidence | as-written member | corrected member |
|---|---|---|---|---|---|---|
| TAP_ACADEMEY_PROJECT-main/backend/controllers/attendanceController.js:247-252 | the department filter starts again from the unfiltered result, so an employee filter given with a department is discarded | employeeId=E2 and department=Eng, over one Eng document of employee E1: the document is listed | both in-memory filters applied one after the other | medium, not executed | OrganizationAggregator.AllAttendance (with OrganizationAggregator.AllAttendanceIgnoresEmployee) | OrganizationAggregator.AllAttendanceIntended |
