/**
 * The two dashboards: the employee's today / month-to-date / last-days view and
 * the manager's today statistics, weekly trend and department head-count.
 */
module Dashboard {
  import opened Common
  import opened Calendar
  import opened AttendanceModel
  import opened PersonalAggregator
  import opened OrganizationAggregator

  // ---------------------------------------------------------------- ranges

  /** `getDateRange(days)`: from the start of the day `days` days before today to the end of today. */
  function DateRange(now: Time, days: int): (r: Range)
    ensures DayOf(r.start) == DayOf(now) - days && TimeOfDay(r.start) == 0
    ensures r.end == EndOfDay(now)
  {
    DayAndTimeOfDay(DayOf(now) - days, 0);
    Range((DayOf(now) - days) * DayMs, EndOfDay(now))
  }

  /** For `days >= 0` the range holds "now" and spans `days + 1` whole calendar days. */
  lemma DateRangeSpan(now: Time, days: int)
    requires days >= 0
    ensures DateRange(now, days).Contains(now)
    ensures DayOf(DateRange(now, days).end) - DayOf(DateRange(now, days).start) + 1 == days + 1
    ensures DateRange(now, days).end - DateRange(now, days).start + 1 == (days + 1) * DayMs
  {
    var r := DateRange(now, days);
    DayStartMonotone(DayOf(now) - days, DayOf(now));
    assert StartOfDay(now) == DayOf(now) * DayMs;
  }

  /** `getMonthRange`: from the 1st of the current month to the end of today. */
  function MonthToDate(now: Clock): (r: Range)
    requires ValidClock(now)
    ensures DayOf(r.start) == MonthStart(now.year, now.month) && TimeOfDay(r.start) == 0
    ensures r.end == EndOfDay(Instant(now))
    ensures r.Contains(Instant(now))
  {
    var first := DayNumber(now.year, now.month, 1);
    DayAndTimeOfDay(first, 0);
    DayStartMonotone(first, DayOf(Instant(now)));
    Range(first * DayMs, EndOfDay(Instant(now)))
  }

  /**
   * The month-to-date range starts where the calendar month does, and ends where
   * the month ends exactly on the month's last day.
   */
  lemma MonthToDateVersusMonth(now: Clock)
    requires ValidClock(now)
    ensures MonthToDate(now).start == MonthRange(now.year, now.month + 1).start
    ensures MonthToDate(now).end <= MonthRange(now.year, now.month + 1).end
    ensures MonthToDate(now).end == MonthRange(now.year, now.month + 1).end
      <==> now.date == DaysInMonth(now.year, now.month)
  {
    var m := MonthRange(now.year, now.month + 1);
    var r := MonthToDate(now);
    ClockMonthNormal(now);
    MonthLength(now.year, now.month);
    var today := DayNumber(now.year, now.month, now.date);
    var next := MonthStart(now.year, now.month + 1);
    assert today + 1 <= next;
    assert DayOf(r.end) == today && DayOf(m.end) == next - 1;
    assert TimeOfDay(r.end) == TimeOfDay(m.end);
    BeforeDayStart(r.end, next);
  }

  // ---------------------------------------------------------------- employee dashboard

  /** `Attendance.findOne(...)` over a query: the first document it selects. */
  function FindOne(all: seq<Record>, p: Record -> bool): (r: Option<Record>)
    ensures r.None? <==> forall x :: x in all ==> !p(x)
    ensures r.Some? ==> r.value in all && p(r.value)
  {
    var hits := Filter(all, p);
    if hits == [] then None else Some(hits[0])
  }

  function OwnDocumentOn(user: UserId, day: Time): Record -> bool {
    (r: Record) => r.userId == user && r.date == day
  }

  /** The employee dashboard's `data`. */
  datatype EmployeeDashboard = EmployeeDashboard(todayStatus: Option<Record>, monthlyStats: Summary, last7Days: seq<Record>)

  /**
   * `getEmployeeDashboard`: today's document, the month-to-date summary and the
   * documents of the last 7 days (8 calendar days, today included).
   */
  method GetEmployeeDashboard(all: seq<Record>, user: UserId, now: Clock) returns (d: EmployeeDashboard)
    requires ValidClock(now)
    ensures d.todayStatus.None? <==>
      forall r :: r in all ==> !(r.userId == user && r.date == StartOfDay(Instant(now)))
    ensures d.todayStatus.Some? ==>
      d.todayStatus.value in all && d.todayStatus.value.userId == user && d.todayStatus.value.date == StartOfDay(Instant(now))
    ensures var month := Filter(all, InRangeFor(user, MonthToDate(now)));
      && (forall s :: d.monthlyStats.counts.Get(s) == CountStatus(month, s))
      && d.monthlyStats.counts.Total() == |month|
      && d.monthlyStats.totalHours == SumHours(month)
    ensures forall r :: r in d.last7Days <==>
      r in all && r.userId == user && DateRange(Instant(now), 7).Contains(r.date)
  {
    var today := StartOfDay(Instant(now));
    var todayAttendance := FindOne(all, OwnDocumentOn(user, today));
    var monthlyAttendance := Filter(all, InRangeFor(user, MonthToDate(now)));
    var monthlyStats := Summarize(monthlyAttendance);
    var last7Days := Filter(all, InRangeFor(user, DateRange(Instant(now), 7)));
    d := EmployeeDashboard(todayAttendance, monthlyStats, last7Days);
  }

  // ---------------------------------------------------------------- today's statistics

  /** `todayStats`; `absent` is a difference and can be negative. */
  datatype TodayStats = TodayStats(present: nat, late: nat, absent: int, onTime: nat)

  function IsLate(e: Entry): bool {
    e.record.status == Late
  }

  /**
   * The `forEach` over today's documents: an on-time or a late arrival counts as
   * present, late arrivals are collected in order, and half-day and absent
   * documents count nowhere.
   */
  method ComputeTodayStats(todayAttendance: seq<Entry>, totalEmployees: nat)
    returns (stats: TodayStats, lateArrivals: seq<Entry>)
    ensures stats.onTime == CountStatus(Records(todayAttendance), Present)
    ensures stats.late == CountStatus(Records(todayAttendance), Late)
    ensures stats.present == stats.onTime + stats.late
    ensures stats.absent == totalEmployees - stats.present
    ensures lateArrivals == Filter(todayAttendance, IsLate)
  {
    var present, late, onTime := 0, 0, 0;
    lateArrivals := [];
    var i := 0;
    while i < |todayAttendance|
      invariant 0 <= i <= |todayAttendance|
      invariant onTime == CountStatus(Records(todayAttendance[..i]), Present)
      invariant late == CountStatus(Records(todayAttendance[..i]), Late)
      invariant present == onTime + late
      invariant lateArrivals == Filter(todayAttendance[..i], IsLate)
    {
      var entry := todayAttendance[i];
      if entry.record.status == Present {
        present := present + 1;
        onTime := onTime + 1;
      } else if entry.record.status == Late {
        present := present + 1;
        late := late + 1;
        lateArrivals := lateArrivals + [entry];
      }
      assert todayAttendance[..i + 1] == todayAttendance[..i] + [entry];
      RecordsSnoc(todayAttendance[..i], entry);
      CountStatusSnoc(Records(todayAttendance[..i]), entry.record, Present);
      CountStatusSnoc(Records(todayAttendance[..i]), entry.record, Late);
      FilterAppend(todayAttendance[..i], [entry], IsLate);
      i := i + 1;
    }
    assert todayAttendance[..i] == todayAttendance;
    stats := TodayStats(present, late, totalEmployees - present, onTime);
  }

  /**
   * Today's `absent` and the length of the absent list agree exactly when no
   * document of today is a half day or an absence (under the same conditions as
   * the checked-in / not-checked-in identity).
   */
  lemma AbsentCountsAgree(present: seq<Entry>, users: seq<User>)
    requires DistinctBy(present, (e: Entry) => e.user.id)
    requires DistinctBy(Roster(users), (u: User) => u.id)
    requires forall e :: e in present ==> exists u :: u in users && u.role == EmployeeRole && u.id == e.user.id
    ensures var counted := CountStatus(Records(present), Present) + CountStatus(Records(present), Late);
      |AbsentEmployees(present, users)| == |Roster(users)| - counted
      <==> CountStatus(Records(present), HalfDay) + CountStatus(Records(present), Absent) == 0
  {
    AbsentEmployeesCount(present, users);
    CountStatusPartition(Records(present));
  }

  /** One employee whose only document today is a half day: counted absent, yet not on the absent list. */
  lemma HalfDayIsNeitherPresentNorListedAbsent()
    ensures var ann := User(1, "Ann", "E1", "Eng", EmployeeRole);
      var e := Entry(Record(1, 0, Some(0), Some(HourMs), HalfDay, 100), ann);
      && |Roster([ann])| - (CountStatus(Records([e]), Present) + CountStatus(Records([e]), Late)) == 1
      && AbsentEmployees([e], [ann]) == []
  {
    var ann := User(1, "Ann", "E1", "Eng", EmployeeRole);
    var e := Entry(Record(1, 0, Some(0), Some(HourMs), HalfDay, 100), ann);
    assert Records([e]) == [e.record];
    assert Roster([ann]) == [ann];
    assert ann !in AbsentEmployees([e], [ann]);
  }

  /** The manager dashboard's `data` (the weekly trend and department statistics are below). */
  datatype ManagerDashboard = ManagerDashboard(
    totalEmployees: nat, todayStats: TodayStats, lateArrivals: seq<Entry>, absentEmployees: seq<User>,
    weeklyTrend: seq<TrendPoint>, departmentStats: map<string, nat>)

  /**
   * `getManagerDashboard`: today's statistics against the roster size, the absent
   * employees, the trend of the last 7 days and today's head-count by department.
   */
  method GetManagerDashboard(all: seq<Entry>, users: seq<User>, now: Time) returns (d: ManagerDashboard)
    ensures d.totalEmployees == |Roster(users)|
    ensures var today := Filter(all, OnDay(StartOfDay(now)));
      && d.todayStats.present == CountStatus(Records(today), Present) + CountStatus(Records(today), Late)
      && d.todayStats.late == CountStatus(Records(today), Late)
      && d.todayStats.onTime == CountStatus(Records(today), Present)
      && d.todayStats.absent == d.totalEmployees - d.todayStats.present
      && d.lateArrivals == Filter(today, IsLate)
      && d.absentEmployees == AbsentEmployees(today, users)
      && d.departmentStats == DepartmentHeadcount(today)
    ensures d.weeklyTrend == WeeklyTrend(Records(Filter(all, InRange(DateRange(now, 7)))))
  {
    var today := StartOfDay(now);
    var totalEmployees := |Roster(users)|;
    var todayAttendance := Filter(all, OnDay(today));
    var todayStats, lateArrivals := ComputeTodayStats(todayAttendance, totalEmployees);
    var absentEmployees := AbsentEmployees(todayAttendance, users);
    var weekly := Records(Filter(all, InRange(DateRange(now, 7))));
    d := ManagerDashboard(totalEmployees, todayStats, lateArrivals, absentEmployees,
      WeeklyTrend(weekly), DepartmentHeadcount(todayAttendance));
  }

  // ---------------------------------------------------------------- weekly trend

  /** One group of the weekly pipeline: a day, its present-or-late count and its late count. */
  datatype TrendPoint = TrendPoint(day: int, present: nat, late: nat)

  function PresentWeight(r: Record): nat {
    if r.status == Present || r.status == Late then 1 else 0
  }

  function LateWeight(r: Record): nat {
    if r.status == Late then 1 else 0
  }

  /** One document added to a day-sorted list of groups: its day's group is created or incremented. */
  function AddToTrend(ps: seq<TrendPoint>, r: Record): (qs: seq<TrendPoint>)
    ensures |qs| >= 1
    ensures |ps| <= |qs| <= |ps| + 1
    ensures qs[0].day == DayOf(r.date) || (ps != [] && qs[0] == ps[0])
  {
    var d := DayOf(r.date);
    if ps == [] then [TrendPoint(d, PresentWeight(r), LateWeight(r))]
    else if d < ps[0].day then [TrendPoint(d, PresentWeight(r), LateWeight(r))] + ps
    else if d == ps[0].day then
      [ps[0].(present := ps[0].present + PresentWeight(r), late := ps[0].late + LateWeight(r))] + ps[1..]
    else [ps[0]] + AddToTrend(ps[1..], r)
  }

  /** The `$group` by day followed by `$sort: { _id: 1 }`. */
  function WeeklyTrend(rs: seq<Record>): (ps: seq<TrendPoint>)
    ensures |ps| <= |rs|
    ensures ps == [] <==> rs == []
  {
    if rs == [] then [] else AddToTrend(WeeklyTrend(rs[..|rs| - 1]), rs[|rs| - 1])
  }

  /** One group per day, in ascending order of days. */
  predicate StrictlyIncreasing(ps: seq<TrendPoint>) {
    forall i, j :: 0 <= i < j < |ps| ==> ps[i].day < ps[j].day
  }

  /** Within every group the late count is part of the present count. */
  predicate LateWithinPresent(ps: seq<TrendPoint>) {
    forall i :: 0 <= i < |ps| ==> ps[i].late <= ps[i].present
  }

  function TrendDays(ps: seq<TrendPoint>): set<int> {
    set p | p in ps :: p.day
  }

  function DaysOf(rs: seq<Record>): set<int> {
    set r | r in rs :: DayOf(r.date)
  }

  /** The present count the groups report for day `d` (zero when it has no group). */
  function PresentAt(ps: seq<TrendPoint>, d: int): nat {
    if ps == [] then 0 else (if ps[0].day == d then ps[0].present else 0) + PresentAt(ps[1..], d)
  }

  function LateAt(ps: seq<TrendPoint>, d: int): nat {
    if ps == [] then 0 else (if ps[0].day == d then ps[0].late else 0) + LateAt(ps[1..], d)
  }

  /** The number of documents of day `d` that are present or late, counted directly. */
  function PresentOn(rs: seq<Record>, d: int): nat {
    if rs == [] then 0
    else PresentOn(rs[..|rs| - 1], d) + (if DayOf(rs[|rs| - 1].date) == d then PresentWeight(rs[|rs| - 1]) else 0)
  }

  function LateOn(rs: seq<Record>, d: int): nat {
    if rs == [] then 0
    else LateOn(rs[..|rs| - 1], d) + (if DayOf(rs[|rs| - 1].date) == d then LateWeight(rs[|rs| - 1]) else 0)
  }

  /** Adding a document keeps the groups sorted, distinct and consistent, and adds its day. */
  lemma {:induction false} AddToTrendDays(ps: seq<TrendPoint>, r: Record)
    ensures TrendDays(AddToTrend(ps, r)) == TrendDays(ps) + {DayOf(r.date)}
  {
    if ps != [] {
      var d := DayOf(r.date);
      assert TrendDays(ps) == {ps[0].day} + TrendDays(ps[1..]);
      if d > ps[0].day {
        AddToTrendDays(ps[1..], r);
        assert TrendDays(AddToTrend(ps, r)) == {ps[0].day} + TrendDays(AddToTrend(ps[1..], r));
      } else if d < ps[0].day {
        assert TrendDays(AddToTrend(ps, r)) == {d} + TrendDays(ps);
      } else {
        var qs := AddToTrend(ps, r);
        assert qs[1..] == ps[1..];
        assert TrendDays(qs) == {qs[0].day} + TrendDays(qs[1..]);
      }
    }
  }

  /** Adding a document keeps the groups sorted by distinct days, each with late within present. */
  lemma {:induction false} AddToTrendShape(ps: seq<TrendPoint>, r: Record)
    requires StrictlyIncreasing(ps) && LateWithinPresent(ps)
    ensures StrictlyIncreasing(AddToTrend(ps, r)) && LateWithinPresent(AddToTrend(ps, r))
  {
    if ps != [] {
      var d := DayOf(r.date);
      if d > ps[0].day {
        AddToTrendShape(ps[1..], r);
        AddToTrendDays(ps[1..], r);
        var qs := AddToTrend(ps[1..], r);
        forall i | 0 <= i < |qs|
          ensures ps[0].day < qs[i].day
        {
          assert qs[i].day in TrendDays(qs);
          if qs[i].day != d {
            var p :| p in ps[1..] && p.day == qs[i].day;
            var j :| 0 <= j < |ps[1..]| && ps[1..][j] == p;
            assert ps[j + 1] == p;
          }
        }
        assert AddToTrend(ps, r) == [ps[0]] + qs;
      }
    }
  }

  /** Adding a document adds its weights to its own day's counts and to no other day's. */
  lemma {:induction false} AddToTrendCounts(ps: seq<TrendPoint>, r: Record, x: int)
    ensures PresentAt(AddToTrend(ps, r), x) == PresentAt(ps, x) + (if DayOf(r.date) == x then PresentWeight(r) else 0)
    ensures LateAt(AddToTrend(ps, r), x) == LateAt(ps, x) + (if DayOf(r.date) == x then LateWeight(r) else 0)
  {
    if ps != [] {
      var d := DayOf(r.date);
      if d > ps[0].day {
        AddToTrendCounts(ps[1..], r, x);
      } else if d < ps[0].day {
        assert ([TrendPoint(d, PresentWeight(r), LateWeight(r))] + ps)[1..] == ps;
      }
    }
  }

  /**
   * The weekly trend has one group per day that has documents, in ascending order;
   * each group counts exactly that day's present-or-late and late documents, so
   * late never exceeds present.
   */
  lemma {:induction false} WeeklyTrendCorrect(rs: seq<Record>)
    ensures StrictlyIncreasing(WeeklyTrend(rs))
    ensures LateWithinPresent(WeeklyTrend(rs))
    ensures TrendDays(WeeklyTrend(rs)) == DaysOf(rs)
    ensures forall x :: PresentAt(WeeklyTrend(rs), x) == PresentOn(rs, x)
    ensures forall x :: LateAt(WeeklyTrend(rs), x) == LateOn(rs, x)
  {
    WeeklyTrendShape(rs);
    forall x
      ensures PresentAt(WeeklyTrend(rs), x) == PresentOn(rs, x)
      ensures LateAt(WeeklyTrend(rs), x) == LateOn(rs, x)
    {
      WeeklyTrendCounts(rs, x);
    }
  }

  /** The groups are sorted by distinct days, one per day with documents, with late within present. */
  lemma {:induction false} WeeklyTrendShape(rs: seq<Record>)
    ensures StrictlyIncreasing(WeeklyTrend(rs))
    ensures LateWithinPresent(WeeklyTrend(rs))
    ensures TrendDays(WeeklyTrend(rs)) == DaysOf(rs)
  {
    if rs != [] {
      var init := rs[..|rs| - 1];
      var last := rs[|rs| - 1];
      var before := WeeklyTrend(init);
      assert WeeklyTrend(rs) == AddToTrend(before, last);
      WeeklyTrendShape(init);
      AddToTrendShape(before, last);
      AddToTrendDays(before, last);
      DaysOfSnoc(init, last);
      assert rs == init + [last];
    }
  }

  /** Each day's group counts that day's present-or-late and late documents. */
  lemma {:induction false} WeeklyTrendCounts(rs: seq<Record>, x: int)
    ensures PresentAt(WeeklyTrend(rs), x) == PresentOn(rs, x)
    ensures LateAt(WeeklyTrend(rs), x) == LateOn(rs, x)
  {
    if rs != [] {
      var init := rs[..|rs| - 1];
      var last := rs[|rs| - 1];
      var before := WeeklyTrend(init);
      assert WeeklyTrend(rs) == AddToTrend(before, last);
      WeeklyTrendCounts(init, x);
      AddToTrendCounts(before, last, x);
    }
  }

  lemma DaysOfSnoc(rs: seq<Record>, r: Record)
    ensures DaysOf(rs + [r]) == DaysOf(rs) + {DayOf(r.date)}
  {
    assert forall q :: q in rs + [r] <==> q in rs || q == r;
  }

  /** With distinct days, the group of a day holds that day's counts. */
  lemma {:induction false} GroupHoldsDayCounts(ps: seq<TrendPoint>, i: int)
    requires StrictlyIncreasing(ps) && 0 <= i < |ps|
    ensures PresentAt(ps, ps[i].day) == ps[i].present
    ensures LateAt(ps, ps[i].day) == ps[i].late
  {
    if i == 0 {
      AbsentDayCountsZero(ps[1..], ps[0].day);
    } else {
      GroupHoldsDayCounts(ps[1..], i - 1);
    }
  }

  lemma {:induction false} AbsentDayCountsZero(ps: seq<TrendPoint>, x: int)
    requires forall p :: p in ps ==> p.day != x
    ensures PresentAt(ps, x) == 0 && LateAt(ps, x) == 0
  {
    if ps != [] {
      AbsentDayCountsZero(ps[1..], x);
    }
  }

  // ---------------------------------------------------------------- departments

  /** The `$lookup` / `$group` by department with `$sum: 1`: today's documents per department. */
  function DepartmentHeadcount(es: seq<Entry>): (m: map<string, nat>)
    ensures forall d :: d in m ==> 1 <= m[d] <= |es|
  {
    if es == [] then map[]
    else
      var m := DepartmentHeadcount(es[1..]);
      var dept := es[0].user.department;
      m[dept := (if dept in m then m[dept] else 0) + 1]
  }

  /**
   * Every department with a document today gets one entry, and it counts that
   * department's documents, whatever their status.
   */
  lemma {:induction false} DepartmentHeadcountCorrect(es: seq<Entry>)
    ensures DepartmentHeadcount(es).Keys == DepartmentsOf(es)
    ensures forall d :: d in DepartmentHeadcount(es) ==>
      DepartmentHeadcount(es)[d] == |Filter(es, InDepartment(d))|
  {
    if es != [] {
      var tail := es[1..];
      DepartmentHeadcountCorrect(tail);
      assert DepartmentsOf(es) == DepartmentsOf(tail) + {es[0].user.department};
      forall d | d in DepartmentHeadcount(es)
        ensures DepartmentHeadcount(es)[d] == |Filter(es, InDepartment(d))|
      {
        var here := Filter(tail, InDepartment(d));
        assert Filter(es, InDepartment(d)) == (if es[0].user.department == d then [es[0]] else []) + here;
      }
    }
  }
}
