/**
 * One employee's month: the history and summary queries and the status-counting
 * fold that `getMySummary`, the employee dashboard's `monthlyStats` and the report
 * page's totals all run over a list of documents.
 */
module PersonalAggregator {
  import opened Common
  import opened Calendar
  import opened AttendanceModel

  /** Counts of the four statuses, as the summaries' `present/absent/late/halfDay` fields. */
  datatype Tally = Tally(present: nat, absent: nat, late: nat, halfDay: nat) {

    function Get(s: Status): nat {
      match s
      case Present => present
      case Absent => absent
      case Late => late
      case HalfDay => halfDay
    }

    function Total(): nat {
      present + absent + late + halfDay
    }

    /** The counter for `s` incremented once. */
    function Bump(s: Status): (t: Tally)
      ensures t.Get(s) == Get(s) + 1
      ensures forall o :: o != s ==> t.Get(o) == Get(o)
    {
      match s
      case Present => this.(present := present + 1)
      case Absent => this.(absent := absent + 1)
      case Late => this.(late := late + 1)
      case HalfDay => this.(halfDay := halfDay + 1)
    }
  }

  const NoTally: Tally := Tally(0, 0, 0, 0)

  /** `records.filter(r => r.status === s).length`. */
  function CountStatus(rs: seq<Record>, s: Status): (n: nat)
    ensures n <= |rs|
  {
    if rs == [] then 0
    else (if rs[0].status == s then 1 else 0) + CountStatus(rs[1..], s)
  }

  lemma {:induction false} CountStatusSnoc(rs: seq<Record>, x: Record, s: Status)
    ensures CountStatus(rs + [x], s) == CountStatus(rs, s) + (if x.status == s then 1 else 0)
  {
    if rs == [] {
      assert [x][1..] == [];
    } else {
      assert (rs + [x])[1..] == rs[1..] + [x];
      CountStatusSnoc(rs[1..], x, s);
    }
  }

  /** Every document has exactly one of the four statuses, so the counts partition the list. */
  lemma {:induction false} CountStatusPartition(rs: seq<Record>)
    ensures CountStatus(rs, Present) + CountStatus(rs, Absent)
          + CountStatus(rs, Late) + CountStatus(rs, HalfDay) == |rs|
  {
    if rs != [] {
      CountStatusPartition(rs[1..]);
    }
  }

  /** The sum of `record.totalHours || 0`, in hundredths (the field always holds a number). */
  function SumHours(rs: seq<Record>): int {
    if rs == [] then 0 else rs[0].totalHours + SumHours(rs[1..])
  }

  lemma {:induction false} SumHoursSnoc(rs: seq<Record>, x: Record)
    ensures SumHours(rs + [x]) == SumHours(rs) + x.totalHours
  {
    if rs == [] {
      assert [x][1..] == [];
    } else {
      assert (rs + [x])[1..] == rs[1..] + [x];
      SumHoursSnoc(rs[1..], x);
    }
  }

  /** No document has negative hours, so neither does their sum. */
  lemma {:induction false} SumHoursNonNegative(rs: seq<Record>)
    requires forall i :: 0 <= i < |rs| ==> rs[i].totalHours >= 0
    ensures SumHours(rs) >= 0
  {
    if rs != [] {
      SumHoursNonNegative(rs[1..]);
    }
  }

  /** A personal summary: the status counts and the total hours in hundredths. */
  datatype Summary = Summary(counts: Tally, totalHours: int)

  /**
   * The `forEach` fold: one counter per status, incremented once per document, and a
   * running sum of hours. The hours are exact hundredths, so the single rounding the
   * source applies at the end leaves the sum as it is.
   */
  method Summarize(rs: seq<Record>) returns (sum: Summary)
    ensures forall s :: sum.counts.Get(s) == CountStatus(rs, s)
    ensures sum.counts.Total() == |rs|
    ensures sum.totalHours == SumHours(rs)
  {
    var present, absent, late, halfDay := 0, 0, 0, 0;
    var totalHours := 0;
    var i := 0;
    while i < |rs|
      invariant 0 <= i <= |rs|
      invariant present == CountStatus(rs[..i], Present)
      invariant absent == CountStatus(rs[..i], Absent)
      invariant late == CountStatus(rs[..i], Late)
      invariant halfDay == CountStatus(rs[..i], HalfDay)
      invariant totalHours == SumHours(rs[..i])
    {
      var record := rs[i];
      if record.status == Present {
        present := present + 1;
      } else if record.status == Absent {
        absent := absent + 1;
      } else if record.status == Late {
        late := late + 1;
      } else if record.status == HalfDay {
        halfDay := halfDay + 1;
      }
      totalHours := totalHours + record.totalHours;
      assert rs[..i + 1] == rs[..i] + [record];
      CountStatusSnoc(rs[..i], record, Present);
      CountStatusSnoc(rs[..i], record, Absent);
      CountStatusSnoc(rs[..i], record, Late);
      CountStatusSnoc(rs[..i], record, HalfDay);
      SumHoursSnoc(rs[..i], record);
      i := i + 1;
    }
    assert rs[..i] == rs;
    CountStatusPartition(rs);
    sum := Summary(Tally(present, absent, late, halfDay), totalHours);
  }

  /** The query of one user's documents dated inside a range. */
  function InRangeFor(user: UserId, range: Range): Record -> bool {
    (r: Record) => r.userId == user && range.Contains(r.date)
  }

  /**
   * The month `getMySummary` and `getAttendanceSummary` query: the given 1-based month
   * and year, each defaulting separately to the current one.
   */
  function SummaryMonth(month: Option<int>, year: Option<int>, now: Clock): (r: Range)
    requires ValidClock(now)
    ensures month.Some? && year.Some? ==> r == MonthRange(year.value, month.value)
    ensures month.Some? && year.None? ==> r == MonthRange(now.year, month.value)
    ensures month.None? && year.Some? ==> r == MonthRange(year.value, now.month + 1)
    ensures month.None? && year.None? ==> r == MonthRange(now.year, now.month + 1) && r.Contains(Instant(now))
  {
    var y := year.GetOr(now.year);
    var m := month.GetOr(now.month + 1);
    CurrentMonthContainsNow(now);
    MonthRange(y, m)
  }

  /** With nothing given, the queried month is the one the clock reads, so it contains "now". */
  lemma CurrentMonthContainsNow(now: Clock)
    requires ValidClock(now)
    ensures MonthRange(now.year, now.month + 1).Contains(Instant(now))
  {
    ClockMonthNormal(now);
    MonthLength(now.year, now.month);
    MonthRangeDays(now.year, now.month + 1, Instant(now));
  }

  /**
   * `getMySummary`: the summary of `user`'s documents in the requested month, taken
   * from the collection `all`.
   */
  method GetMySummary(all: seq<Record>, user: UserId, month: Option<int>, year: Option<int>, now: Clock)
    returns (sum: Summary)
    requires ValidClock(now)
    ensures var found := Filter(all, InRangeFor(user, SummaryMonth(month, year, now)));
      && (forall s :: sum.counts.Get(s) == CountStatus(found, s))
      && sum.counts.Total() == |found|
      && sum.totalHours == SumHours(found)
  {
    var range := SummaryMonth(month, year, now);
    var found := Filter(all, InRangeFor(user, range));
    sum := Summarize(found);
  }

  /**
   * The history with month and year given holds the user's documents whose calendar
   * day is one of that month's days, whatever the time of day they are dated at.
   */
  lemma HistoryByDay(user: UserId, month: int, year: int, r: Record)
    ensures HistoryQuery(user, Some(month), Some(year))(r)
      <==> r.userId == user && MonthStart(year, month - 1) <= DayOf(r.date) < MonthStart(year, month)
  {
    MonthRangeDays(year, month, r.date);
  }

  /** `getMyHistory` / `getEmployeeAttendance`: the month filter applies only when both month and year are given. */
  function HistoryQuery(user: UserId, month: Option<int>, year: Option<int>): (p: Record -> bool)
    ensures month.None? || year.None? ==> forall r :: p(r) == (r.userId == user)
    ensures month.Some? && year.Some? ==>
      forall r :: p(r) == (r.userId == user && MonthRange(year.value, month.value).Contains(r.date))
  {
    if month.Some? && year.Some? then InRangeFor(user, MonthRange(year.value, month.value))
    else (r: Record) => r.userId == user
  }
}
