/**
 * The manager's views of the whole collection: the month summary with its
 * per-department breakdown, the filtered listing, the export rows and today's
 * checked-in / not-checked-in split.
 */
module OrganizationAggregator {
  import opened Common
  import opened Calendar
  import opened AttendanceModel
  import opened PersonalAggregator

  // ---------------------------------------------------------------- summary

  /** One `byDepartment[dept]` entry: the department name and its four counters. */
  datatype DepartmentTally = DepartmentTally(department: string, counts: Tally)

  /**
   * Where the entry for `dept` sits in `ds` (the object's keys in insertion order),
   * or `|ds|` when it has none yet.
   */
  function IndexOf(ds: seq<DepartmentTally>, dept: string): (k: nat)
    ensures k <= |ds|
    ensures k < |ds| ==> ds[k].department == dept
    ensures forall j :: 0 <= j < k ==> ds[j].department != dept
  {
    if ds == [] then 0
    else if ds[0].department == dept then 0
    else 1 + IndexOf(ds[1..], dept)
  }

  /** `byDepartment[dept]`, read as zero counts when the department has no entry. */
  function CountsFor(ds: seq<DepartmentTally>, dept: string): Tally {
    var k := IndexOf(ds, dept);
    if k < |ds| then ds[k].counts else NoTally
  }

  /**
   * One record of department `dept` with status `s` folded in: the entry is created
   * with zero counts at the end when missing, then its counter for `s` incremented.
   */
  function Bumped(ds: seq<DepartmentTally>, dept: string, s: Status): (r: seq<DepartmentTally>)
    ensures |ds| <= |r| <= |ds| + 1
  {
    var k := IndexOf(ds, dept);
    var grown := if k == |ds| then ds + [DepartmentTally(dept, NoTally)] else ds;
    grown[k := DepartmentTally(dept, grown[k].counts.Bump(s))]
  }

  /** The `byDepartment` object after the `forEach` over `es`. */
  function DepartmentFold(es: seq<Entry>): (ds: seq<DepartmentTally>)
    ensures |ds| <= |es|
    ensures ds == [] <==> es == []
  {
    if es == [] then []
    else
      var last := es[|es| - 1];
      Bumped(DepartmentFold(es[..|es| - 1]), last.user.department, last.record.status)
  }

  /** Folding one more document in is one `Bumped` step. */
  lemma DepartmentFoldSnoc(es: seq<Entry>, e: Entry)
    ensures DepartmentFold(es + [e]) == Bumped(DepartmentFold(es), e.user.department, e.record.status)
  {
    assert (es + [e])[..|es|] == es;
  }

  /** The number of listed documents of department `dept` with status `s`, counted independently of the fold. */
  function CountIn(es: seq<Entry>, dept: string, s: Status): nat {
    if es == [] then 0
    else
      var last := es[|es| - 1];
      CountIn(es[..|es| - 1], dept, s) + (if last.user.department == dept && last.record.status == s then 1 else 0)
  }

  /** The sum of one counter over all the department entries. */
  function TotalOf(ds: seq<DepartmentTally>, s: Status): nat {
    if ds == [] then 0 else ds[0].counts.Get(s) + TotalOf(ds[1..], s)
  }

  /** No department has two entries. */
  predicate DistinctNames(ds: seq<DepartmentTally>) {
    forall i, j :: 0 <= i < j < |ds| ==> ds[i].department != ds[j].department
  }

  lemma {:induction false} TotalOfSnoc(ds: seq<DepartmentTally>, d: DepartmentTally, s: Status)
    ensures TotalOf(ds + [d], s) == TotalOf(ds, s) + d.counts.Get(s)
  {
    if ds == [] {
      assert [d][1..] == [];
    } else {
      assert (ds + [d])[1..] == ds[1..] + [d];
      TotalOfSnoc(ds[1..], d, s);
    }
  }

  lemma {:induction false} TotalOfUpdate(ds: seq<DepartmentTally>, k: nat, d: DepartmentTally, s: Status)
    requires k < |ds|
    ensures TotalOf(ds[k := d], s) + ds[k].counts.Get(s) == TotalOf(ds, s) + d.counts.Get(s)
  {
    if k == 0 {
      assert ds[k := d][1..] == ds[1..];
    } else {
      assert ds[k := d][1..] == ds[1..][k - 1 := d];
      TotalOfUpdate(ds[1..], k - 1, d, s);
    }
  }

  /** The departments that have an entry. */
  function Names(ds: seq<DepartmentTally>): (names: set<string>)
    ensures forall d :: d in names <==> IndexOf(ds, d) < |ds|
  {
    set x | x in ds :: x.department
  }

  /** The departments of the listed documents' users. */
  function DepartmentsOf(es: seq<Entry>): set<string> {
    set e | e in es :: e.user.department
  }

  /** Folding one record in keeps the names distinct and adds exactly `dept` to them. */
  lemma BumpedNames(ds: seq<DepartmentTally>, dept: string, s: Status)
    requires DistinctNames(ds)
    ensures DistinctNames(Bumped(ds, dept, s))
    ensures Names(Bumped(ds, dept, s)) == Names(ds) + {dept}
  {
    var k := IndexOf(ds, dept);
    var r := Bumped(ds, dept, s);
    assert forall j :: 0 <= j < |ds| && j != k ==> r[j] == ds[j];
    assert r[k].department == dept;
    forall d
      ensures d in Names(r) <==> d in Names(ds) || d == dept
    {
      if d != dept && IndexOf(ds, d) < |ds| {
        assert r[IndexOf(ds, d)].department == d;
      }
    }
  }

  /**
   * Folding one record in: the department's counter for the record's status goes
   * up by one and every other (department, status) count stays.
   */
  lemma BumpedCounts(ds: seq<DepartmentTally>, dept: string, s: Status, d: string, t: Status)
    ensures CountsFor(Bumped(ds, dept, s), d).Get(t) == CountsFor(ds, d).Get(t) + (if d == dept && t == s then 1 else 0)
  {
    var k := IndexOf(ds, dept);
    var r := Bumped(ds, dept, s);
    assert forall j :: 0 <= j < |ds| && j != k ==> r[j] == ds[j];
    assert r[k].department == dept;
    var kd := IndexOf(ds, d);
    var rd := IndexOf(r, d);
    if d == dept {
      assert rd == k;
    } else if kd < |ds| {
      assert kd != k;
      assert rd == kd;
    } else {
      assert rd == |r|;
    }
  }

  /** Folding one record in adds one to the sum of its status's counter over the departments. */
  lemma BumpedTotal(ds: seq<DepartmentTally>, dept: string, s: Status, t: Status)
    ensures TotalOf(Bumped(ds, dept, s), t) == TotalOf(ds, t) + (if t == s then 1 else 0)
  {
    var k := IndexOf(ds, dept);
    var grown := if k == |ds| then ds + [DepartmentTally(dept, NoTally)] else ds;
    if k == |ds| {
      TotalOfSnoc(ds, DepartmentTally(dept, NoTally), t);
    }
    TotalOfUpdate(grown, k, DepartmentTally(dept, grown[k].counts.Bump(s)), t);
  }

  /** The fold gives each department of the listed users one entry, and no other entry. */
  lemma {:induction false} DepartmentFoldNames(es: seq<Entry>)
    ensures DistinctNames(DepartmentFold(es))
    ensures Names(DepartmentFold(es)) == DepartmentsOf(es)
  {
    if es != [] {
      var init := es[..|es| - 1];
      var last := es[|es| - 1];
      DepartmentFoldNames(init);
      BumpedNames(DepartmentFold(init), last.user.department, last.record.status);
      assert es == init + [last];
      assert DepartmentsOf(es) == DepartmentsOf(init) + {last.user.department};
    }
  }

  /** The fold and the independent count agree on every (department, status). */
  lemma {:induction false} DepartmentFoldCounts(es: seq<Entry>, d: string, t: Status)
    ensures CountsFor(DepartmentFold(es), d).Get(t) == CountIn(es, d, t)
  {
    if es != [] {
      var init := es[..|es| - 1];
      var last := es[|es| - 1];
      DepartmentFoldCounts(init, d, t);
      BumpedCounts(DepartmentFold(init), last.user.department, last.record.status, d, t);
    }
  }

  /** Summed over the departments, each counter gives the number of documents with that status. */
  lemma {:induction false} DepartmentFoldTotals(es: seq<Entry>, t: Status)
    ensures TotalOf(DepartmentFold(es), t) == CountStatus(Records(es), t)
  {
    if es != [] {
      var init := es[..|es| - 1];
      var last := es[|es| - 1];
      DepartmentFoldTotals(init, t);
      BumpedTotal(DepartmentFold(init), last.user.department, last.record.status, t);
      assert es == init + [last];
      RecordsSnoc(init, last);
      CountStatusSnoc(Records(init), last.record, t);
    }
  }

  /** The loop's facts for one more document: every status count and the fold each take one step. */
  lemma SummaryStep(es: seq<Entry>, e: Entry)
    ensures forall s :: CountStatus(Records(es + [e]), s) == CountStatus(Records(es), s) + (if e.record.status == s then 1 else 0)
    ensures DepartmentFold(es + [e]) == Bumped(DepartmentFold(es), e.user.department, e.record.status)
  {
    RecordsSnoc(es, e);
    forall s {
      CountStatusSnoc(Records(es), e.record, s);
    }
    DepartmentFoldSnoc(es, e);
  }

  /**
   * One document's department update inside the `forEach`: the entry is created
   * with zero counts when missing, then its status counter is incremented.
   */
  method AddToDepartments(ds: seq<DepartmentTally>, dept: string, s: Status) returns (r: seq<DepartmentTally>)
    ensures r == Bumped(ds, dept, s)
  {
    r := ds;
    var k := IndexOf(r, dept);
    if k == |r| {
      r := r + [DepartmentTally(dept, NoTally)];
    }
    r := r[k := DepartmentTally(dept, r[k].counts.Bump(s))];
  }

  /** The summary the manager sees: totals per status and the per-department breakdown. */
  datatype OrgSummary = OrgSummary(totals: Tally, byDepartment: seq<DepartmentTally>)

  /**
   * The `forEach` of `getAttendanceSummary`: each document is counted once in the
   * totals and once under its user's department.
   */
  method SummarizeOrganization(attendance: seq<Entry>) returns (summary: OrgSummary)
    ensures forall s :: summary.totals.Get(s) == CountStatus(Records(attendance), s)
    ensures summary.byDepartment == DepartmentFold(attendance)
  {
    var totalPresent, totalAbsent, totalLate, totalHalfDay := 0, 0, 0, 0;
    var byDepartment: seq<DepartmentTally> := [];
    var i := 0;
    while i < |attendance|
      invariant 0 <= i <= |attendance|
      invariant totalPresent == CountStatus(Records(attendance[..i]), Present)
      invariant totalAbsent == CountStatus(Records(attendance[..i]), Absent)
      invariant totalLate == CountStatus(Records(attendance[..i]), Late)
      invariant totalHalfDay == CountStatus(Records(attendance[..i]), HalfDay)
      invariant byDepartment == DepartmentFold(attendance[..i])
    {
      var entry := attendance[i];
      var record := entry.record;
      if record.status == Present {
        totalPresent := totalPresent + 1;
      } else if record.status == Absent {
        totalAbsent := totalAbsent + 1;
      } else if record.status == Late {
        totalLate := totalLate + 1;
      } else if record.status == HalfDay {
        totalHalfDay := totalHalfDay + 1;
      }
      byDepartment := AddToDepartments(byDepartment, entry.user.department, record.status);
      assert attendance[..i + 1] == attendance[..i] + [entry];
      SummaryStep(attendance[..i], entry);
      i := i + 1;
    }
    assert attendance[..i] == attendance;
    summary := OrgSummary(Tally(totalPresent, totalAbsent, totalLate, totalHalfDay), byDepartment);
  }

  /**
   * `getAttendanceSummary`: the summary of every document of the requested month;
   * the department entries are distinct, cover exactly the users' departments, count
   * what the documents say and add up to the totals.
   */
  method GetAttendanceSummary(all: seq<Entry>, month: Option<int>, year: Option<int>, now: Clock)
    returns (summary: OrgSummary)
    requires ValidClock(now)
    ensures var found := Filter(all, InRange(SummaryMonth(month, year, now)));
      && (forall s :: summary.totals.Get(s) == CountStatus(Records(found), s))
      && summary.totals.Total() == |found|
      && DistinctNames(summary.byDepartment)
      && Names(summary.byDepartment) == DepartmentsOf(found)
      && (forall d, s :: CountsFor(summary.byDepartment, d).Get(s) == CountIn(found, d, s))
      && (forall s :: TotalOf(summary.byDepartment, s) == summary.totals.Get(s))
  {
    var range := SummaryMonth(month, year, now);
    var attendance := Filter(all, InRange(range));
    summary := SummarizeOrganization(attendance);
    CountStatusPartition(Records(attendance));
    DepartmentFoldNames(attendance);
    forall d, s
      ensures CountsFor(summary.byDepartment, d).Get(s) == CountIn(attendance, d, s)
    {
      DepartmentFoldCounts(attendance, d, s);
    }
    forall s
      ensures TotalOf(summary.byDepartment, s) == summary.totals.Get(s)
    {
      DepartmentFoldTotals(attendance, s);
    }
  }

  /** Every user's documents dated inside a range (a month, or the dashboards' day ranges). */
  function InRange(range: Range): Entry -> bool {
    (e: Entry) => range.Contains(e.record.date)
  }

  // ---------------------------------------------------------------- listing

  /**
   * The query parameters of `getAllAttendance`; an empty string is a parameter not
   * given, and `dates` is present only when both a start and an end date were given.
   */
  datatype AllQuery = AllQuery(dates: Option<Range>, status: string, employeeCode: string, department: string)

  /** The part of the query the database evaluates: the date range and the status. */
  function DbQuery(q: AllQuery): Entry -> bool {
    (e: Entry) =>
      && (q.dates.Some? ==> q.dates.value.Contains(e.record.date))
      && (q.status != "" ==> StatusName(e.record.status) == q.status)
  }

  function HasCode(code: string): Entry -> bool {
    (e: Entry) => e.user.employeeCode == code
  }

  function InDepartment(dept: string): Entry -> bool {
    (e: Entry) => e.user.department == dept
  }

  /**
   * `getAllAttendance` as written: both in-memory filters start from the database
   * result, so a department filter replaces the employee filter instead of refining it.
   */
  function AllAttendance(es: seq<Entry>, q: AllQuery): (r: seq<Entry>)
    ensures forall e :: e in r <==>
      && e in es && DbQuery(q)(e)
      && (q.department != "" ==> e.user.department == q.department)
      && (q.department == "" && q.employeeCode != "" ==> e.user.employeeCode == q.employeeCode)
  {
    var attendance := Filter(es, DbQuery(q));
    var filtered := if q.employeeCode != "" then Filter(attendance, HasCode(q.employeeCode)) else attendance;
    if q.department != "" then Filter(attendance, InDepartment(q.department)) else filtered
  }

  /** With a department given, the employee filter has no effect at all. */
  lemma DepartmentDiscardsEmployeeCode(es: seq<Entry>, q: AllQuery)
    requires q.department != ""
    ensures AllAttendance(es, q) == AllAttendance(es, q.(employeeCode := ""))
  {
  }

  /** The listing with both in-memory filters applied one after the other. */
  function AllAttendanceIntended(es: seq<Entry>, q: AllQuery): (r: seq<Entry>)
    ensures forall e :: e in r <==>
      && e in es && DbQuery(q)(e)
      && (q.department != "" ==> e.user.department == q.department)
      && (q.employeeCode != "" ==> e.user.employeeCode == q.employeeCode)
  {
    var attendance := Filter(es, DbQuery(q));
    var byCode := if q.employeeCode != "" then Filter(attendance, HasCode(q.employeeCode)) else attendance;
    if q.department != "" then Filter(byCode, InDepartment(q.department)) else byCode
  }

  /** The two listings differ only when both an employee and a department are given. */
  lemma {:induction false} AllAttendanceAgrees(es: seq<Entry>, q: AllQuery)
    requires q.employeeCode == "" || q.department == ""
    ensures AllAttendance(es, q) == AllAttendanceIntended(es, q)
  {
  }

  /** One document of employee "E1" in "Eng": asking for "E2" in "Eng" still lists it. */
  lemma AllAttendanceIgnoresEmployee()
    ensures var e := Entry(NewRecord(1, 0), User(1, "Ann", "E1", "Eng", EmployeeRole));
      var q := AllQuery(None, "", "E2", "Eng");
      && AllAttendance([e], q) == [e]
      && AllAttendanceIntended([e], q) == []
  {
    var e := Entry(NewRecord(1, 0), User(1, "Ann", "E1", "Eng", EmployeeRole));
    var q := AllQuery(None, "", "E2", "Eng");
    assert e in AllAttendance([e], q);
    assert e !in AllAttendanceIntended([e], q);
  }

  // ---------------------------------------------------------------- export

  /** `User.findOne({ employeeId })`: the first user with that employee code. */
  function FindUserByCode(users: seq<User>, code: string): (r: Option<User>)
    ensures r.None? <==> forall u :: u in users ==> u.employeeCode != code
    ensures r.Some? ==> r.value.employeeCode == code
    ensures r.Some? ==>
      exists i :: (0 <= i < |users| && users[i] == r.value && forall j :: 0 <= j < i ==> users[j].employeeCode != code)
  {
    if users == [] then None
    else if users[0].employeeCode == code then Some(users[0])
    else
      var r := FindUserByCode(users[1..], code);
      if r.Some? then
        var i :| 0 <= i < |users[1..]| && users[1..][i] == r.value
          && (forall j :: 0 <= j < i ==> users[1..][j].employeeCode != code);
        assert users[i + 1] == r.value;
        r
      else r
  }

  /** The owner the export is restricted to: only when a code is given and some user has it. */
  function ExportOwner(users: seq<User>, code: string): (o: Option<UserId>)
    ensures o.None? <==> code == "" || forall u :: u in users ==> u.employeeCode != code
    ensures o.Some? ==> exists u :: u in users && u.employeeCode == code && u.id == o.value
  {
    if code == "" then None
    else
      var user := FindUserByCode(users, code);
      if user.Some? then Some(user.value.id) else None
  }

  function ExportQuery(dates: Option<Range>, owner: Option<UserId>): Entry -> bool {
    (e: Entry) =>
      && (dates.Some? ==> dates.value.Contains(e.record.date))
      && (owner.Some? ==> e.record.userId == owner.value)
  }

  /** A time column: "N/A" or the local time of day (its rendering is not modelled). */
  datatype TimeCell = NotAvailable | LocalTime(msOfDay: int)

  /** One CSV row; `day` is the day number of the document's date. */
  datatype ExportRow = ExportRow(
    employeeCode: string, name: string, department: string, day: int,
    checkIn: TimeCell, checkOut: TimeCell, status: string, totalHours: int)

  function Cell(t: Option<Time>): (c: TimeCell)
    ensures c == NotAvailable <==> t.None?
    ensures t.Some? ==> c == LocalTime(TimeOfDay(t.value))
  {
    if t.Some? then LocalTime(TimeOfDay(t.value)) else NotAvailable
  }

  /** The row a populated document becomes. */
  function ToRow(e: Entry): (row: ExportRow)
    ensures row.employeeCode == e.user.employeeCode && row.name == e.user.name
    ensures row.department == e.user.department
    ensures row.day == DayOf(e.record.date)
    ensures row.checkIn == Cell(e.record.checkInTime) && row.checkOut == Cell(e.record.checkOutTime)
    ensures ParseStatus(row.status) == Some(e.record.status)
    ensures row.totalHours == e.record.totalHours
  {
    StatusNameRoundTrip(e.record.status);
    ExportRow(e.user.employeeCode, e.user.name, e.user.department, DayOf(e.record.date),
      Cell(e.record.checkInTime), Cell(e.record.checkOutTime),
      StatusName(e.record.status), e.record.totalHours)
  }

  /** `exportAttendance`: one row per document the query selects, in the query's order. */
  function ExportRows(es: seq<Entry>, users: seq<User>, dates: Option<Range>, code: string): (rows: seq<ExportRow>)
    ensures var selected := Filter(es, ExportQuery(dates, ExportOwner(users, code)));
      |rows| == |selected| && forall i :: 0 <= i < |rows| ==> rows[i] == ToRow(selected[i])
  {
    var selected := Filter(es, ExportQuery(dates, ExportOwner(users, code)));
    seq(|selected|, i requires 0 <= i < |selected| => ToRow(selected[i]))
  }

  /** A code that no user has exports the same rows as no code at all. */
  lemma UnknownCodeExportsAll(es: seq<Entry>, users: seq<User>, dates: Option<Range>, code: string)
    requires forall u :: u in users ==> u.employeeCode != code
    ensures ExportRows(es, users, dates, code) == ExportRows(es, users, dates, "")
  {
  }

  /** A known code exports only documents of the first user with that code. */
  lemma KnownCodeExportsOwner(es: seq<Entry>, users: seq<User>, dates: Option<Range>, code: string)
    requires code != ""
    requires FindUserByCode(users, code).Some?
    ensures forall e :: e in Filter(es, ExportQuery(dates, ExportOwner(users, code))) <==>
      && e in es
      && (dates.Some? ==> dates.value.Contains(e.record.date))
      && e.record.userId == FindUserByCode(users, code).value.id
  {
  }

  // ---------------------------------------------------------------- today, all users

  /** `User.find({ role: 'employee' })`. */
  function Roster(users: seq<User>): (r: seq<User>)
    ensures forall u :: u in r <==> u in users && u.role == EmployeeRole
  {
    Filter(users, (u: User) => u.role == EmployeeRole)
  }

  function OnDay(day: Time): Entry -> bool {
    (e: Entry) => e.record.date == day
  }

  /** The ids of the users with a document in `es` (`checkedInIds`). */
  function CheckedInIds(es: seq<Entry>): (ids: set<UserId>)
    ensures forall id :: id in ids <==> exists e :: e in es && e.user.id == id
  {
    set e | e in es :: e.user.id
  }

  /**
   * The employees with no document among `present`: the roster minus every user
   * that has one, whatever its status.
   */
  function AbsentEmployees(present: seq<Entry>, users: seq<User>): (r: seq<User>)
    ensures forall u :: u in r <==>
      && u in users && u.role == EmployeeRole
      && forall e :: e in present ==> e.user.id != u.id
  {
    var checkedInIds := CheckedInIds(present);
    Filter(Roster(users), (u: User) => u.id !in checkedInIds)
  }

  /**
   * When the documents belong to distinct users, all of them on the roster, and
   * the roster has no repeated id, the absent list is the roster less one employee
   * per document.
   */
  lemma AbsentEmployeesCount(present: seq<Entry>, users: seq<User>)
    requires DistinctBy(present, (e: Entry) => e.user.id)
    requires DistinctBy(Roster(users), (u: User) => u.id)
    requires forall e :: e in present ==> exists u :: u in users && u.role == EmployeeRole && u.id == e.user.id
    ensures |AbsentEmployees(present, users)| + |present| == |Roster(users)|
  {
    var roster := Roster(users);
    var ids := CheckedInIds(present);
    var notIn := (u: User) => u.id !in ids;
    var isIn := (u: User) => u.id in ids;
    var userId := (u: User) => u.id;
    DistinctImageSize(present, (e: Entry) => e.user.id);
    assert Image(present, (e: Entry) => e.user.id) == ids;
    FilterPartition(roster, notIn, isIn);
    var marked := Filter(roster, isIn);
    FilterDistinctBy(roster, isIn, userId);
    DistinctImageSize(marked, userId);
    assert Image(marked, userId) == ids by {
      forall id | id in ids
        ensures id in Image(marked, userId)
      {
        var e :| e in present && e.user.id == id;
        var u :| u in users && u.role == EmployeeRole && u.id == e.user.id;
        assert u in roster && u in marked;
      }
    }
    assert AbsentEmployees(present, users) == Filter(roster, notIn);
  }

  /** Under the unique index, the documents of one day belong to distinct users. */
  lemma OneDayDistinctUsers(all: seq<Entry>, day: Time)
    requires UniqueKeys(Records(all)) && Populated(all)
    ensures DistinctBy(Filter(all, OnDay(day)), (e: Entry) => e.user.id)
  {
    var present := Filter(all, OnDay(day));
    var entryKey := (e: Entry) => e.record.Key();
    assert DistinctBy(all, entryKey) by {
      forall i, j | 0 <= i < j < |all|
        ensures entryKey(all[i]) != entryKey(all[j])
      {
        assert Records(all)[i] == all[i].record && Records(all)[j] == all[j].record;
      }
    }
    FilterDistinctBy(all, OnDay(day), entryKey);
    forall i, j | 0 <= i < j < |present|
      ensures present[i].user.id != present[j].user.id
    {
      assert present[i] in all && present[j] in all;
      var a :| 0 <= a < |all| && all[a] == present[i];
      var b :| 0 <= b < |all| && all[b] == present[j];
    }
  }

  /** The `data` object of `getTodayStatusAll`. */
  datatype TodayStatusAll = TodayStatusAll(
    present: seq<Entry>, absent: seq<User>, totalEmployees: nat, checkedIn: nat, notCheckedIn: nat)

  /**
   * `getTodayStatusAll`: the documents dated today, and the employees with no such
   * document; the three counts are the lengths of those lists and of the roster.
   */
  function GetTodayStatusAll(all: seq<Entry>, users: seq<User>, now: Time): (r: TodayStatusAll)
    ensures forall e :: e in r.present <==> e in all && e.record.date == StartOfDay(now)
    ensures forall u :: u in r.absent <==>
      && u in users && u.role == EmployeeRole
      && forall e :: e in all && e.record.date == StartOfDay(now) ==> e.user.id != u.id
    ensures r.totalEmployees == |Roster(users)|
    ensures r.checkedIn == |r.present| && r.notCheckedIn == |r.absent|
  {
    var attendance := Filter(all, OnDay(StartOfDay(now)));
    var allEmployees := Roster(users);
    var absentEmployees := AbsentEmployees(attendance, users);
    TodayStatusAll(attendance, absentEmployees, |allEmployees|, |attendance|, |absentEmployees|)
  }

  /**
   * The two counts add up to the number of employees when the unique index holds,
   * every document is populated with its own user and everyone with a document
   * today is on the roster (a manager's own check-in breaks the identity).
   */
  lemma TodayCountsAddUp(all: seq<Entry>, users: seq<User>, now: Time)
    requires UniqueKeys(Records(all)) && Populated(all)
    requires DistinctBy(Roster(users), (u: User) => u.id)
    requires forall e :: e in all && e.record.date == StartOfDay(now) ==>
      exists u :: u in users && u.role == EmployeeRole && u.id == e.user.id
    ensures var r := GetTodayStatusAll(all, users, now);
      r.checkedIn + r.notCheckedIn == r.totalEmployees
  {
    OneDayDistinctUsers(all, StartOfDay(now));
    AbsentEmployeesCount(Filter(all, OnDay(StartOfDay(now))), users);
  }
}
