/**
 * The front-end attendance store: its state, the `reset` reducer, the state
 * transition of every action the slice handles, and the query string the history
 * and summary requests carry. Requests themselves are not modelled: an action
 * arrives with the payload the request produced.
 */
module AttendanceSlice {
  import opened Common
  import opened AttendanceModel
  import opened PersonalAggregator
  import opened OrganizationAggregator
  import opened Dashboard

  /** What `dashboardData` holds: the employee's or the manager's dashboard. */
  datatype DashboardData = EmployeeData(employee: EmployeeDashboard) | ManagerData(manager: ManagerDashboard)

  /** A snapshot of every field of the slice's state. */
  datatype SliceState = SliceState(
    todayStatus: Option<Record>,
    myHistory: seq<Record>,
    mySummary: Option<Summary>,
    allAttendance: seq<Entry>,
    todayStatusAll: Option<TodayStatusAll>,
    summary: Option<OrgSummary>,
    dashboardData: Option<DashboardData>,
    isError: bool,
    isSuccess: bool,
    isLoading: bool,
    message: string)
  {
    /** The four status fields. */
    function Flags(): (bool, bool, bool, string) {
      (isError, isSuccess, isLoading, message)
    }

    /** The seven data fields. */
    function Data(): (Option<Record>, seq<Record>, Option<Summary>, seq<Entry>, Option<TodayStatusAll>, Option<OrgSummary>, Option<DashboardData>) {
      (todayStatus, myHistory, mySummary, allAttendance, todayStatusAll, summary, dashboardData)
    }
  }

  /** `initialState`. */
  const Initial: SliceState := SliceState(None, [], None, [], None, None, None, false, false, false, "")

  /** The action types the slice has a case for, with their payloads; every other action is `Unhandled`. */
  datatype Action =
    | CheckInPending | CheckInFulfilled(checkedIn: Record) | CheckInRejected(checkInError: string)
    | CheckOutPending | CheckOutFulfilled(checkedOut: Record) | CheckOutRejected(checkOutError: string)
    | TodayStatusFulfilled(today: Option<Record>)
    | MyHistoryFulfilled(history: seq<Record>)
    | MySummaryFulfilled(mine: Summary)
    | EmployeeDashboardPending | EmployeeDashboardFulfilled(employee: EmployeeDashboard)
    | ManagerDashboardPending | ManagerDashboardFulfilled(manager: ManagerDashboard)
    | AllAttendanceFulfilled(all: seq<Entry>)
    | TodayStatusAllFulfilled(snapshot: TodayStatusAll)
    | Unhandled

  predicate IsPending(a: Action) {
    a.CheckInPending? || a.CheckOutPending? || a.EmployeeDashboardPending? || a.ManagerDashboardPending?
  }

  predicate IsRejected(a: Action) {
    a.CheckInRejected? || a.CheckOutRejected?
  }

  /** The fulfilled actions of the five fetches that have no pending or rejected case. */
  predicate IsFetchFulfilled(a: Action) {
    a.TodayStatusFulfilled? || a.MyHistoryFulfilled? || a.MySummaryFulfilled?
    || a.AllAttendanceFulfilled? || a.TodayStatusAllFulfilled?
  }

  /** The `extraReducers` cases: the state after action `a`. */
  function Reduce(s: SliceState, a: Action): (r: SliceState)
    ensures s.isSuccess ==> r.isSuccess
    ensures s.isError ==> r.isError
    ensures r.summary == s.summary
    ensures a.Unhandled? ==> r == s
  {
    match a
    case CheckInPending => s.(isLoading := true)
    case CheckInFulfilled(r) => s.(isLoading := false, isSuccess := true, todayStatus := Some(r))
    case CheckInRejected(m) => s.(isLoading := false, isError := true, message := m)
    case CheckOutPending => s.(isLoading := true)
    case CheckOutFulfilled(r) => s.(isLoading := false, isSuccess := true, todayStatus := Some(r))
    case CheckOutRejected(m) => s.(isLoading := false, isError := true, message := m)
    case TodayStatusFulfilled(t) => s.(todayStatus := t)
    case MyHistoryFulfilled(h) => s.(myHistory := h)
    case MySummaryFulfilled(m) => s.(mySummary := Some(m))
    case EmployeeDashboardPending => s.(isLoading := true)
    case EmployeeDashboardFulfilled(d) => s.(isLoading := false, dashboardData := Some(EmployeeData(d)))
    case ManagerDashboardPending => s.(isLoading := true)
    case ManagerDashboardFulfilled(d) => s.(isLoading := false, dashboardData := Some(ManagerData(d)))
    case AllAttendanceFulfilled(xs) => s.(allAttendance := xs)
    case TodayStatusAllFulfilled(t) => s.(todayStatusAll := Some(t))
    case Unhandled => s
  }

  /** The `reset` reducer. */
  function Reset(s: SliceState): (r: SliceState)
    ensures r.Flags() == Initial.Flags()
    ensures r.Data() == s.Data()
  {
    s.(isLoading := false, isSuccess := false, isError := false, message := "")
  }

  /** `reset` clears the four status fields and keeps every data field. */
  lemma ResetClearsFlagsOnly(s: SliceState)
    ensures Reset(s).Flags() == Initial.Flags()
    ensures Reset(s).Data() == s.Data()
    ensures Reset(Reset(s)) == Reset(s)
  {
  }

  /** A pending action only raises `isLoading`. */
  lemma PendingOnlyLoads(s: SliceState, a: Action)
    requires IsPending(a)
    ensures Reduce(s, a) == s.(isLoading := true)
  {
  }

  /** A successful check-in or check-out ends loading, reports success and shows the saved document. */
  lemma SubmitFulfilled(s: SliceState, a: Action)
    requires a.CheckInFulfilled? || a.CheckOutFulfilled?
    ensures var r := if a.CheckInFulfilled? then a.checkedIn else a.checkedOut;
      Reduce(s, a) == s.(isLoading := false, isSuccess := true, todayStatus := Some(r))
  {
  }

  /** A refused check-in or check-out ends loading, reports the error and keeps every data field. */
  lemma SubmitRejected(s: SliceState, a: Action)
    requires IsRejected(a)
    ensures var m := if a.CheckInRejected? then a.checkInError else a.checkOutError;
      Reduce(s, a).Flags() == (true, s.isSuccess, false, m)
    ensures Reduce(s, a).Data() == s.Data()
  {
  }

  /** A fetch with no pending or rejected case writes its own field and leaves the status fields alone. */
  lemma FetchLeavesFlags(s: SliceState, a: Action)
    requires IsFetchFulfilled(a)
    ensures Reduce(s, a).Flags() == s.Flags()
    ensures Reduce(s, a).dashboardData == s.dashboardData && Reduce(s, a).summary == s.summary
  {
  }

  /** The two dashboards share one field: the later answer replaces the earlier. */
  lemma DashboardsShareField(s: SliceState, e: EmployeeDashboard, m: ManagerDashboard)
    ensures Reduce(Reduce(s, EmployeeDashboardFulfilled(e)), ManagerDashboardFulfilled(m)).dashboardData
      == Some(ManagerData(m))
    ensures Reduce(Reduce(s, ManagerDashboardFulfilled(m)), EmployeeDashboardFulfilled(e)).dashboardData
      == Some(EmployeeData(e))
  {
  }

  /** No action clears `isSuccess` or `isError` and none assigns `summary`; only `reset` clears the flags. */
  lemma FlagsOnlyClearedByReset(s: SliceState, a: Action)
    ensures s.isSuccess ==> Reduce(s, a).isSuccess
    ensures s.isError ==> Reduce(s, a).isError
    ensures Reduce(s, a).summary == s.summary
  {
  }

  /** A lifted sequence of actions. */
  function ReduceAll(s: SliceState, actions: seq<Action>): SliceState
    decreases |actions|
  {
    if actions == [] then s else ReduceAll(Reduce(s, actions[0]), actions[1..])
  }

  /** Once raised, `isSuccess` and `isError` stay raised through any run of actions. */
  lemma {:induction false} FlagsStickUntilReset(s: SliceState, actions: seq<Action>)
    ensures s.isSuccess ==> ReduceAll(s, actions).isSuccess
    ensures s.isError ==> ReduceAll(s, actions).isError
    ensures ReduceAll(s, actions).summary == s.summary
    decreases |actions|
  {
    if actions != [] {
      FlagsOnlyClearedByReset(s, actions[0]);
      FlagsStickUntilReset(Reduce(s, actions[0]), actions[1..]);
    }
  }

  /** The `summary` field keeps its initial null forever. */
  lemma SummaryNeverAssigned(actions: seq<Action>)
    ensures ReduceAll(Initial, actions).summary == None
  {
    FlagsStickUntilReset(Initial, actions);
  }

  /** The slice's state, held in fields that the reducers assign in place. */
  class Store {
    var todayStatus: Option<Record>
    var myHistory: seq<Record>
    var mySummary: Option<Summary>
    var allAttendance: seq<Entry>
    var todayStatusAll: Option<TodayStatusAll>
    var summary: Option<OrgSummary>
    var dashboardData: Option<DashboardData>
    var isError: bool
    var isSuccess: bool
    var isLoading: bool
    var message: string

    function State(): SliceState
      reads this
    {
      SliceState(todayStatus, myHistory, mySummary, allAttendance, todayStatusAll, summary, dashboardData,
        isError, isSuccess, isLoading, message)
    }

    constructor ()
      ensures State() == Initial
    {
      todayStatus, myHistory, mySummary, allAttendance := None, [], None, [];
      todayStatusAll, summary, dashboardData := None, None, None;
      isError, isSuccess, isLoading, message := false, false, false, "";
    }

    /** The `reset` action. */
    method ResetFlags()
      modifies this
      ensures State() == Reset(old(State()))
    {
      isLoading := false;
      isSuccess := false;
      isError := false;
      message := "";
    }

    /** Dispatching `a`: the case for its type assigns its fields, and no other field changes. */
    method Dispatch(a: Action)
      modifies this
      ensures State() == Reduce(old(State()), a)
    {
      match a
      case CheckInPending =>
        isLoading := true;
      case CheckInFulfilled(r) =>
        isLoading := false;
        isSuccess := true;
        todayStatus := Some(r);
      case CheckInRejected(m) =>
        isLoading := false;
        isError := true;
        message := m;
      case CheckOutPending =>
        isLoading := true;
      case CheckOutFulfilled(r) =>
        isLoading := false;
        isSuccess := true;
        todayStatus := Some(r);
      case CheckOutRejected(m) =>
        isLoading := false;
        isError := true;
        message := m;
      case TodayStatusFulfilled(t) =>
        todayStatus := t;
      case MyHistoryFulfilled(h) =>
        myHistory := h;
      case MySummaryFulfilled(m) =>
        mySummary := Some(m);
      case EmployeeDashboardPending =>
        isLoading := true;
      case EmployeeDashboardFulfilled(d) =>
        isLoading := false;
        dashboardData := Some(EmployeeData(d));
      case ManagerDashboardPending =>
        isLoading := true;
      case ManagerDashboardFulfilled(d) =>
        isLoading := false;
        dashboardData := Some(ManagerData(d));
      case AllAttendanceFulfilled(xs) =>
        allAttendance := xs;
      case TodayStatusAllFulfilled(t) =>
        todayStatusAll := Some(t);
      case Unhandled =>
    }
  }

  /**
   * A check-in that succeeds followed by a check-out that is refused, with no
   * `reset` between them, leaves both `isSuccess` and `isError` raised.
   */
  method SuccessThenFailure(store: Store, r: Record, m: string)
    modifies store
    ensures store.isSuccess && store.isError && !store.isLoading
    ensures store.todayStatus == Some(r) && store.message == m
  {
    store.Dispatch(CheckInPending);
    store.Dispatch(CheckInFulfilled(r));
    store.Dispatch(CheckOutPending);
    store.Dispatch(CheckOutRejected(m));
  }

  // ---------------------------------------------------------------- query string

  /** `params ? '?month=..&year=..' : ''` for the history and summary requests. */
  function QueryString(params: Option<(string, string)>): (q: string)
    ensures q == "" <==> params.None?
  {
    if params.None? then "" else "?month=" + params.value.0 + "&year=" + params.value.1
  }

  /** The text before the first `c` in `s` and the text after it, or none when `c` does not occur. */
  function SplitAt(s: string, c: char): (r: Option<(string, string)>)
    ensures r.None? <==> c !in s
    ensures r.Some? ==> s == r.value.0 + [c] + r.value.1 && c !in r.value.0
  {
    if s == [] then None
    else if s[0] == c then Some(([], s[1..]))
    else
      var rest := SplitAt(s[1..], c);
      if rest.None? then None
      else
        assert s == [s[0]] + s[1..];
        Some(([s[0]] + rest.value.0, rest.value.1))
  }

  /**
   * A reference reader of the query string: it recovers the month and year from
   * the text the thunk builds. It stands for no code of the application (the server's
   * own query parsing is not part of this model); it exists to show that the string
   * loses nothing.
   */
  function ParseQuery(q: string): Option<(string, string)> {
    var monthKey := "?month=";
    var yearKey := "year=";
    if |q| < |monthKey| || q[..|monthKey|] != monthKey then None
    else
      var split := SplitAt(q[|monthKey|..], '&');
      if split.None? then None
      else
        var tail := split.value.1;
        if |tail| < |yearKey| || tail[..|yearKey|] != yearKey then None
        else Some((split.value.0, tail[|yearKey|..]))
  }

  /** A month with no `&` in it is read back as sent, and so is the year. */
  lemma QueryRoundTrip(month: string, year: string)
    requires '&' !in month
    ensures ParseQuery(QueryString(Some((month, year)))) == Some((month, year))
  {
    var monthKey := "?month=";
    var yearKey := "year=";
    var rest := month + ['&'] + (yearKey + year);
    var q := QueryString(Some((month, year)));
    assert q == monthKey + rest;
    assert q[..|monthKey|] == monthKey;
    assert q[|monthKey|..] == rest;
    SplitAtFirst(month, '&', yearKey + year);
    var tail := yearKey + year;
    assert tail[..|yearKey|] == yearKey && tail[|yearKey|..] == year;
  }

  /** Splitting at the first `c` finds the boundary after a prefix without `c`. */
  lemma {:induction false} SplitAtFirst(prefix: string, c: char, suffix: string)
    requires c !in prefix
    ensures SplitAt(prefix + [c] + suffix, c) == Some((prefix, suffix))
  {
    if prefix == [] {
      assert prefix + [c] + suffix == [c] + suffix;
    } else {
      assert (prefix + [c] + suffix)[1..] == prefix[1..] + [c] + suffix;
      SplitAtFirst(prefix[1..], c, suffix);
      assert [prefix[0]] + prefix[1..] == prefix;
    }
  }
}
