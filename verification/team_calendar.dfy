/**
 * The team calendar page: the month it requests, the records of one calendar
 * day, the colour band of a day's tile and the counts shown for the selected day.
 */
module TeamCalendar {
  import opened Common
  import opened Calendar
  import opened AttendanceModel
  import opened PersonalAggregator

  /**
   * The date range the page requests for a 1-based month: from day `first` (the 1st)
   * to day `last` (the month's last day, `new Date(year, month, 0)`).
   */
  datatype MonthRequest = MonthRequest(first: int, last: int) {
    /** The range the server builds from the two dates: both at midnight. */
    function AsRange(): Range {
      Range(first * DayMs, last * DayMs)
    }
  }

  function RequestMonth(year: int, month: int): (r: MonthRequest)
    ensures r.first == MonthStart(year, month - 1)
    ensures r.last == MonthStart(year, month) - 1
    ensures r.last - r.first + 1 == LengthOfMonth(year, month - 1)
  {
    MonthLength(year, month - 1);
    MonthRequest(DayNumber(year, month - 1, 1), DayNumber(year, month, 0))
  }

  /**
   * A document dated at the start of day `d` is in the requested range exactly
   * when `d` is one of the month's days.
   */
  lemma RequestCoversMonth(year: int, month: int, d: int)
    ensures RequestMonth(year, month).AsRange().Contains(d * DayMs)
      <==> MonthStart(year, month - 1) <= d < MonthStart(year, month)
  {
    var r := RequestMonth(year, month);
    if r.first <= d {
      DayStartMonotone(r.first, d);
    } else {
      DayStartMonotone(d + 1, r.first);
    }
    if d <= r.last {
      DayStartMonotone(d, r.last);
    } else {
      DayStartMonotone(r.last + 1, d);
    }
  }

  /** The records whose date falls on calendar day `day` (`toDateString` equality). */
  function DayRecords(all: seq<Entry>, day: int): (r: seq<Entry>)
    ensures forall e :: e in r <==> e in all && DayOf(e.record.date) == day
  {
    Filter(all, (e: Entry) => DayOf(e.record.date) == day)
  }

  /** `selectedDateRecords`: the records of the day the user clicked. */
  function SelectedDateRecords(all: seq<Entry>, selectedDate: Time): (r: seq<Entry>)
    ensures forall e :: e in r <==> e in all && StartOfDay(e.record.date) == StartOfDay(selectedDate)
  {
    DayRecords(all, DayOf(selectedDate))
  }

  /** The five tile classes. */
  datatype Tile = NoData | Excellent | Good | Average | Poor

  /** Bands ordered from worst to best; a day without data ranks below every band. */
  function Rank(t: Tile): nat {
    match t
    case NoData => 0
    case Poor => 1
    case Average => 2
    case Good => 3
    case Excellent => 4
  }

  /**
   * The band of `presentCount` out of `totalCount`, comparing the percentage
   * with 90, 70 and 50 by cross-multiplication.
   */
  function Band(presentCount: nat, totalCount: nat): (t: Tile)
    ensures t == NoData <==> totalCount == 0
  {
    if totalCount == 0 then NoData
    else if presentCount * 100 >= 90 * totalCount then Excellent
    else if presentCount * 100 >= 70 * totalCount then Good
    else if presentCount * 100 >= 50 * totalCount then Average
    else Poor
  }

  /** Records counted as present on the calendar: present or late. */
  function Attending(es: seq<Entry>): nat {
    CountStatus(Records(es), Present) + CountStatus(Records(es), Late)
  }

  /** `getTileClassName` for calendar day `day`. */
  function TileClass(all: seq<Entry>, day: int): (t: Tile)
    ensures t == NoData <==> forall e :: e in all ==> DayOf(e.record.date) != day
  {
    var dayRecords := DayRecords(all, day);
    if dayRecords == [] then NoData
    else Band(Attending(dayRecords), |dayRecords|)
  }

  /**
   * Exactly one band applies to a day with records, by the percentage of its
   * records that are present or late: at least 90, at least 70, at least 50, or less.
   */
  lemma TileBands(all: seq<Entry>, day: int)
    ensures var n := |DayRecords(all, day)|;
      var pct := Attending(DayRecords(all, day)) * 100;
      && (TileClass(all, day) == Excellent <==> n > 0 && pct >= 90 * n)
      && (TileClass(all, day) == Good <==> n > 0 && 70 * n <= pct < 90 * n)
      && (TileClass(all, day) == Average <==> n > 0 && 50 * n <= pct < 70 * n)
      && (TileClass(all, day) == Poor <==> n > 0 && pct < 50 * n)
  {
  }

  /** A factor that is positive on both sides of a comparison can be cancelled. */
  lemma CancelPositive(a: int, b: int, k: int)
    requires k > 0 && a * k >= b * k
    ensures a >= b
  {
  }

  /**
   * A threshold reached by one ratio is reached by every ratio at least as large:
   * `100 * p1 >= c * t1` and `p1 / t1 <= p2 / t2` give `100 * p2 >= c * t2`.
   */
  lemma ThresholdCarries(c: nat, p1: nat, t1: nat, p2: nat, t2: nat)
    requires t1 > 0 && t2 > 0
    requires p1 * t2 <= p2 * t1
    requires p1 * 100 >= c * t1
    ensures p2 * 100 >= c * t2
  {
    assert (p1 * 100) * t2 >= (c * t1) * t2;
    assert (p2 * 100) * t1 >= (p1 * 100) * t2 by {
      assert (p2 * 100) * t1 == (p2 * t1) * 100;
      assert (p1 * 100) * t2 == (p1 * t2) * 100;
    }
    assert (c * t1) * t2 == (c * t2) * t1;
    CancelPositive(p2 * 100, c * t2, t1);
  }

  /** The bands are monotone in the ratio of present records to records. */
  lemma BandMonotone(p1: nat, t1: nat, p2: nat, t2: nat)
    requires t1 > 0 && t2 > 0
    requires p1 * t2 <= p2 * t1
    ensures Rank(Band(p1, t1)) <= Rank(Band(p2, t2))
  {
    if p1 * 100 >= 90 * t1 {
      ThresholdCarries(90, p1, t1, p2, t2);
    } else if p1 * 100 >= 70 * t1 {
      ThresholdCarries(70, p1, t1, p2, t2);
    } else if p1 * 100 >= 50 * t1 {
      ThresholdCarries(50, p1, t1, p2, t2);
    }
  }

  /** Only the ratio matters: scaling both counts by the same factor keeps the band. */
  lemma BandDependsOnRatio(p: nat, t: nat, k: nat)
    requires t > 0 && k > 0
    ensures Band(k * p, k * t) == Band(p, t)
  {
    assert (k * p) * t == p * (k * t);
    BandMonotone(p, t, k * p, k * t);
    BandMonotone(k * p, k * t, p, t);
  }

  /** The four counts shown for the selected day. */
  datatype DayCounts = DayCounts(totalEmployees: nat, present: nat, late: nat, absent: nat)

  function SelectedDayCounts(all: seq<Entry>, selectedDate: Time): (c: DayCounts)
    ensures c.present + c.late + c.absent <= c.totalEmployees
    ensures c.totalEmployees == 0 <==> forall e :: e in all ==> DayOf(e.record.date) != DayOf(selectedDate)
  {
    var rs := Records(SelectedDateRecords(all, selectedDate));
    CountStatusPartition(rs);
    DayCounts(|rs|, CountStatus(rs, Present), CountStatus(rs, Late), CountStatus(rs, Absent))
  }

  /** Half-day records are in the total but in none of the three counts. */
  lemma HalfDaysUncounted(all: seq<Entry>, selectedDate: Time)
    ensures var c := SelectedDayCounts(all, selectedDate);
      c.present + c.late + c.absent + CountStatus(Records(SelectedDateRecords(all, selectedDate)), HalfDay)
        == c.totalEmployees
  {
    CountStatusPartition(Records(SelectedDateRecords(all, selectedDate)));
  }
}
