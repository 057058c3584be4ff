/**
 * The attendance document: its fields and defaults, the status enumeration, the
 * unique (userId, date) key and the pre-save hook that derives `totalHours`.
 *
 * Hours are kept as integer hundredths of an hour (the two decimals the source keeps
 * after `toFixed(2)`), rounded half up from the millisecond difference.
 */
module AttendanceModel {
  import opened Common
  import opened Calendar

  /** A user's immutable identifier (the document id of the user). */
  type UserId = nat

  /** The four values the schema's `status` enum admits. */
  datatype Status = Present | Absent | Late | HalfDay

  /** The string stored in the document for each status. */
  function StatusName(s: Status): string {
    match s
    case Present => "present"
    case Absent => "absent"
    case Late => "late"
    case HalfDay => "half-day"
  }

  /** Enum validation: the status a stored string stands for, if any. */
  function ParseStatus(name: string): (r: Option<Status>)
    ensures r.Some? ==> StatusName(r.value) == name
  {
    if name == "present" then Some(Present)
    else if name == "absent" then Some(Absent)
    else if name == "late" then Some(Late)
    else if name == "half-day" then Some(HalfDay)
    else None
  }

  /** Every status is stored under a name that validation maps back to it. */
  lemma StatusNameRoundTrip(s: Status)
    ensures ParseStatus(StatusName(s)) == Some(s)
  {
  }

  /** Distinct statuses are stored under distinct names. */
  lemma StatusNameInjective(s: Status, t: Status)
    requires StatusName(s) == StatusName(t)
    ensures s == t
  {
    StatusNameRoundTrip(s);
    StatusNameRoundTrip(t);
  }

  /**
   * One attendance document. `date` is the start of the calendar day it is for;
   * `totalHours` is in hundredths of an hour.
   */
  datatype Record = Record(
    userId: UserId,
    date: Time,
    checkInTime: Option<Time>,
    checkOutTime: Option<Time>,
    status: Status,
    totalHours: int)
  {
    /** The unique index `{ userId: 1, date: 1 }`. */
    function Key(): (UserId, Time) {
      (userId, date)
    }
  }

  /** The two roles a user can have. */
  datatype Role = EmployeeRole | ManagerRole

  /**
   * The user fields the handlers read through `populate` and `User.find`
   * (the user model itself is not part of this model).
   */
  datatype User = User(id: UserId, name: string, employeeCode: string, department: string, role: Role)

  /** A document with its `userId` populated: the record and the user it belongs to. */
  datatype Entry = Entry(record: Record, user: User)

  /** The documents of a populated query result, in order. */
  function Records(es: seq<Entry>): (rs: seq<Record>)
    ensures |rs| == |es|
    ensures forall i :: 0 <= i < |es| ==> rs[i] == es[i].record
  {
    seq(|es|, i requires 0 <= i < |es| => es[i].record)
  }

  /** Listing one more document appends its record. */
  lemma RecordsSnoc(es: seq<Entry>, e: Entry)
    ensures Records(es + [e]) == Records(es) + [e.record]
  {
  }

  /** Every entry's populated user is the one its document refers to. */
  predicate Populated(es: seq<Entry>) {
    forall i :: 0 <= i < |es| ==> es[i].user.id == es[i].record.userId
  }

  /** A document created with only its two required fields: every other field takes its default. */
  function NewRecord(userId: UserId, date: Time): (r: Record)
    ensures r.Key() == (userId, date)
    ensures r.checkInTime == None && r.checkOutTime == None
    ensures r.status == Present && r.totalHours == 0
  {
    Record(userId, date, None, None, Present, 0)
  }

  /** One hundredth of an hour, in milliseconds. */
  const HundredthMs: int := HourMs / 100

  /**
   * `parseFloat((diffMs / (1000 * 60 * 60)).toFixed(2))`, as hundredths of an hour:
   * the nearest hundredth, a tie rounded up.
   */
  function RoundedHours(diffMs: int): (h: int)
    ensures h * HundredthMs - HundredthMs / 2 <= diffMs < h * HundredthMs + HundredthMs / 2
  {
    (diffMs + HundredthMs / 2) / HundredthMs
  }

  /** Rounding never moves a whole number of hundredths, and it is monotone. */
  lemma RoundedHoursExact(h: int)
    ensures RoundedHours(h * HundredthMs) == h
  {
    assert HundredthMs == 36000;
    assert h * 36000 + 18000 == h * 36000 + 18000;
    assert (h * 36000 + 18000) / 36000 == h;
  }

  lemma RoundedHoursMonotone(a: int, b: int)
    requires a <= b
    ensures RoundedHours(a) <= RoundedHours(b)
  {
  }

  /** The hook's condition: both times are set. */
  predicate HasBothTimes(r: Record) {
    r.checkInTime.Some? && r.checkOutTime.Some?
  }

  /** The pre-save hook: with both times present, `totalHours` is recomputed; otherwise it is left alone. */
  function PreSave(r: Record): (r': Record)
    ensures r'.Key() == r.Key() && r'.status == r.status
    ensures r'.checkInTime == r.checkInTime && r'.checkOutTime == r.checkOutTime
    ensures HasBothTimes(r) ==>
      r'.totalHours == RoundedHours(r.checkOutTime.value - r.checkInTime.value)
    ensures !HasBothTimes(r) ==> r' == r
  {
    if r.checkInTime.Some? && r.checkOutTime.Some? then
      r.(totalHours := RoundedHours(r.checkOutTime.value - r.checkInTime.value))
    else
      r
  }

  /** Saving twice stores the same document as saving once. */
  lemma PreSaveIdempotent(r: Record)
    ensures PreSave(PreSave(r)) == PreSave(r)
  {
  }

  /** At most one document per (userId, date) among the listed documents. */
  predicate UniqueKeys(rs: seq<Record>) {
    forall i, j :: 0 <= i < j < |rs| ==> rs[i].Key() != rs[j].Key()
  }

  /** A store whose every entry is filed under its own key. */
  predicate KeyedByOwnKey(m: map<(UserId, Time), Record>) {
    forall k :: k in m ==> m[k].Key() == k
  }

  /**
   * The unique index in terms of the collection: any listing of a keyed store
   * that names no document twice has unique keys.
   */
  lemma ListingHasUniqueKeys(m: map<(UserId, Time), Record>, rs: seq<Record>)
    requires KeyedByOwnKey(m)
    requires forall i :: 0 <= i < |rs| ==> rs[i] in m.Values
    requires forall i, j :: 0 <= i < j < |rs| ==> rs[i] != rs[j]
    ensures UniqueKeys(rs)
  {
    forall i, j | 0 <= i < j < |rs|
      ensures rs[i].Key() != rs[j].Key()
    {
      assert rs[i] in m.Values && rs[j] in m.Values;
      var ki :| ki in m && m[ki] == rs[i];
      var kj :| kj in m && m[kj] == rs[j];
      assert ki == rs[i].Key() && kj == rs[j].Key();
    }
  }
}
