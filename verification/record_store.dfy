/**
 * The attendance collection as the check-in and check-out handlers see it: documents
 * filed under their unique (userId, date) key, where `date` is the start of a day.
 */
module RecordStore {
  import opened Common
  import opened Calendar
  import opened AttendanceModel
  import opened StatusClassifier

  class AttendanceStore {
    /** The collection, indexed by the unique `{ userId, date }` key. */
    var records: map<(UserId, Time), Record>

    /** Every document is filed under its own key, and that key's date is a day start. */
    ghost predicate Valid()
      reads this
    {
      && KeyedByOwnKey(records)
      && forall k :: k in records ==> StartOfDay(k.1) == k.1
    }

    constructor ()
      ensures Valid() && records == map[]
    {
      records := map[];
    }

    /** `Attendance.findOne({ userId, date })`. */
    function Lookup(user: UserId, date: Time): (r: Option<Record>)
      reads this
      ensures r.Some? <==> (user, date) in records
      ensures r.Some? ==> r.value == records[(user, date)]
    {
      if (user, date) in records then Some(records[(user, date)]) else None
    }

    /**
     * `checkIn`: refuse when today's document already has a check-in; otherwise
     * update it, or create it for the start of today, and save it.
     */
    method CheckIn(user: UserId, now: Time) returns (r: Result<Record, StoreError>)
      requires Valid()
      modifies this
      ensures Valid()
      ensures r == CheckInOutcome(old(Lookup(user, StartOfDay(now))), user, now)
      ensures r.Ok? ==> records == old(records)[(user, StartOfDay(now)) := r.value]
      ensures r.Err? ==> records == old(records)
    {
      var today := StartOfDay(now);
      var key := (user, today);
      if key in records && records[key].checkInTime.Some? {
        return Err(AlreadyCheckedIn);
      }
      var status := DetermineStatus(now);
      var doc: Record;
      if key in records {
        doc := records[key];
        doc := doc.(checkInTime := Some(now));
        doc := doc.(status := status);
      } else {
        doc := Record(user, today, Some(now), None, status, 0);
      }
      doc := PreSave(doc);
      records := records[key := doc];
      r := Ok(doc);
    }

    /**
     * `checkOut`: refuse when there is no document for today or it already has a
     * check-out; otherwise record the check-out, the hours and the half-day downgrade.
     */
    method CheckOut(user: UserId, now: Time) returns (r: Result<Record, StoreError>)
      requires Valid()
      modifies this
      ensures Valid()
      ensures r == CheckOutOutcome(old(Lookup(user, StartOfDay(now))), now)
      ensures r.Ok? ==> records == old(records)[(user, StartOfDay(now)) := r.value]
      ensures r.Err? ==> records == old(records)
    {
      var today := StartOfDay(now);
      var key := (user, today);
      if key !in records {
        return Err(NoCheckInRecord);
      }
      var doc := records[key];
      if doc.checkOutTime.Some? {
        return Err(AlreadyCheckedOut);
      }
      doc := doc.(checkOutTime := Some(now));
      var diffMs := now - CheckInMs(doc);
      var totalHours := RoundedHours(diffMs);
      doc := doc.(totalHours := totalHours);
      if totalHours < HalfDayThreshold {
        doc := doc.(status := HalfDay);
      }
      doc := PreSave(doc);
      records := records[key := doc];
      r := Ok(doc);
    }

    /** `getTodayStatus`: today's document for `user`, or none; never an error. */
    method TodayStatus(user: UserId, now: Time) returns (r: Option<Record>)
      requires Valid()
      ensures r.Some? <==> (user, StartOfDay(now)) in records
      ensures r.Some? ==> r.value.userId == user && r.value.date == StartOfDay(now)
      ensures r.Some? ==> r.value in records.Values
    {
      var key := (user, StartOfDay(now));
      r := if key in records then Some(records[key]) else None;
    }
  }

  /** Two check-ins by one user on one day: the second is refused and changes nothing. */
  method CheckInTwice(store: AttendanceStore, user: UserId, first: Time, second: Time)
    returns (r1: Result<Record, StoreError>, r2: Result<Record, StoreError>)
    requires store.Valid()
    requires DayOf(first) == DayOf(second)
    modifies store
    ensures store.Valid()
    ensures old(store.Lookup(user, StartOfDay(first))).None? ==> r1.Ok?
    ensures r2 == Err(AlreadyCheckedIn)
    ensures r1.Ok? ==> store.records == old(store.records)[(user, StartOfDay(first)) := r1.value]
  {
    r1 := store.CheckIn(user, first);
    r2 := store.CheckIn(user, second);
  }

  /** A check-out on a day with no document is refused and changes nothing. */
  method CheckOutFirst(store: AttendanceStore, user: UserId, now: Time)
    returns (r: Result<Record, StoreError>)
    requires store.Valid()
    requires store.Lookup(user, StartOfDay(now)).None?
    modifies store
    ensures store.Valid()
    ensures r == Err(NoCheckInRecord) && store.records == old(store.records)
  {
    r := store.CheckOut(user, now);
  }
}
