/**
 * The rules of `checkIn` and `checkOut` on the one document a user has for a day:
 * the late-arrival classifier, the three errors and the half-day downgrade.
 *
 * Each transition is a function of the day's slot (the document `findOne` returns,
 * or none); `RecordStore` applies them to the collection.
 */
module StatusClassifier {
  import opened Common
  import opened Calendar
  import opened AttendanceModel

  /** Hundredths of an hour below which a finished day is a half day (4 hours). */
  const HalfDayThreshold: int := 400

  /** `determineStatus`: a check-in later than 9:30 (hours and minutes only) is late. */
  function DetermineStatus(checkInTime: Time): (s: Status)
    ensures s == Present || s == Late
    ensures s == Late <==> TimeOfDay(checkInTime) >= ClockReading(9, 31, 0, 0)
  {
    var hour := Hours(checkInTime);
    var minutes := Minutes(checkInTime);
    HoursMinutesBracket(checkInTime);
    if hour > 9 || (hour == 9 && minutes > 30) then Late else Present
  }

  /** Seconds are ignored: anything up to 09:30:59.999 is on time. */
  lemma LastOnTimeInstant(t: Time)
    requires TimeOfDay(t) == ClockReading(9, 30, 59, 999)
    ensures DetermineStatus(t) == Present
    ensures DetermineStatus(t + 1) == Late
  {
    DayAndTimeOfDay(DayOf(t), TimeOfDay(t) + 1);
  }

  /** The three refusals of the check-in / check-out handlers. */
  datatype StoreError = AlreadyCheckedIn | NoCheckInRecord | AlreadyCheckedOut

  /** The message each refusal is answered with; every one of them is about today. */
  function ErrorMessage(e: StoreError): (m: string)
    ensures |m| > 5 && m[|m| - 5..] == "today"
  {
    match e
    case AlreadyCheckedIn => "Already checked in today"
    case NoCheckInRecord => "No check-in record found for today"
    case AlreadyCheckedOut => "Already checked out today"
  }

  /** The three refusals can be told apart by their messages alone. */
  lemma ErrorMessageInjective(e1: StoreError, e2: StoreError)
    ensures ErrorMessage(e1) == ErrorMessage(e2) ==> e1 == e2
  {
    if e1 != e2 {
      assert ErrorMessage(e1)[..5] != ErrorMessage(e2)[..5] || |ErrorMessage(e1)| != |ErrorMessage(e2)|;
    }
  }

  /**
   * `checkIn` at instant `now` for `user`, given the document already filed for
   * (user, start of today), if any.
   */
  function CheckInOutcome(existing: Option<Record>, user: UserId, now: Time): (r: Result<Record, StoreError>)
    ensures r.Err? <==> existing.Some? && existing.value.checkInTime.Some?
    ensures r.Err? ==> r.error == AlreadyCheckedIn
    ensures r.Ok? ==> r.value.checkInTime == Some(now) && r.value.status == DetermineStatus(now)
    ensures r.Ok? && existing.None? ==>
      r.value == NewRecord(user, StartOfDay(now)).(checkInTime := Some(now), status := DetermineStatus(now))
    ensures r.Ok? && existing.Some? ==>
      && r.value.Key() == existing.value.Key()
      && r.value.checkOutTime == existing.value.checkOutTime
      && (r.value.checkOutTime.None? ==> r.value.totalHours == existing.value.totalHours)
      && (r.value.checkOutTime.Some? ==> r.value.totalHours == RoundedHours(r.value.checkOutTime.value - now))
  {
    if existing.Some? && existing.value.checkInTime.Some? then
      Err(AlreadyCheckedIn)
    else
      var status := DetermineStatus(now);
      var doc := if existing.Some? then existing.value else NewRecord(user, StartOfDay(now));
      Ok(PreSave(doc.(checkInTime := Some(now), status := status)))
  }

  /** The millisecond value `checkOutTime - checkInTime` takes in JavaScript: a missing check-in counts as 0. */
  function CheckInMs(doc: Record): Time {
    if doc.checkInTime.Some? then doc.checkInTime.value else 0
  }

  /** `checkOut` at instant `now`, given the document filed for (user, start of today), if any. */
  function CheckOutOutcome(existing: Option<Record>, now: Time): (r: Result<Record, StoreError>)
    ensures existing.None? ==> r == Err(NoCheckInRecord)
    ensures existing.Some? && existing.value.checkOutTime.Some? ==> r == Err(AlreadyCheckedOut)
    ensures r.Ok? <==> existing.Some? && existing.value.checkOutTime.None?
    ensures r.Ok? ==>
      && r.value.Key() == existing.value.Key()
      && r.value.checkInTime == existing.value.checkInTime
      && r.value.checkOutTime == Some(now)
      && r.value.totalHours == RoundedHours(now - CheckInMs(existing.value))
      && (r.value.status == HalfDay || r.value.status == existing.value.status)
      && (r.value.status == HalfDay <==>
            r.value.totalHours < HalfDayThreshold || existing.value.status == HalfDay)
  {
    if existing.None? then
      Err(NoCheckInRecord)
    else if existing.value.checkOutTime.Some? then
      Err(AlreadyCheckedOut)
    else
      var doc := existing.value.(checkOutTime := Some(now));
      var totalHours := RoundedHours(now - CheckInMs(doc));
      var doc' := doc.(totalHours := totalHours);
      var doc'' := if totalHours < HalfDayThreshold then doc'.(status := HalfDay) else doc';
      Ok(PreSave(doc''))
  }

  /**
   * The half-day rule in milliseconds: the rounded hours fall below 4 exactly when
   * the day lasted less than 3:59:42, the first duration that rounds to 4.00.
   */
  lemma HalfDayIffShort(diffMs: int)
    ensures RoundedHours(diffMs) < HalfDayThreshold <==> diffMs < 4 * HourMs - HundredthMs / 2
  {
  }

  /** What the pre-save hook stores for a checked-out document is what the handler computed. */
  lemma CheckOutSurvivesPreSave(existing: Option<Record>, now: Time)
    requires CheckOutOutcome(existing, now).Ok?
    ensures PreSave(CheckOutOutcome(existing, now).value) == CheckOutOutcome(existing, now).value
  {
  }

  /**
   * The day's lifecycle, no record -> checked in -> checked out: a second check-in
   * and a second check-out are refused, and the finished document carries both times,
   * the rounded hours and the status the two rules give.
   */
  lemma {:induction false} Lifecycle(user: UserId, inAt: Time, outAt: Time, later: Time)
    ensures var first := CheckInOutcome(None, user, inAt);
      && first.Ok?
      && first.value.Key() == (user, StartOfDay(inAt))
      && CheckInOutcome(Some(first.value), user, outAt) == Err(AlreadyCheckedIn)
      && var done := CheckOutOutcome(Some(first.value), outAt);
      && done.Ok?
      && done.value.checkInTime == Some(inAt) && done.value.checkOutTime == Some(outAt)
      && done.value.totalHours == RoundedHours(outAt - inAt)
      && done.value.status == (if RoundedHours(outAt - inAt) < HalfDayThreshold then HalfDay else DetermineStatus(inAt))
      && CheckOutOutcome(Some(done.value), later) == Err(AlreadyCheckedOut)
      && CheckInOutcome(Some(done.value), user, later) == Err(AlreadyCheckedIn)
  {
    var first := CheckInOutcome(None, user, inAt);
    assert first.value.checkInTime == Some(inAt) && first.value.checkOutTime == None;
    assert first.value.status != HalfDay;
    var done := CheckOutOutcome(Some(first.value), outAt);
    assert CheckInMs(first.value) == inAt;
  }

  /**
   * A check-out recorded with no check-in time (possible for a document written
   * without one) measures from the epoch, so its hours are the whole instant `now`.
   */
  lemma CheckOutWithoutCheckIn(doc: Record, now: Time)
    requires doc.checkInTime.None? && doc.checkOutTime.None?
    ensures CheckOutOutcome(Some(doc), now).Ok?
    ensures CheckOutOutcome(Some(doc), now).value.totalHours == RoundedHours(now)
  {
  }
}
