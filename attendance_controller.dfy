/** The controller variant of punching and of the admin fix: a weekend gate
    before anything else, a 10:00 shift start, WFO/WFH decided by the
    distance to the office, no guard against a second clock-out, and an
    admin fix that sets only the status. */
module AttendanceController {
  import opened AttendanceModel
  import Shift

  /** SHIFT_START '10:00', as an offset from local midnight. */
  const ShiftStart: int := Shift.AtHour(10, 0)

  const OfficeLat: real := 40.7580
  const OfficeLng: real := -73.9855
  const MaxDistanceKm: real := 0.5

  /** The great-circle distance in km between (lat1, lng1) and (lat2, lng2);
      the model leaves it uninterpreted. */
  type Distance = (real, real, real, real) -> real

  /** WEEKENDS = [0, 6]: Sunday and Saturday. */
  predicate IsWeekend(weekday: int)
  {
    weekday == 0 || weekday == 6
  }

  datatype Reply = ClockedIn(workMode: string) | ClockedOut(workedMillis: int) | StatusUpdated

  /** WFO when both coordinates are truthy and within MaxDistanceKm of the office, WFH otherwise. */
  function WorkMode(lat: Option<real>, lng: Option<real>, distance: Distance): (m: string)
    ensures m == "WFO" <==>
      Truthy(lat) && Truthy(lng) && distance(lat.value, lng.value, OfficeLat, OfficeLng) <= MaxDistanceKm
    ensures m != "WFO" ==> m == "WFH"
  {
    if Truthy(lat) && Truthy(lng) && distance(lat.value, lng.value, OfficeLat, OfficeLng) <= MaxDistanceKm
    then "WFO" else "WFH"
  }

  /** The record a clock-in creates: no proof image is stored by this variant. */
  function ClockInRecord(req: PunchRequest, clock: Clock, distance: Distance): (r: AttendanceRecord)
    ensures HasKey(r, req.userId, clock.today)
    ensures r.clockInTime == Some(clock.now)
    ensures r.clockOutTime.None? && r.clockInImage.None? && r.clockOutImage.None?
    ensures r.status == Late <==> clock.now > clock.midnight + ShiftStart
    ensures r.status != Late ==> r.status == Present && r.lateMinutes == 0
    ensures r.status == Late ==>
      0 <= r.lateMinutes * Shift.MinuteMillis <= clock.now - (clock.midnight + ShiftStart)
        < (r.lateMinutes + 1) * Shift.MinuteMillis
    ensures r.workMode == WorkMode(req.lat, req.lng, distance)
    ensures r.location == Location(req.lat, req.lng)
    ensures r.regularization == NoRegularization
  {
    var c := Shift.Classify(clock.now, clock.midnight + ShiftStart);
    NewRecord(req.userId, clock.today).(
      clockInTime := Some(clock.now),
      status := c.status,
      lateMinutes := c.lateMinutes,
      workMode := WorkMode(req.lat, req.lng, distance),
      location := Location(req.lat, req.lng))
  }

  /** The worked time reported on clock-out, in milliseconds. A record without
      a clock-in is measured from the clock-out instant itself. */
  function WorkedMillis(r: AttendanceRecord, now: Time): (d: int)
    ensures r.clockInTime.Some? ==> d + r.clockInTime.value == now
    ensures r.clockInTime.Some? && r.clockInTime.value <= now ==> d >= 0
    ensures r.clockInTime.None? ==> d == 0
  {
    match r.clockInTime
    case Some(start) => now - start
    case None => 0
  }

  /** markAttendance. A `type` that is neither clock-in nor clock-out gets no
      response at all. */
  function MarkAttendance(t: seq<AttendanceRecord>, req: PunchRequest, clock: Clock, distance: Distance)
    : (res: (Result<Reply>, seq<AttendanceRecord>))
    ensures res.0.Err? ==> res.1 == t
    ensures res.0.Ok? <==>
      && !IsWeekend(clock.weekday)
      && ((req.kind == "clock-in" && FindOne(t, req.userId, clock.today).None?
             && req.userId != "" && clock.today != "")
          || (req.kind == "clock-out" && FindOne(t, req.userId, clock.today).Some?))
    ensures IsWeekend(clock.weekday) ==> res.0 == Err(WeekendHoliday)
    ensures res.0 == Err(WeekendHoliday) ==> IsWeekend(clock.weekday)
    ensures !IsWeekend(clock.weekday) ==>
      && (res.0 == Err(NoResponse) <==> req.kind != "clock-in" && req.kind != "clock-out")
      && (res.0 == Err(AlreadyClockedIn) <==>
            req.kind == "clock-in" && FindOne(t, req.userId, clock.today).Some?)
      && (res.0 == Err(MustClockInFirst) <==>
            req.kind == "clock-out" && FindOne(t, req.userId, clock.today).None?)
      && (res.0 == Err(ValidationFailed) <==>
            req.kind == "clock-in" && FindOne(t, req.userId, clock.today).None?
              && (req.userId == "" || clock.today == ""))
    ensures res.0 != Err(AlreadyClockedOut)
    ensures res.0.Ok? && req.kind == "clock-in" ==>
      && res.0.value == ClockedIn(WorkMode(req.lat, req.lng, distance))
      && res.1 == t + [ClockInRecord(req, clock, distance)]
    ensures res.0.Ok? && req.kind != "clock-in" ==>
      var k := FindOne(t, req.userId, clock.today).value;
      && k < |t| == |res.1|
      && (forall i :: 0 <= i < |t| && i != k ==> res.1[i] == t[i])
      && res.1[k] == t[k].(clockOutTime := Some(clock.now))
      && res.0.value == ClockedOut(WorkedMillis(t[k], clock.now))
  {
    if IsWeekend(clock.weekday) then (Err(WeekendHoliday), t)
    else
      var found := FindOne(t, req.userId, clock.today);
      if req.kind == "clock-in" then
        if found.Some? then (Err(AlreadyClockedIn), t)
        else
          var r := ClockInRecord(req, clock, distance);
          if !Required(r) then (Err(ValidationFailed), t)
          else (Ok(ClockedIn(r.workMode)), t + [r])
      else if req.kind == "clock-out" then
        if found.None? then (Err(MustClockInFirst), t)
        else
          var k := found.value;
          (Ok(ClockedOut(WorkedMillis(t[k], clock.now))), t[k := t[k].(clockOutTime := Some(clock.now))])
      else (Err(NoResponse), t)
  }

  /** regularizeAttendance: the admin fix sets the status and nothing else;
      a status outside the enumeration fails validation when saved. */
  function RegularizeAttendance(t: seq<AttendanceRecord>, recordId: nat, newStatus: string)
    : (res: (Result<Reply>, seq<AttendanceRecord>))
    ensures res.0.Err? ==> res.1 == t
    ensures res.0.Ok? <==> recordId < |t| && StatusFromLabel(newStatus).Some?
    ensures res.0 == Err(RecordNotFound) <==> recordId >= |t|
    ensures res.0 == Err(ValidationFailed) <==> recordId < |t| && StatusFromLabel(newStatus).None?
    ensures res.0.Ok? ==>
      && res.0.value == StatusUpdated
      && recordId < |t| == |res.1|
      && (forall i :: 0 <= i < |t| && i != recordId ==> res.1[i] == t[i])
      && res.1[recordId] == t[recordId].(status := res.1[recordId].status)
      && res.1[recordId].status.Label() == newStatus
  {
    if recordId >= |t| then (Err(RecordNotFound), t)
    else
      match StatusFromLabel(newStatus)
      case None => (Err(ValidationFailed), t)
      case Some(status) => (Ok(StatusUpdated), t[recordId := t[recordId].(status := status)])
  }

  lemma MarkAttendanceKeepsValid(t: seq<AttendanceRecord>, req: PunchRequest, clock: Clock, distance: Distance)
    requires TableValid(t)
    ensures TableValid(MarkAttendance(t, req, clock, distance).1)
  {
  }

  lemma RegularizeAttendanceKeepsValid(t: seq<AttendanceRecord>, recordId: nat, newStatus: string)
    requires TableValid(t)
    ensures TableValid(RegularizeAttendance(t, recordId, newStatus).1)
  {
  }

  /** A second clock-out on the same day is accepted and moves the clock-out
      time to the later punch; the clock-in is untouched. */
  lemma SecondClockOutOverwrites(t: seq<AttendanceRecord>, req: PunchRequest, c1: Clock, c2: Clock, distance: Distance)
    requires TableValid(t)
    requires req.kind == "clock-out" && c2.today == c1.today && !IsWeekend(c2.weekday)
    requires MarkAttendance(t, req, c1, distance).0.Ok?
    ensures var t1 := MarkAttendance(t, req, c1, distance).1;
            var k := FindOne(t, req.userId, c1.today).value;
            var res := MarkAttendance(t1, req, c2, distance);
            && res.0.Ok?
            && res.1[k].clockOutTime == Some(c2.now)
            && res.1[k].clockInTime == t[k].clockInTime
  {
  }

  /** On a weekday, the first clock-in at 10:15 with a user and a date is
      accepted and stored as 15 minutes late. */
  lemma WeekdayClockInAtQuarterPastTen(t: seq<AttendanceRecord>, req: PunchRequest, clock: Clock, distance: Distance)
    requires !IsWeekend(clock.weekday)
    requires req.kind == "clock-in" && req.userId != "" && clock.today != ""
    requires FindOne(t, req.userId, clock.today).None?
    requires clock.now == clock.midnight + Shift.AtHour(10, 15)
    ensures var res := MarkAttendance(t, req, clock, distance);
            && res.0 == Ok(ClockedIn(WorkMode(req.lat, req.lng, distance)))
            && |res.1| == |t| + 1
            && res.1[|t|].status == Late && res.1[|t|].lateMinutes == 15
  {
  }

  /** The admin fix on a record with a pending request leaves the request
      pending and the clock times as they were. */
  lemma FixLeavesRequestPending(t: seq<AttendanceRecord>, recordId: nat, newStatus: string)
    requires recordId < |t| && t[recordId].regularization.state == Pending
    requires RegularizeAttendance(t, recordId, newStatus).0.Ok?
    ensures var r := RegularizeAttendance(t, recordId, newStatus).1[recordId];
            && r.regularization.state == Pending
            && r.clockInTime == t[recordId].clockInTime
            && r.clockOutTime == t[recordId].clockOutTime
  {
  }

  /** The class holding the collection for this variant's handlers. */
  class AttendanceStore {
    var records: seq<AttendanceRecord>

    ghost predicate Valid()
      reads this
    {
      TableValid(records)
    }

    constructor ()
      ensures Valid() && records == []
    {
      records := [];
    }

    method HandleMarkAttendance(req: PunchRequest, clock: Clock, distance: Distance) returns (reply: Result<Reply>)
      requires Valid()
      modifies this
      ensures Valid()
      ensures (reply, records) == MarkAttendance(old(records), req, clock, distance)
    {
      MarkAttendanceKeepsValid(records, req, clock, distance);
      if IsWeekend(clock.weekday) {
        return Err(WeekendHoliday);
      }
      var workMode := WorkMode(req.lat, req.lng, distance);
      var found := FindOne(records, req.userId, clock.today);
      if req.kind == "clock-in" {
        if found.Some? {
          return Err(AlreadyClockedIn);
        }
        var c := Shift.Classify(clock.now, clock.midnight + ShiftStart);
        var record := NewRecord(req.userId, clock.today);
        record := record.(clockInTime := Some(clock.now), status := c.status, lateMinutes := c.lateMinutes);
        record := record.(workMode := workMode, location := Location(req.lat, req.lng));
        if !Required(record) {
          return Err(ValidationFailed);
        }
        records := records + [record];
        reply := Ok(ClockedIn(workMode));
      } else if req.kind == "clock-out" {
        if found.None? {
          return Err(MustClockInFirst);
        }
        var k := found.value;
        var record := records[k].(clockOutTime := Some(clock.now));
        var worked := WorkedMillis(records[k], clock.now);
        records := records[k := record];
        reply := Ok(ClockedOut(worked));
      } else {
        reply := Err(NoResponse);
      }
    }

    method HandleRegularizeAttendance(recordId: nat, newStatus: string) returns (reply: Result<Reply>)
      requires Valid()
      modifies this
      ensures Valid()
      ensures (reply, records) == RegularizeAttendance(old(records), recordId, newStatus)
    {
      RegularizeAttendanceKeepsValid(records, recordId, newStatus);
      if recordId >= |records| {
        return Err(RecordNotFound);
      }
      match StatusFromLabel(newStatus)
      case None =>
        reply := Err(ValidationFailed);
      case Some(status) =>
        records := records[recordId := records[recordId].(status := status)];
        reply := Ok(StatusUpdated);
    }
  }
}
