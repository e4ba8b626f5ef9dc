/** The live routes of the backend server: punching in and out, the
    employee's regularization request, the admin edit that auto-approves a
    pending request, and the uniqueness guard of registration.

    Each route is a pure function from the stored collection (and the
    request) to the reply and the new collection; the classes at the end
    hold the collections and update them in place, and are proved to do
    what the functions say. */
module ServerRoutes {
  import opened AttendanceModel
  import Shift

  /** A clock-in after 09:30:00.000 local time is late. */
  const LateAfter: int := Shift.AtHour(9, 30)

  /** What a route answers when it accepts a request. */
  datatype Reply = ClockedIn(status: Status) | ClockedOut | RequestSent | RecordUpdated | Registered

  /** Office when both coordinates are truthy, Remote otherwise. */
  function WorkMode(lat: Option<real>, lng: Option<real>): (m: string)
    ensures m == "Office" <==> Truthy(lat) && Truthy(lng)
    ensures m != "Office" ==> m == "Remote"
  {
    if Truthy(lat) && Truthy(lng) then "Office" else "Remote"
  }

  /** The record a clock-in creates. */
  function ClockInRecord(req: PunchRequest, clock: Clock): (r: AttendanceRecord)
    ensures HasKey(r, req.userId, clock.today)
    ensures r.clockInTime == Some(clock.now) && r.clockInImage == req.image
    ensures r.clockOutTime.None? && r.clockOutImage.None?
    ensures r.status == Late <==> clock.now > clock.midnight + LateAfter
    ensures r.status != Late ==> r.status == Present && r.lateMinutes == 0
    ensures r.status == Late ==>
      0 <= r.lateMinutes * Shift.MinuteMillis <= clock.now - (clock.midnight + LateAfter)
        < (r.lateMinutes + 1) * Shift.MinuteMillis
    ensures r.workMode == "Office" <==> Truthy(req.lat) && Truthy(req.lng)
    ensures r.workMode != "Office" ==> r.workMode == "Remote"
    ensures r.location == Location(req.lat, req.lng)
    ensures r.regularization == NoRegularization
  {
    var c := Shift.Classify(clock.now, clock.midnight + LateAfter);
    NewRecord(req.userId, clock.today).(
      clockInTime := Some(clock.now),
      clockInImage := req.image,
      status := c.status,
      lateMinutes := c.lateMinutes,
      workMode := WorkMode(req.lat, req.lng),
      location := Location(req.lat, req.lng))
  }

  /** `after` is `before` with at most the clock-out fields changed. */
  predicate OnlyClockOutChanged(before: AttendanceRecord, after: AttendanceRecord)
  {
    after == before.(clockOutTime := after.clockOutTime, clockOutImage := after.clockOutImage)
  }

  /** `after` is `before` with at most the embedded request changed. */
  predicate OnlyRegularizationChanged(before: AttendanceRecord, after: AttendanceRecord)
  {
    after == before.(regularization := after.regularization)
  }

  /** `t'` is `t` with at most the record at index `k` changed. */
  predicate ChangedOnlyAt(t: seq<AttendanceRecord>, t': seq<AttendanceRecord>, k: nat)
  {
    k < |t| == |t'| && forall i :: 0 <= i < |t| && i != k ==> t'[i] == t[i]
  }

  /** POST /api/attendance: a clock-in or a clock-out for today. */
  function Punch(t: seq<AttendanceRecord>, req: PunchRequest, clock: Clock)
    : (res: (Result<Reply>, seq<AttendanceRecord>))
    ensures res.0.Err? ==> res.1 == t
    ensures res.0.Ok? <==>
      || (req.kind == "clock-in" && FindOne(t, req.userId, clock.today).None?
            && req.userId != "" && clock.today != "")
      || (req.kind == "clock-out" && FindOne(t, req.userId, clock.today).Some?
            && t[FindOne(t, req.userId, clock.today).value].clockOutTime.None?)
    ensures res.0 == Err(InvalidActionType) <==> req.kind != "clock-in" && req.kind != "clock-out"
    ensures res.0 == Err(AlreadyClockedIn) <==>
      req.kind == "clock-in" && FindOne(t, req.userId, clock.today).Some?
    ensures res.0 == Err(ValidationFailed) <==>
      req.kind == "clock-in" && FindOne(t, req.userId, clock.today).None?
        && (req.userId == "" || clock.today == "")
    ensures res.0 == Err(MustClockInFirst) <==>
      req.kind == "clock-out" && FindOne(t, req.userId, clock.today).None?
    ensures res.0 == Err(AlreadyClockedOut) <==>
      req.kind == "clock-out" && FindOne(t, req.userId, clock.today).Some?
        && t[FindOne(t, req.userId, clock.today).value].clockOutTime.Some?
    ensures res.0.Ok? && req.kind == "clock-in" ==>
      res.0.value == ClockedIn(ClockInRecord(req, clock).status)
        && res.1 == t + [ClockInRecord(req, clock)]
    ensures res.0.Ok? && req.kind != "clock-in" ==>
      var k := FindOne(t, req.userId, clock.today).value;
      && res.0.value == ClockedOut
      && ChangedOnlyAt(t, res.1, k)
      && OnlyClockOutChanged(t[k], res.1[k])
      && res.1[k].clockOutTime == Some(clock.now)
      && res.1[k].clockOutImage == req.image
  {
    var found := FindOne(t, req.userId, clock.today);
    if req.kind == "clock-in" then
      if found.Some? then (Err(AlreadyClockedIn), t)
      else
        var r := ClockInRecord(req, clock);
        if !Required(r) then (Err(ValidationFailed), t)
        else (Ok(ClockedIn(r.status)), t + [r])
    else if req.kind == "clock-out" then
      if found.None? then (Err(MustClockInFirst), t)
      else if t[found.value].clockOutTime.Some? then (Err(AlreadyClockedOut), t)
      else
        var k := found.value;
        (Ok(ClockedOut), t[k := t[k].(clockOutTime := Some(clock.now), clockOutImage := req.image)])
    else (Err(InvalidActionType), t)
  }

  /** The body of POST /api/attendance/regularize-request. */
  datatype RegularizeRequest = RegularizeRequest(
    userId: UserId,
    date: DateKey,
    reason: string,
    clockIn: Option<Time>,
    clockOut: Option<Time>)

  function PendingRequest(req: RegularizeRequest): Regularization
  {
    Regularization(Pending, req.reason, req.clockIn, req.clockOut)
  }

  /** POST /api/attendance/regularize-request: attach a pending correction to
      the record of (userId, date), creating an Absent record when there is none. */
  function RequestRegularization(t: seq<AttendanceRecord>, req: RegularizeRequest)
    : (res: (Result<Reply>, seq<AttendanceRecord>))
    ensures res.0.Err? ==> res.0 == Err(ValidationFailed) && res.1 == t
    ensures res.0.Err? <==>
      FindOne(t, req.userId, req.date).None? && (req.userId == "" || req.date == "")
    ensures res.0.Ok? ==> res.0.value == RequestSent
    ensures res.0.Ok? && FindOne(t, req.userId, req.date).None? ==>
      && |res.1| == |t| + 1 && res.1[..|t|] == t
      && HasKey(res.1[|t|], req.userId, req.date)
      && res.1[|t|].status == Absent
      && res.1[|t|].clockInTime.None? && res.1[|t|].clockOutTime.None?
      && res.1[|t|].regularization == PendingRequest(req)
      && OnlyRegularizationChanged(NewRecord(req.userId, req.date), res.1[|t|])
    ensures FindOne(t, req.userId, req.date).Some? ==>
      var k := FindOne(t, req.userId, req.date).value;
      && ChangedOnlyAt(t, res.1, k)
      && OnlyRegularizationChanged(t[k], res.1[k])
      && res.1[k].regularization == PendingRequest(req)
  {
    match FindOne(t, req.userId, req.date)
    case None =>
      var r := NewRecord(req.userId, req.date).(status := Absent, regularization := PendingRequest(req));
      if !Required(r) then (Err(ValidationFailed), t)
      else (Ok(RequestSent), t + [r])
    case Some(k) =>
      (Ok(RequestSent), t[k := t[k].(regularization := PendingRequest(req))])
  }

  /** The body of PUT /api/attendance/regularize; "" stands for a missing field. */
  datatype AdminEdit = AdminEdit(recordId: nat, newStatus: string, newWorkMode: string)

  /** The new status of an admin edit, once the enum validator accepted it. */
  function EditedStatus(r: AttendanceRecord, edit: AdminEdit): Status
    requires edit.newStatus == "" || StatusFromLabel(edit.newStatus).Some?
  {
    if edit.newStatus != "" then StatusFromLabel(edit.newStatus).value else r.status
  }

  /** The record after an accepted admin edit. */
  function Edited(r: AttendanceRecord, edit: AdminEdit): (e: AttendanceRecord)
    requires edit.newStatus == "" || StatusFromLabel(edit.newStatus).Some?
    ensures e == r.(status := e.status, workMode := e.workMode, clockInTime := e.clockInTime,
                    clockOutTime := e.clockOutTime, regularization := e.regularization)
    ensures edit.newStatus != "" ==> e.status.Label() == edit.newStatus
    ensures edit.newStatus == "" ==> e.status == r.status
    ensures e.workMode == if edit.newWorkMode != "" then edit.newWorkMode else r.workMode
    ensures r.regularization.state == Pending ==>
      && e.regularization == r.regularization.(state := Approved)
      && e.clockInTime == (if r.regularization.newClockIn.Some? then r.regularization.newClockIn else r.clockInTime)
      && e.clockOutTime == (if r.regularization.newClockOut.Some? then r.regularization.newClockOut else r.clockOutTime)
    ensures r.regularization.state != Pending ==>
      e.regularization == r.regularization && e.clockInTime == r.clockInTime && e.clockOutTime == r.clockOutTime
  {
    var r1 := r.(status := EditedStatus(r, edit));
    var r2 := if edit.newWorkMode != "" then r1.(workMode := edit.newWorkMode) else r1;
    var reg := r2.regularization;
    if reg.state == Pending then
      r2.(regularization := reg.(state := Approved),
          clockInTime := if reg.newClockIn.Some? then reg.newClockIn else r2.clockInTime,
          clockOutTime := if reg.newClockOut.Some? then reg.newClockOut else r2.clockOutTime)
    else r2
  }

  /** PUT /api/attendance/regularize: the admin edit. A status outside the
      enumeration fails validation when the record is saved, and nothing is stored. */
  function AdminUpdate(t: seq<AttendanceRecord>, edit: AdminEdit)
    : (res: (Result<Reply>, seq<AttendanceRecord>))
    ensures res.0.Err? ==> res.1 == t
    ensures res.0.Ok? <==>
      edit.recordId < |t| && (edit.newStatus == "" || StatusFromLabel(edit.newStatus).Some?)
    ensures res.0 == Err(RecordNotFound) <==> edit.recordId >= |t|
    ensures res.0 == Err(ValidationFailed) <==>
      edit.recordId < |t| && edit.newStatus != "" && StatusFromLabel(edit.newStatus).None?
    ensures res.0.Ok? ==>
      && res.0.value == RecordUpdated
      && ChangedOnlyAt(t, res.1, edit.recordId)
      && res.1[edit.recordId] == Edited(t[edit.recordId], edit)
  {
    if edit.recordId >= |t| then (Err(RecordNotFound), t)
    else if edit.newStatus != "" && StatusFromLabel(edit.newStatus).None? then (Err(ValidationFailed), t)
    else (Ok(RecordUpdated), t[edit.recordId := Edited(t[edit.recordId], edit)])
  }

  // ---------------------------------------------------------------------------
  // Registration

  datatype User = User(
    name: string,
    email: string,
    employeeId: string,
    password: string,
    faceDescriptor: seq<real>,
    profilePicture: string)

  /** The `$or` query of registration: same email or same employee id. */
  predicate Clashes(existing: User, candidate: User)
  {
    existing.email == candidate.email || existing.employeeId == candidate.employeeId
  }

  /** No two users share an email or an employee id. */
  predicate UsersUnique(users: seq<User>)
  {
    forall i, j :: 0 <= i < j < |users| ==> !Clashes(users[j], users[i])
  }

  /** POST /api/register. */
  function Register(users: seq<User>, candidate: User): (res: (Result<Reply>, seq<User>))
    ensures res.0.Err? <==> exists i :: 0 <= i < |users| && Clashes(users[i], candidate)
    ensures res.0.Err? ==> res.0 == Err(UserExists) && res.1 == users
    ensures res.0.Ok? ==> res.0.value == Registered && res.1 == users + [candidate]
  {
    if FindFirst(users, (u: User) => Clashes(u, candidate)).Some? then (Err(UserExists), users)
    else (Ok(Registered), users + [candidate])
  }

  // ---------------------------------------------------------------------------
  // Properties of the routes

  lemma RegisterKeepsUsersUnique(users: seq<User>, candidate: User)
    requires UsersUnique(users)
    ensures UsersUnique(Register(users, candidate).1)
  {
  }

  lemma PunchKeepsValid(t: seq<AttendanceRecord>, req: PunchRequest, clock: Clock)
    requires TableValid(t)
    ensures TableValid(Punch(t, req, clock).1)
  {
  }

  lemma RequestKeepsValid(t: seq<AttendanceRecord>, req: RegularizeRequest)
    requires TableValid(t)
    ensures TableValid(RequestRegularization(t, req).1)
  {
  }

  lemma AdminUpdateKeepsValid(t: seq<AttendanceRecord>, edit: AdminEdit)
    requires TableValid(t)
    ensures TableValid(AdminUpdate(t, edit).1)
  {
  }

  /** After a successful clock-in, a second clock-in by the same user on the
      same day is refused. */
  lemma SecondClockInRejected(t: seq<AttendanceRecord>, req: PunchRequest, clock: Clock, clock': Clock)
    requires req.kind == "clock-in" && Punch(t, req, clock).0.Ok?
    requires clock'.today == clock.today
    ensures Punch(Punch(t, req, clock).1, req, clock') == (Err(AlreadyClockedIn), Punch(t, req, clock).1)
  {
    var t' := Punch(t, req, clock).1;
    assert HasKey(t'[|t|], req.userId, clock.today);
    assert ((r: AttendanceRecord) => HasKey(r, req.userId, clock.today))(t'[|t|]);
  }

  /** Clock-in, clock-out, clock-out on one day: the first two succeed and the
      third is refused as a second clock-out, leaving the store as it was. */
  lemma ClockInThenOutTwice(t: seq<AttendanceRecord>, userId: UserId, image: Option<string>,
                            lat: Option<real>, lng: Option<real>, c1: Clock, c2: Clock, c3: Clock)
    requires TableValid(t)
    requires c2.today == c1.today && c3.today == c1.today
    requires Punch(t, PunchRequest(userId, "clock-in", lat, lng, image), c1).0.Ok?
    ensures var t1 := Punch(t, PunchRequest(userId, "clock-in", lat, lng, image), c1).1;
            var r2 := Punch(t1, PunchRequest(userId, "clock-out", lat, lng, image), c2);
            && r2.0 == Ok(ClockedOut)
            && r2.1[|t|].clockInTime == Some(c1.now)
            && r2.1[|t|].clockOutTime == Some(c2.now)
            && Punch(r2.1, PunchRequest(userId, "clock-out", lat, lng, image), c3) == (Err(AlreadyClockedOut), r2.1)
  {
    var t1 := Punch(t, PunchRequest(userId, "clock-in", lat, lng, image), c1).1;
    PunchKeepsValid(t, PunchRequest(userId, "clock-in", lat, lng, image), c1);
    FindOneFindsOwnKey(t1, |t|);
    var t2 := Punch(t1, PunchRequest(userId, "clock-out", lat, lng, image), c2).1;
    PunchKeepsValid(t1, PunchRequest(userId, "clock-out", lat, lng, image), c2);
    FindOneFindsOwnKey(t2, |t|);
  }

  /** The first clock-in of a day, with a user and a date, is accepted: after
      09:30 it is stored as Late by the whole minutes elapsed, otherwise as
      Present. */
  lemma FirstClockInAccepted(t: seq<AttendanceRecord>, req: PunchRequest, clock: Clock)
    requires req.kind == "clock-in" && req.userId != "" && clock.today != ""
    requires FindOne(t, req.userId, clock.today).None?
    ensures var res := Punch(t, req, clock);
            && |res.1| == |t| + 1
            && res.0 == Ok(ClockedIn(res.1[|t|].status))
            && (res.1[|t|].status == Late <==> clock.now > clock.midnight + LateAfter)
            && (clock.now >= clock.midnight + LateAfter + 15 * Shift.MinuteMillis ==> res.1[|t|].lateMinutes >= 15)
  {
  }

  /** A regularization request for today, sent before clocking in, makes the
      day's clock-in fail as a duplicate. */
  lemma RequestBlocksClockIn(t: seq<AttendanceRecord>, rq: RegularizeRequest, req: PunchRequest, clock: Clock)
    requires TableValid(t)
    requires RequestRegularization(t, rq).0.Ok?
    requires req.kind == "clock-in" && req.userId == rq.userId && clock.today == rq.date
    ensures var t' := RequestRegularization(t, rq).1;
            Punch(t', req, clock) == (Err(AlreadyClockedIn), t')
  {
  }

  /** The Absent record a regularization request creates has no clock-in, yet
      the day's clock-out is accepted on it: the route checks only that a
      record exists. */
  lemma ClockOutAcceptedWithoutClockIn(t: seq<AttendanceRecord>, rq: RegularizeRequest, req: PunchRequest, clock: Clock)
    requires TableValid(t)
    requires FindOne(t, rq.userId, rq.date).None? && RequestRegularization(t, rq).0.Ok?
    requires req.kind == "clock-out" && req.userId == rq.userId && clock.today == rq.date
    ensures var t' := RequestRegularization(t, rq).1;
            var res := Punch(t', req, clock);
            && res.0 == Ok(ClockedOut)
            && res.1[|t|].clockInTime.None? && res.1[|t|].clockOutTime == Some(clock.now)
  {
  }

  /** Sending the same regularization request twice stores what sending it once does. */
  lemma RequestIdempotent(t: seq<AttendanceRecord>, rq: RegularizeRequest)
    requires TableValid(t)
    requires RequestRegularization(t, rq).0.Ok?
    ensures var t' := RequestRegularization(t, rq).1;
            RequestRegularization(t', rq) == (Ok(RequestSent), t')
  {
    var t' := RequestRegularization(t, rq).1;
    RequestKeepsValid(t, rq);
    var k := if FindOne(t, rq.userId, rq.date).Some? then FindOne(t, rq.userId, rq.date).value else |t|;
    FindOneFindsOwnKey(t', k);
    assert t'[k := t'[k].(regularization := PendingRequest(rq))] == t';
  }

  /** Repeating an admin edit changes nothing more: the first one already
      approved any pending request. */
  lemma AdminUpdateIdempotent(t: seq<AttendanceRecord>, edit: AdminEdit)
    ensures var t' := AdminUpdate(t, edit).1;
            AdminUpdate(t', edit) == AdminUpdate(t, edit)
  {
    var res := AdminUpdate(t, edit);
    if res.0.Ok? {
      var e := res.1[edit.recordId];
      assert Edited(e, edit) == e;
      assert res.1[edit.recordId := e] == res.1;
    }
  }

  /** An employee's request followed by any accepted admin edit of that record
      approves the request and moves the proposed times into the record. */
  lemma RequestThenAdminEditApproves(t: seq<AttendanceRecord>, rq: RegularizeRequest, newStatus: string, newWorkMode: string)
    requires TableValid(t)
    requires RequestRegularization(t, rq).0.Ok?
    requires newStatus == "" || StatusFromLabel(newStatus).Some?
    ensures var t' := RequestRegularization(t, rq).1;
            var k := FindOne(t', rq.userId, rq.date).value;
            var res := AdminUpdate(t', AdminEdit(k, newStatus, newWorkMode));
            && FindOne(t', rq.userId, rq.date).Some?
            && res.0 == Ok(RecordUpdated)
            && res.1[k].regularization == Regularization(Approved, rq.reason, rq.clockIn, rq.clockOut)
            && (rq.clockIn.Some? ==> res.1[k].clockInTime == rq.clockIn)
            && (rq.clockOut.Some? ==> res.1[k].clockOutTime == rq.clockOut)
  {
  }

  // ---------------------------------------------------------------------------
  // The stored collections

  /** The attendance collection, updated in place by the route handlers. */
  class AttendanceStore {
    var records: seq<AttendanceRecord>

    ghost predicate Valid()
      reads this
    {
      TableValid(records)
    }

    constructor ()
      ensures Valid() && records == []
    {
      records := [];
    }

    method HandlePunch(req: PunchRequest, clock: Clock) returns (reply: Result<Reply>)
      requires Valid()
      modifies this
      ensures Valid()
      ensures (reply, records) == Punch(old(records), req, clock)
    {
      PunchKeepsValid(records, req, clock);
      var found := FindOne(records, req.userId, clock.today);
      if req.kind == "clock-in" {
        if found.Some? {
          return Err(AlreadyClockedIn);
        }
        var record := ClockInRecord(req, clock);
        if !Required(record) {
          return Err(ValidationFailed);
        }
        records := records + [record];
        reply := Ok(ClockedIn(record.status));
      } else if req.kind == "clock-out" {
        if found.None? {
          return Err(MustClockInFirst);
        }
        var k := found.value;
        var record := records[k];
        if record.clockOutTime.Some? {
          return Err(AlreadyClockedOut);
        }
        record := record.(clockOutTime := Some(clock.now));
        record := record.(clockOutImage := req.image);
        records := records[k := record];
        reply := Ok(ClockedOut);
      } else {
        reply := Err(InvalidActionType);
      }
    }

    method HandleRegularizeRequest(req: RegularizeRequest) returns (reply: Result<Reply>)
      requires Valid()
      modifies this
      ensures Valid()
      ensures (reply, records) == RequestRegularization(old(records), req)
    {
      RequestKeepsValid(records, req);
      var found := FindOne(records, req.userId, req.date);
      if found.None? {
        var record := NewRecord(req.userId, req.date);
        record := record.(status := Absent);
        record := record.(regularization := PendingRequest(req));
        if !Required(record) {
          return Err(ValidationFailed);
        }
        records := records + [record];
      } else {
        var k := found.value;
        records := records[k := records[k].(regularization := PendingRequest(req))];
      }
      reply := Ok(RequestSent);
    }

    method HandleAdminUpdate(edit: AdminEdit) returns (reply: Result<Reply>)
      requires Valid()
      modifies this
      ensures Valid()
      ensures (reply, records) == AdminUpdate(old(records), edit)
    {
      AdminUpdateKeepsValid(records, edit);
      if edit.recordId >= |records| {
        return Err(RecordNotFound);
      }
      var record := records[edit.recordId];
      if edit.newStatus != "" {
        match StatusFromLabel(edit.newStatus)
        case None =>
          return Err(ValidationFailed);
        case Some(status) =>
          record := record.(status := status);
      }
      if edit.newWorkMode != "" {
        record := record.(workMode := edit.newWorkMode);
      }
      if record.regularization.state == Pending {
        var reg := record.regularization;
        record := record.(regularization := reg.(state := Approved));
        if reg.newClockIn.Some? {
          record := record.(clockInTime := reg.newClockIn);
        }
        if reg.newClockOut.Some? {
          record := record.(clockOutTime := reg.newClockOut);
        }
      }
      records := records[edit.recordId := record];
      reply := Ok(RecordUpdated);
    }
  }

  /** The user collection, as far as registration touches it. */
  class UserTable {
    var users: seq<User>

    ghost predicate Valid()
      reads this
    {
      UsersUnique(users)
    }

    constructor ()
      ensures Valid() && users == []
    {
      users := [];
    }

    method HandleRegister(candidate: User) returns (reply: Result<Reply>)
      requires Valid()
      modifies this
      ensures Valid()
      ensures (reply, users) == Register(old(users), candidate)
    {
      RegisterKeepsUsersUnique(users, candidate);
      var existing := FindFirst(users, (u: User) => Clashes(u, candidate));
      if existing.Some? {
        return Err(UserExists);
      }
      users := users + [candidate];
      reply := Ok(Registered);
    }
  }
}
