# Attendance-record lifecycle

A Dafny model of the attendance tracker's record store. It holds one
attendance record per (employee, day) and covers the operations that create
and change those records:

- punching in and out, with the late-arrival and work-mode rules;
- the employee's regularization (correction) request;
- the admin edit, which auto-approves a pending request;
- the uniqueness guard of user registration;
- the two calendar tile classifiers of the frontend.

The backend has two variants of punching and of the admin fix. The Express
routes in `Backend/server.js` are the live ones. `Backend/controllers/attendanceController.js`
differs: it has a weekend gate, a 10:00 shift start, WFO/WFH by distance, no
second-clock-out guard, and an admin fix that only sets the status. The two
are modelled separately, in `ServerRoutes` and `AttendanceController`.

Layout:

- `attendance_model.dfy` (`AttendanceModel`): the schema of `Backend/models/Attendance.js`.
  It holds the status and request enumerations, the defaults and the required validators,
  and `FindFirst`, the first-match lookup behind `findOne` and `Array.find`. It also holds
  the invariant of the stored collection: at most one record per (userId, date), and
  every record passed the required validators.
- `shift.dfy` (`Shift`): on-time/late classification against a shift start.
- `server_routes.dfy` (`ServerRoutes`): each route is a pure function from the collection
  and the request to the reply and the new collection. The classes `AttendanceStore` and
  `UserTable` hold the collections. Their handler methods update them in place. Each
  handler is proved to keep the invariant and to produce exactly what the function says.
- `attendance_controller.dfy` (`AttendanceController`): the controller variant, in the same shape.
- `calendar_view.dfy`, `calendar_vie.dfy`: the two `tileClassName` functions.
  `CalendarView.jsx` is the one the user dashboard imports.

Conventions:

- Instants are integer milliseconds.
- The clock is an input (`Clock`): the current instant, the date string the record is
  filed under, the local midnight of that day and the day of the week.
- A request field that is missing is written `""`. It takes the same falsy branch in the
  handlers.
- A record's id is its position in the collection.

Behaviours of the code worth knowing:

- The live clock-out checks only that a record exists for today. It does not check for
  a clock-in. So the Absent record that a regularization request creates can be clocked
  out (`ClockOutAcceptedWithoutClockIn`).
- A regularization request for today, sent before clocking in, makes that day's clock-in
  fail as a duplicate (`RequestBlocksClockIn`).
- The controller sets `totalWorkHours`, but the schema has no such path. The value
  appears only in the reply and is not stored.
- The controller answers nothing at all to a `type` other than clock-in or clock-out
  (`NoResponse`).
- A status outside the enumeration is accepted by the handler, then refused by the enum
  validator when the record is saved. The request fails and nothing is stored
  (`ValidationFailed`). The same holds for a missing userId or date on a record being
  created.
- No code path sets a request to `Rejected`.

## Model

| member | source | states |
|---|---|---|
| AttendanceModel.StatusFromLabel | Backend/models/Attendance.js:15-19 | the save-time enum check accepts exactly the six status labels, each as its own status |
| AttendanceModel.SchemaDefaults | Backend/models/Attendance.js:5-35 | a new record defaults to status "Absent", workMode "Office", lateMinutes 0, request "None" with reason "", and no times |
| AttendanceModel.FindFirst | Backend/server.js:119 | the lookup returns the first matching position, and none exactly when nothing matches |
| AttendanceModel.FindByDate | Frontend/components/CalendarView.jsx:16 | `find` by date yields the first record of that date, or none when no record has it |
| AttendanceModel.FindOneFindsOwnKey | Backend/server.js:119 | with unique keys, looking up a record's own (userId, date) finds exactly that record |
| AttendanceModel.AppendKeepsValid | Backend/server.js:140-151 | creating a record whose key is absent keeps keys unique and records valid |
| AttendanceModel.ReplaceKeepsValid | Backend/server.js:158-160 | saving a changed record under the same key keeps keys unique and records valid |
| Shift.Classify | Backend/server.js:128-133 | strictly after the shift start gives Late with lateMinutes the floor of the elapsed minutes (≥ 0); otherwise Present with 0 |
| Shift.TenOClockShiftExamples | Backend/controllers/attendanceController.js:55-57 | against 10:00, a 10:00:00 clock-in is Present/0 and a 10:15 one is Late/15 |
| ServerRoutes.WorkMode | Backend/server.js:138 | Office exactly when both lat and lng are truthy, otherwise Remote |
| ServerRoutes.ClockInRecord | Backend/server.js:124-149 | the new record has key (userId, today), clockInTime now, the image, Late iff after 09:30 with floor minutes, the work mode, the location, and no request |
| ServerRoutes.Punch | Backend/server.js:113-169 | accepted exactly for a clock-in with no record that day and a non-empty user and date, or a clock-out on a record without a clock-out; each refusal (duplicate clock-in, clock-out without record, second clock-out, invalid type, failed validation) happens exactly in its case and changes nothing; clock-in appends the new record; clock-out changes only that record's clock-out time and image |
| ServerRoutes.RequestRegularization | Backend/server.js:172-207 | with no record, exactly one Absent record with no times and a Pending request is appended; otherwise only the request of the existing record is replaced by the new Pending one |
| ServerRoutes.Edited | Backend/server.js:227-236 | a non-empty status or work mode overwrites that field; a Pending request becomes Approved and its times replace the record's when present; any other request and the times are untouched; nothing else changes |
| ServerRoutes.AdminUpdate | Backend/server.js:220-243 | accepted exactly when the id exists and the status is empty or in the enumeration; an unknown id gives not-found and a status outside the enumeration fails, both with no change; an accepted edit changes only that record, to its edited form |
| ServerRoutes.Register | Backend/server.js:30-55 | refused exactly when some user has the same email or employee id, with the table unchanged; otherwise the user is appended |
| ServerRoutes.RegisterKeepsUsersUnique | Backend/server.js:35-49 | registration keeps emails and employee ids unique |
| ServerRoutes.PunchKeepsValid | Backend/server.js:119-160 | punching keeps at most one record per (userId, date) |
| ServerRoutes.RequestKeepsValid | Backend/server.js:176-201 | a regularization request keeps at most one record per (userId, date) |
| ServerRoutes.AdminUpdateKeepsValid | Backend/server.js:224-238 | an admin edit keeps at most one record per (userId, date) |
| ServerRoutes.SecondClockInRejected | Backend/server.js:121-122 | after a successful clock-in, the same user's second clock-in that day is refused and changes nothing |
| ServerRoutes.ClockInThenOutTwice | Backend/server.js:154-161 | clock-in then clock-out succeeds, keeping the clock-in time; a further clock-out that day is refused as already clocked out |
| ServerRoutes.FirstClockInAccepted | Backend/server.js:119-151 | the first clock-in of a day with a user and a date is accepted and appended; it is Late exactly after 09:30, and at 09:45 or later at least 15 minutes late |
| ServerRoutes.RequestBlocksClockIn | Backend/server.js:176-190 | after a regularization request for today, that day's clock-in is refused as a duplicate |
| ServerRoutes.ClockOutAcceptedWithoutClockIn | Backend/server.js:154-160 | the Absent record a request creates can be clocked out though it has no clock-in |
| ServerRoutes.RequestIdempotent | Backend/server.js:191-199 | sending the same request twice stores what sending it once does |
| ServerRoutes.AdminUpdateIdempotent | Backend/server.js:228-236 | repeating an admin edit gives the same reply and collection as doing it once |
| ServerRoutes.RequestThenAdminEditApproves | Backend/server.js:231-236 | after a request, any accepted admin edit of that record approves it and copies the proposed times that are present |
| ServerRoutes.AttendanceStore.HandlePunch | Backend/server.js:113-169 | the in-place handler keeps the store invariant and yields exactly the reply and collection of `Punch` |
| ServerRoutes.AttendanceStore.HandleRegularizeRequest | Backend/server.js:172-207 | the in-place handler keeps the store invariant and yields exactly the reply and collection of `RequestRegularization` |
| ServerRoutes.AttendanceStore.HandleAdminUpdate | Backend/server.js:220-243 | the in-place handler keeps the store invariant and yields exactly the reply and collection of `AdminUpdate` |
| ServerRoutes.UserTable.HandleRegister | Backend/server.js:30-55 | the in-place handler keeps users unique and yields exactly the reply and table of `Register` |
| AttendanceController.WorkMode | Backend/controllers/attendanceController.js:41-46 | WFO exactly when lat and lng are truthy and the distance to the office is at most 0.5 km, otherwise WFH |
| AttendanceController.ClockInRecord | Backend/controllers/attendanceController.js:55-61 | the new record has clockInTime now, Late iff after 10:00 with floor minutes, the distance-based work mode, the location, and no image |
| AttendanceController.WorkedMillis | Backend/controllers/attendanceController.js:71-72 | the reported duration is clock-out minus clock-in, and non-negative when clock-out is not earlier |
| AttendanceController.MarkAttendance | Backend/controllers/attendanceController.js:32-81 | accepted exactly on a weekday for a clock-in with no record that day and a non-empty user and date, or a clock-out on any existing record; a weekend day refuses every punch; otherwise each refusal happens exactly in its case and changes nothing; there is never an already-clocked-out refusal; clock-out overwrites only clockOutTime |
| AttendanceController.RegularizeAttendance | Backend/controllers/attendanceController.js:100-112 | accepted exactly when the id exists and the label is in the enumeration; an unknown id gives not-found and a status outside the enumeration fails, both with no change; an accepted fix changes only that record's status, to the given label |
| AttendanceController.MarkAttendanceKeepsValid | Backend/controllers/attendanceController.js:49-74 | punching keeps at most one record per (userId, date) |
| AttendanceController.RegularizeAttendanceKeepsValid | Backend/controllers/attendanceController.js:103-107 | the admin fix keeps at most one record per (userId, date) |
| AttendanceController.SecondClockOutOverwrites | Backend/controllers/attendanceController.js:67-74 | a second clock-out the same day is accepted and moves clockOutTime to the later punch, keeping the clock-in |
| AttendanceController.WeekdayClockInAtQuarterPastTen | Backend/controllers/attendanceController.js:49-64 | on a weekday, the first clock-in at 10:15 is accepted with its work mode and stored as Late by 15 minutes |
| AttendanceController.FixLeavesRequestPending | Backend/controllers/attendanceController.js:103-107 | the admin fix leaves a Pending request pending and the clock times unchanged |
| AttendanceController.AttendanceStore.HandleMarkAttendance | Backend/controllers/attendanceController.js:32-81 | the in-place handler keeps the store invariant and yields exactly the reply and collection of `MarkAttendance` |
| AttendanceController.AttendanceStore.HandleRegularizeAttendance | Backend/controllers/attendanceController.js:100-112 | the in-place handler keeps the store invariant and yields exactly the reply and collection of `RegularizeAttendance` |
| CalendarView.TileClassName | Frontend/components/CalendarView.jsx:9-27 | non-month views give null; the first record of the date gives cal-late if Late and cal-present for every other status, on any weekday; with no record, Saturday/Sunday give cal-holiday and other days null |
| CalendarVie.TileClassName | Frontend/components/CalendarVie.jsx:9-29 | non-month views give null; Saturday/Sunday give cal-holiday even with a record; on a weekday the first record maps Present, Late, Absent and On Leave to their classes and Half-day, Holiday or no record to null |
| CalendarVie.CalendarsDifferOnWeekendRecord | Frontend/components/CalendarVie.jsx:16 | on a weekend day with a record, this calendar shows a holiday and the dashboard calendar does not |
| CalendarVie.CalendarsOnWeekdays | Frontend/components/CalendarVie.jsx:21-25 | on a weekday both calendars agree on a Present or Late record and disagree on an Absent one |

## Left out

- Face verification (`Backend/server.js:86-104`). It is a Euclidean distance over floating-point descriptors.
- The haversine distance and `deg2rad`. The distance is a parameter of the controller's functions, and nothing about it is assumed.
- NaN coordinates and NaN distances are not modelled. Coordinates are reals. An absent or zero coordinate is falsy.
- AttendanceController.WorkedMillis: on a record with no clock-in, `moment(undefined)` is taken after the clock-out instant, so the source's difference is 0 or a few milliseconds below 0. The model gives exactly 0.
- The formatting of `totalWorkHours` with `asHours().toFixed(2)`. The worked time is kept as integer milliseconds.
- The clock:
  - `new Date()`, `toISOString()` and `setHours`, and their time zones, are not modelled;
  - moment parsing is not modelled;
  - `getDay` and `toISOString` in the calendars are not modelled.
  - The instant, the day's date string, its local midnight and its weekday are inputs, with no relation assumed between them.
- Casting of request values:
  - Dates in a regularization request are taken as already-parsed instants. An unparseable date string, which fails on save, is not modelled.
  - An invalid ObjectId in a query is not modelled.
  - An absent (undefined) `newStatus` in the controller's admin fix is not modelled. The fix takes a string.
- Login, profile, credential and biometric updates, and the fingerprint stub (`Backend/server.js:58-75`, `246-289`). These are direct database calls with no further logic.
- The profile update (`Backend/server.js:246-254`) writes `email` unchecked, and the credential update (`Backend/server.js:257-268`) writes `employeeId` unchecked. Each can break the uniqueness of its own field. Registration's invariant does not cover either.
- `Backend/models/User.js` is not part of this model, so its own validators and indexes are not modelled either.
- The dashboard read (`populate` and sort). It is a database join.
- `Backend/controllers/userController.js`. It is password hashing and token signing around plain find/save calls.
- The static-file server in `server.js`.
- The React views, webcam capture and geolocation.
- Persistence, server errors (500 on a storage failure) and races between concurrent requests. Each operation runs to completion on the in-memory collection.
- HTTP status codes and message texts. Each reply is a datatype case instead.
