/** The attendance document of the schema (one record per employee and day),
    its enumerations and defaults, and the lookups the routes make on the
    collection of records. */
module AttendanceModel {

  /** An instant: milliseconds since the epoch, as a JavaScript `Date` holds it. */
  type Time = int

  /** The identifier of the employee a record belongs to ("" when missing). */
  type UserId = string

  /** A calendar day written "YYYY-MM-DD". */
  type DateKey = string

  datatype Option<T> = None | Some(value: T)

  /** The `status` enumeration of the schema. */
  datatype Status = Present | Late | Absent | HalfDay | OnLeave | Holiday
  {
    /** The string the schema stores for this status. */
    function Label(): string
    {
      match this
      case Present => "Present"
      case Late => "Late"
      case Absent => "Absent"
      case HalfDay => "Half-day"
      case OnLeave => "On Leave"
      case Holiday => "Holiday"
    }
  }

  /** The enum validator run when a record is saved: a string is accepted
      exactly when it is the label of one of the six statuses. */
  function StatusFromLabel(s: string): (r: Option<Status>)
    ensures r.Some? ==> r.value.Label() == s
    ensures forall st: Status :: st.Label() == s ==> r == Some(st)
  {
    if s == "Present" then Some(Present)
    else if s == "Late" then Some(Late)
    else if s == "Absent" then Some(Absent)
    else if s == "Half-day" then Some(HalfDay)
    else if s == "On Leave" then Some(OnLeave)
    else if s == "Holiday" then Some(Holiday)
    else None
  }

  /** The `regularization.status` enumeration; `NoRequest` is stored as "None". */
  datatype RequestState = NoRequest | Pending | Approved | Rejected
  {
    function Label(): string
    {
      match this
      case NoRequest => "None"
      case Pending => "Pending"
      case Approved => "Approved"
      case Rejected => "Rejected"
    }
  }

  /** The embedded correction request: only the latest one is kept. */
  datatype Regularization = Regularization(
    state: RequestState,
    reason: string,
    newClockIn: Option<Time>,
    newClockOut: Option<Time>)

  const NoRegularization := Regularization(NoRequest, "", None, None)

  /** The coordinates captured at clock-in, each possibly absent. */
  datatype Location = Location(lat: Option<real>, lng: Option<real>)

  datatype AttendanceRecord = AttendanceRecord(
    userId: UserId,
    date: DateKey,
    clockInTime: Option<Time>,
    clockOutTime: Option<Time>,
    clockInImage: Option<string>,
    clockOutImage: Option<string>,
    status: Status,
    workMode: string,
    location: Location,
    lateMinutes: int,
    regularization: Regularization)

  /** A fresh document for (userId, date) with every other path at its schema default. */
  function NewRecord(userId: UserId, date: DateKey): AttendanceRecord
  {
    AttendanceRecord(userId, date, None, None, None, None, Absent, "Office",
                     Location(None, None), 0, NoRegularization)
  }

  /** The schema defaults, in the strings the schema declares them with. */
  lemma SchemaDefaults(userId: UserId, date: DateKey)
    ensures var r := NewRecord(userId, date);
      && r.userId == userId && r.date == date
      && r.status.Label() == "Absent"
      && r.workMode == "Office"
      && r.lateMinutes == 0
      && r.regularization.state.Label() == "None"
      && r.regularization.reason == ""
      && r.clockInTime.None? && r.clockOutTime.None?
      && r.regularization.newClockIn.None? && r.regularization.newClockOut.None?
  {
  }

  /** The `required` validators: userId and date must be present and non-empty. */
  predicate Required(r: AttendanceRecord)
  {
    r.userId != "" && r.date != ""
  }

  /** JavaScript truthiness of an optional coordinate (NaN is not modelled). */
  predicate Truthy(c: Option<real>)
  {
    c.Some? && c.value != 0.0
  }

  /** What the handlers read from the clock: the instant, the day it is filed
      under, the local midnight of that day and its day of the week (0 = Sunday). */
  datatype Clock = Clock(now: Time, today: DateKey, midnight: Time, weekday: int)

  /** The body of a punch request. `kind` is the request's `type`. */
  datatype PunchRequest = PunchRequest(
    userId: UserId,
    kind: string,
    lat: Option<real>,
    lng: Option<real>,
    image: Option<string>)

  /** Why a handler refused a request. */
  datatype Failure =
    | AlreadyClockedIn
    | MustClockInFirst
    | AlreadyClockedOut
    | InvalidActionType
    | WeekendHoliday
    | RecordNotFound
    | ValidationFailed
    | UserExists
    | NoResponse

  datatype Result<T> = Ok(value: T) | Err(error: Failure)

  /** The index of the first element satisfying `p`, as `Array.find` and a
      `findOne` over a collection in natural order return it. */
  function FindFirst<T>(s: seq<T>, p: T -> bool): (r: Option<nat>)
    ensures r.Some? ==> r.value < |s| && p(s[r.value])
    ensures r.Some? ==> forall j :: 0 <= j < r.value ==> !p(s[j])
    ensures r.None? <==> forall j :: 0 <= j < |s| ==> !p(s[j])
    decreases |s|
  {
    if |s| == 0 then None
    else if p(s[0]) then Some(0)
    else
      match FindFirst(s[1..], p)
      case None => None
      case Some(k) => Some(k + 1)
  }

  predicate HasKey(r: AttendanceRecord, userId: UserId, date: DateKey)
  {
    r.userId == userId && r.date == date
  }

  /** `Attendance.findOne({ userId, date })`. */
  function FindOne(t: seq<AttendanceRecord>, userId: UserId, date: DateKey): Option<nat>
  {
    FindFirst(t, (r: AttendanceRecord) => HasKey(r, userId, date))
  }

  /** `k` is the position of the first record filed under `date`. */
  predicate IsFirstOnDate(data: seq<AttendanceRecord>, date: DateKey, k: nat)
  {
    k < |data| && data[k].date == date && forall j :: 0 <= j < k ==> data[j].date != date
  }

  /** No record is filed under `date`. */
  predicate NoRecordOn(data: seq<AttendanceRecord>, date: DateKey)
  {
    forall j :: 0 <= j < |data| ==> data[j].date != date
  }

  /** `attendanceData.find(r => r.date === date)`. */
  function FindByDate(data: seq<AttendanceRecord>, date: DateKey): (r: Option<nat>)
    ensures r.Some? ==> IsFirstOnDate(data, date, r.value)
    ensures r.None? ==> NoRecordOn(data, date)
  {
    FindFirst(data, (x: AttendanceRecord) => x.date == date)
  }

  /** At most one record per (userId, date). */
  predicate KeysUnique(t: seq<AttendanceRecord>)
  {
    forall i, j :: 0 <= i < j < |t| ==> !HasKey(t[j], t[i].userId, t[i].date)
  }

  /** The invariant of the stored collection: keys are unique and every
      record passed the schema's required validators. */
  predicate TableValid(t: seq<AttendanceRecord>)
  {
    KeysUnique(t) && forall i :: 0 <= i < |t| ==> Required(t[i])
  }

  /** In a valid table, looking a record up by its own key finds that record. */
  lemma FindOneFindsOwnKey(t: seq<AttendanceRecord>, i: nat)
    requires KeysUnique(t) && i < |t|
    ensures FindOne(t, t[i].userId, t[i].date) == Some(i)
  {
  }

  /** Appending a record whose key is absent keeps the table valid. */
  lemma AppendKeepsValid(t: seq<AttendanceRecord>, r: AttendanceRecord)
    requires TableValid(t) && Required(r)
    requires FindOne(t, r.userId, r.date).None?
    ensures TableValid(t + [r])
  {
  }

  /** Replacing a record by one with the same key keeps the table valid. */
  lemma ReplaceKeepsValid(t: seq<AttendanceRecord>, k: nat, r: AttendanceRecord)
    requires TableValid(t) && k < |t| && HasKey(r, t[k].userId, t[k].date)
    ensures TableValid(t[k := r])
  {
  }
}
