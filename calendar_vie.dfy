/** The other calendar's tile classifier: the weekend rule wins over any
    record, and only four statuses get a class. */
module CalendarVie {
  import opened AttendanceModel
  import CalendarView

  /** The CSS class of a calendar tile; None is JavaScript `null`. */
  function TileClassName(view: string, weekday: int, dateStr: DateKey, data: seq<AttendanceRecord>)
    : (c: Option<string>)
    ensures view != "month" ==> c == None
    ensures view == "month" && (weekday == 0 || weekday == 6) ==> c == Some("cal-holiday")
    ensures view == "month" && weekday != 0 && weekday != 6 && NoRecordOn(data, dateStr) ==> c == None
    ensures view == "month" && weekday != 0 && weekday != 6 ==>
      forall k: nat :: IsFirstOnDate(data, dateStr, k) ==>
        && (data[k].status == Present ==> c == Some("cal-present"))
        && (data[k].status == Late ==> c == Some("cal-late"))
        && (data[k].status == Absent ==> c == Some("cal-absent"))
        && (data[k].status == OnLeave ==> c == Some("cal-leave"))
        && (data[k].status == HalfDay || data[k].status == Holiday ==> c == None)
  {
    if view != "month" then None
    else if weekday == 0 || weekday == 6 then Some("cal-holiday")
    else
      match FindByDate(data, dateStr)
      case Some(k) =>
        (match data[k].status
         case Present => Some("cal-present")
         case Late => Some("cal-late")
         case Absent => Some("cal-absent")
         case OnLeave => Some("cal-leave")
         case _ => None)
      case None => None
  }

  /** On a weekend day with a record the two calendars differ: the dashboard
      one shows the record, this one shows a holiday. */
  lemma CalendarsDifferOnWeekendRecord(weekday: int, dateStr: DateKey, data: seq<AttendanceRecord>, k: nat)
    requires weekday == 0 || weekday == 6
    requires IsFirstOnDate(data, dateStr, k)
    ensures TileClassName("month", weekday, dateStr, data) == Some("cal-holiday")
    ensures CalendarView.TileClassName("month", weekday, dateStr, data) != Some("cal-holiday")
  {
  }

  /** On a weekday both calendars show a Present or Late first record alike, and
      disagree on an Absent one. */
  lemma CalendarsOnWeekdays(weekday: int, dateStr: DateKey, data: seq<AttendanceRecord>, k: nat)
    requires weekday != 0 && weekday != 6
    requires IsFirstOnDate(data, dateStr, k)
    ensures data[k].status == Present || data[k].status == Late ==>
      TileClassName("month", weekday, dateStr, data) == CalendarView.TileClassName("month", weekday, dateStr, data)
    ensures data[k].status == Absent ==>
      TileClassName("month", weekday, dateStr, data) == Some("cal-absent")
      && CalendarView.TileClassName("month", weekday, dateStr, data) == Some("cal-present")
  {
  }
}
