/** The tile classifier of the calendar the user dashboard shows: a record
    for the day wins over the weekend rule. */
module CalendarView {
  import opened AttendanceModel

  /** The CSS class of a calendar tile; None is JavaScript `null`. */
  function TileClassName(view: string, weekday: int, dateStr: DateKey, data: seq<AttendanceRecord>)
    : (c: Option<string>)
    ensures view != "month" ==> c == None
    ensures view == "month" ==> forall k: nat :: IsFirstOnDate(data, dateStr, k) ==>
      c == Some(if data[k].status == Late then "cal-late" else "cal-present")
    ensures view == "month" && NoRecordOn(data, dateStr) ==>
      c == if weekday == 0 || weekday == 6 then Some("cal-holiday") else None
  {
    if view != "month" then None
    else
      match FindByDate(data, dateStr)
      case Some(k) =>
        if data[k].status == Late then Some("cal-late") else Some("cal-present")
      case None =>
        if weekday == 0 || weekday == 6 then Some("cal-holiday") else None
  }
}
