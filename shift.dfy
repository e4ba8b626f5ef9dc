/** Late/on-time classification of a clock-in against a shift start. */
module Shift {
  import opened AttendanceModel

  const MinuteMillis: int := 60000

  /** The offset of the wall-clock time hh:mm from local midnight. */
  function AtHour(hours: nat, minutes: nat): int
  {
    (hours * 60 + minutes) * MinuteMillis
  }

  datatype Classification = Classification(status: Status, lateMinutes: int)

  /** A clock-in strictly after the shift start is Late by the whole minutes
      elapsed (rounded down); one at or before it is Present and 0 minutes late. */
  function Classify(now: Time, shiftStart: Time): (c: Classification)
    ensures c.status == Late <==> now > shiftStart
    ensures c.status != Late ==> c.status == Present && c.lateMinutes == 0
    ensures c.status == Late ==>
      0 <= c.lateMinutes * MinuteMillis <= now - shiftStart < (c.lateMinutes + 1) * MinuteMillis
  {
    if now > shiftStart then Classification(Late, (now - shiftStart) / MinuteMillis)
    else Classification(Present, 0)
  }

  /** The two worked cases of a 10:00 shift: 10:00:00 exactly is on time and
      10:15 is 15 minutes late. */
  lemma TenOClockShiftExamples(midnight: Time)
    ensures Classify(midnight + AtHour(10, 0), midnight + AtHour(10, 0)) == Classification(Present, 0)
    ensures Classify(midnight + AtHour(10, 15), midnight + AtHour(10, 0)) == Classification(Late, 15)
  {
  }
}
