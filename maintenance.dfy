/** The maintenance-window gate of `/scrape`: the registry is unavailable from
    22:58 to 00:31, India Standard Time. The time-zone conversion happens
    before the gate; the gate sees the local time of day. */
module Maintenance {

  datatype TimeOfDay = TimeOfDay(hour: int, minute: int, second: int)

  predicate ValidTime(t: TimeOfDay) {
    0 <= t.hour < 24 && 0 <= t.minute < 60 && 0 <= t.second < 60
  }

  function SecondsOfDay(t: TimeOfDay): int {
    t.hour * 3600 + t.minute * 60 + t.second
  }

  /** `t` is at or after the clock time h:m:s of the same day, compared field
      by field as two DateTime values of one day compare. */
  predicate AtOrAfter(t: TimeOfDay, h: int, m: int, s: int) {
    t.hour > h || (t.hour == h && (t.minute > m || (t.minute == m && t.second >= s)))
  }

  const WindowStart := TimeOfDay(22, 58, 0)
  const WindowEnd := TimeOfDay(0, 31, 0)

  /** `isInMaintenanceWindow`: from 22 o'clock on, blocked at or after 22:58:00;
      before 1 o'clock, blocked before 00:31:00 (the same day's end, since the
      next day's is only chosen from 22 o'clock on); otherwise open. */
  predicate IsInMaintenanceWindow(t: TimeOfDay)
    requires ValidTime(t)
    ensures IsInMaintenanceWindow(t) <==>
              SecondsOfDay(t) >= SecondsOfDay(WindowStart) || SecondsOfDay(t) < SecondsOfDay(WindowEnd)
  {
    if t.hour >= 22 then AtOrAfter(t, 22, 58, 0)
    else if t.hour < 1 then !AtOrAfter(t, 0, 31, 0)
    else false
  }

  /** The window seen as a set of clock times spans midnight: it is the union
      of [22:58:00, 24:00:00) and [00:00:00, 00:31:00). */
  lemma WindowSpansMidnight(t: TimeOfDay)
    requires ValidTime(t)
    ensures IsInMaintenanceWindow(t) <==>
              (22 * 3600 + 58 * 60 <= SecondsOfDay(t) < 24 * 3600) || (0 <= SecondsOfDay(t) < 31 * 60)
  {
  }

  lemma WindowExamples()
    ensures IsInMaintenanceWindow(TimeOfDay(23, 15, 0))
    ensures IsInMaintenanceWindow(TimeOfDay(0, 15, 0))
    ensures !IsInMaintenanceWindow(TimeOfDay(1, 0, 0))
    ensures !IsInMaintenanceWindow(TimeOfDay(12, 0, 0))
    ensures !IsInMaintenanceWindow(TimeOfDay(22, 57, 59))
    ensures IsInMaintenanceWindow(TimeOfDay(22, 58, 0))
    ensures IsInMaintenanceWindow(TimeOfDay(0, 30, 59))
    ensures !IsInMaintenanceWindow(TimeOfDay(0, 31, 0))
  {
  }
}
