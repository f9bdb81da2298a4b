/** The records shared by the parser, the grid and the application state. */
module ScheduleTypes {

  /** The three periods of a day: morning (M), afternoon (T, "tarde") and night (N). */
  datatype Period = M | T | N

  /** One weekday's share of a time-code block: the weekday (0 = Sunday ... 6 = Saturday),
      the period, and the global slot indices (rows of the grid) it occupies. */
  datatype TimeSlot = TimeSlot(day: int, period: Period, slots: seq<int>)

  /** A class as the user enters it; `schedules` is what the parser made of `timeCode`. */
  datatype ClassSchedule = ClassSchedule(
    id: string,
    professor: string,
    discipline: string,
    timeCode: string,
    schedules: seq<TimeSlot>)

  /** A wall-clock interval, written "HH:MM". */
  datatype TimeRange = TimeRange(start: string, end: string)
}
