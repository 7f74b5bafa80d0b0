/** Calendar dates as epoch day numbers and zoned date-times as minutes.

    A `Date` is the number of days since 1970-01-01 (day 0, a Thursday), as
    in `LocalDate::toEpochDay`. A time of day is a number of minutes after
    midnight, `0..1439`. A zoned date-time is kept as the local minutes since
    the epoch in its own fixed UTC offset, together with that offset, so its
    date and time of day are read off directly and its instant is the local
    value minus the offset. */
module Dates {

  type Date = int

  const MinutesPerDay: int := 1440

  type TimeOfDay = t: int | 0 <= t < MinutesPerDay

  /** ISO day of the week: 1 = Monday ... 7 = Sunday. */
  function DayOfWeek(d: Date): (r: int)
    ensures 1 <= r <= 7
  {
    (d + 3) % 7 + 1
  }

  /** Weekdays advance by one each day and wrap from Sunday to Monday. */
  lemma DayOfWeekNext(d: Date)
    ensures DayOfWeek(d + 1) == if DayOfWeek(d) == 7 then 1 else DayOfWeek(d) + 1
  {
  }

  /** Weekdays repeat every seven days. */
  lemma DayOfWeekPeriodic(d: Date)
    ensures DayOfWeek(d + 7) == DayOfWeek(d)
  {
  }

  /** Two dates less than a week apart fall on different weekdays. */
  lemma DayOfWeekDistinct(a: Date, b: Date)
    requires a < b < a + 7
    ensures DayOfWeek(a) != DayOfWeek(b)
  {
  }

  /** A date-time in a fixed UTC offset (minutes east of UTC). */
  datatype ZonedDateTime = ZonedDateTime(local: int, offset: int)
  {
    /** The local calendar date. */
    function Date(): (d: Date)
      ensures d * MinutesPerDay <= local < d * MinutesPerDay + MinutesPerDay
    {
      local / MinutesPerDay
    }

    /** The local time of day. */
    function Time(): (t: TimeOfDay)
      ensures Date() * MinutesPerDay + t == local
    {
      local % MinutesPerDay
    }

    /** The point on the global time line, in minutes since the epoch (UTC). */
    function Instant(): int
    {
      local - offset
    }

    /** `plusDuration`: the same offset, `minutes` later. */
    function PlusMinutes(minutes: int): (z: ZonedDateTime)
      ensures z.offset == offset
      ensures z.Instant() == Instant() + minutes
    {
      ZonedDateTime(local + minutes, offset)
    }
  }

  /** A date at a time of day in a given offset. */
  function At(d: Date, t: TimeOfDay, offset: int): (z: ZonedDateTime)
    ensures z.Date() == d && z.Time() == t && z.offset == offset
  {
    ZonedDateTime(d * MinutesPerDay + t, offset)
  }
}
