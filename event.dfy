/** One calendar event. Its identity, title, start and duration never
    change after construction; the description, location and attendee list
    are filled in afterwards by the fluent setters. */
module Events {
  import opened Dates

  class Event {
    /** The URL or identifier of the event. */
    const self: string
    const title: string
    /** The start, in the event's own fixed offset. */
    const when: ZonedDateTime
    /** The length in minutes. */
    const duration: int
    const organiser: object?

    var location: string
    var description: string
    var attendees: seq<object>

    constructor (self: string, title: string, when: ZonedDateTime, duration: int, organiser: object?)
      ensures this.self == self && this.title == title && this.when == when
      ensures this.duration == duration && this.organiser == organiser
      ensures location == "" && description == "" && attendees == []
      ensures ToString() == title
    {
      this.self, this.title, this.when, this.duration, this.organiser := self, title, when, duration, organiser;
      location, description, attendees := "", "", [];
    }

    /** The end of the event: its start plus its duration, same offset. */
    function End(): ZonedDateTime
    {
      when.PlusMinutes(duration)
    }

    /** `occursBetween`: starts at or after `from` and ends at or before
        `to`, compared as instants. */
    predicate OccursBetween(from: ZonedDateTime, to: ZonedDateTime)
      ensures duration >= 0 && OccursBetween(from, to) ==> from.Instant() <= to.Instant()
    {
      when.Instant() >= from.Instant() && End().Instant() <= to.Instant()
    }

    /** `occursOn`: the start date is on or after `date` and the end date is
        on or before it. */
    predicate OccursOn(date: Date)
      ensures duration >= 0 ==> (OccursOn(date) <==> when.Date() == date && End().Date() == date)
    {
      when.Date() >= date && End().Date() <= date
    }

    /** `occursAt`: the time of day lies between the start and end times of
        day, both inclusive; dates play no part. */
    predicate OccursAt(time: int)
    {
      when.Time() <= time && End().Time() >= time
    }

    /** `__toString`. */
    function ToString(): (s: string)
      ensures s == title
    {
      title
    }

    /** `describe`: replaces the description only. */
    method Describe(description: string) returns (r: Event)
      modifies this`description
      ensures r == this && this.description == description
    {
      this.description := description;
      r := this;
    }

    /** `attendAt`: replaces the location only. */
    method AttendAt(location: string) returns (r: Event)
      modifies this`location
      ensures r == this && this.location == location
    {
      this.location := location;
      r := this;
    }

    /** `invite`: the new attendees go after the existing ones, in the
        order given. */
    method Invite(more: seq<object>) returns (r: Event)
      modifies this`attendees
      ensures r == this && attendees == old(attendees) + more
    {
      attendees := attendees + more;
      r := this;
    }
  }

  /** For an event of non-negative length, being "on" a date means starting
      and ending on that very date. */
  lemma OccursOnSameDay(e: Event, date: Date)
    requires e.duration >= 0
    ensures e.OccursOn(date) <==> e.when.Date() == date && e.End().Date() == date
  {
  }

  /** An event that ends on a later date than it starts, such as a whole-day
      holiday starting in the morning, occurs on no date at all. */
  lemma MultiDayEventOnNoDate(e: Event, date: Date)
    requires e.End().Date() > e.when.Date()
    ensures !e.OccursOn(date)
  {
  }

  /** An event of a day or more never ends on its start date. */
  lemma LongEventEndsLater(e: Event)
    requires e.duration >= MinutesPerDay
    ensures e.End().Date() > e.when.Date()
  {
  }

  /** An event of non-negative length lies between two instants only if
      they are in order, and always lies between its own start and end. */
  lemma OccursBetweenOwnBounds(e: Event, from: ZonedDateTime, to: ZonedDateTime)
    requires e.duration >= 0
    ensures e.OccursBetween(from, to) ==> from.Instant() <= to.Instant()
    ensures e.OccursBetween(e.when, e.End())
  {
  }

  /** An event that ends at an earlier time of day than it starts (it runs
      past midnight) occurs at no time of day; a zero-length one only at its
      start time. */
  lemma OccursAtRange(e: Event, time: int)
    ensures e.End().Time() < e.when.Time() ==> !e.OccursAt(time)
    ensures e.duration == 0 ==> (e.OccursAt(time) <==> time == e.when.Time())
  {
  }
}
