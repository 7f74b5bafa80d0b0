/** An in-memory event source: a named, coloured, selectable list of events
    kept in insertion order. */
module Sources {
  import opened Dates
  import opened Events
  import Seqs

  class InMemory {
    const id: string
    const name: string
    const colour: string
    var events: seq<Event>
    var selected: bool

    /** A new source is selected and holds the given events in order. */
    constructor (id: string, name: string, colour: string, events: seq<Event>)
      ensures this.id == id && this.name == name && this.colour == colour
      ensures this.events == events && selected
    {
      this.id, this.name, this.colour := id, name, colour;
      this.events := [];
      selected := true;
      new;
      var i := 0;
      while i < |events|
        invariant 0 <= i <= |events|
        invariant this.events == events[..i] && selected
      {
        AddEvent(events[i]);
        i := i + 1;
      }
    }

    /** PHP `clone`: a new object with the same identity fields, the same
        selection flag and a copy of the event list (the events themselves
        are shared). */
    constructor Clone(from: InMemory)
      ensures id == from.id && name == from.name && colour == from.colour
      ensures events == from.events && selected == from.selected
    {
      id, name, colour := from.id, from.name, from.colour;
      events, selected := from.events, from.selected;
    }

    /** `addEvent`: appends one event at the end. */
    method AddEvent(e: Event)
      modifies this`events
      ensures events == old(events) + [e]
      ensures Count() == old(Count()) + 1
      ensures forall d :: EventsOn(d) == old(EventsOn(d)) + (if e.OccursOn(d) then [e] else [])
    {
      events := events + [e];
      forall d ensures EventsOn(d) == old(EventsOn(d)) + (if e.OccursOn(d) then [e] else []) {
        Seqs.FilterConcat(old(events), [e], (x: Event) => x.OccursOn(d));
      }
    }

    /** `count`: the number of events; no date holds more of them. */
    function Count(): (n: nat)
      reads this
      ensures forall d :: |EventsOn(d)| <= n
    {
      |events|
    }

    /** `getAllEventsBetween`: the events lying wholly between the two
        instants, in insertion order. */
    function EventsBetween(from: ZonedDateTime, to: ZonedDateTime): (r: seq<Event>)
      reads this
      ensures forall i :: 0 <= i < |r| ==> r[i] in events && r[i].OccursBetween(from, to)
      ensures forall i :: 0 <= i < |events| && events[i].OccursBetween(from, to) ==> events[i] in r
    {
      var p := (e: Event) => e.OccursBetween(from, to);
      Seqs.FilterMembers(events, p);
      Seqs.Filter(events, p)
    }

    /** `getAllEventsOn`: the events that occur on the date, in insertion
        order. */
    function EventsOn(date: Date): (r: seq<Event>)
      reads this
      ensures forall i :: 0 <= i < |r| ==> r[i] in events && r[i].OccursOn(date)
      ensures forall i :: 0 <= i < |events| && events[i].OccursOn(date) ==> events[i] in r
    {
      var p := (e: Event) => e.OccursOn(date);
      Seqs.FilterMembers(events, p);
      Seqs.Filter(events, p)
    }

    /** `getAllEventsFor`: the events on the date of the given date-time. */
    function EventsFor(at: ZonedDateTime): (r: seq<Event>)
      reads this
      ensures r == EventsOn(at.Date())
    {
      Seqs.Filter(events, (e: Event) => e.OccursOn(at.Date()))
    }

    /** `equals`: the same identifier; name, colour and events play no part. */
    predicate Equals(other: InMemory)
    {
      id == other.id
    }

    /** `select`. */
    method Select()
      modifies this`selected
      ensures selected
    {
      selected := true;
    }

    /** `deselect`. */
    method Deselect()
      modifies this`selected
      ensures !selected
    {
      selected := false;
    }
  }

  /** Source equality is an equivalence on identifiers: a source with the
      same id but other name, colour or events is equal, a clone is too. */
  lemma EqualsIsIdEquivalence(a: InMemory, b: InMemory, c: InMemory)
    ensures a.Equals(a)
    ensures a.Equals(b) <==> b.Equals(a)
    ensures a.Equals(b) && b.Equals(c) ==> a.Equals(c)
  {
  }
}
