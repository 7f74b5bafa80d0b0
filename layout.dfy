/** The grid of the day and week views (`buildWeekView`, `buildDayColumn`),
    reduced to the cells it places and where it places them.

    Each selected source is one column of a day. Walking the time slots in
    order, an event is placed at the first slot it occurs at and never again;
    it spans as many rows as the ceiling of its duration over the slot
    length, and every slot no placed event spans gets an empty cell. Rows
    count from 2 (row 1 holds the day's header). */
module Layout {
  import opened Dates
  import opened Events
  import opened Sources
  import Seqs
  import Arith
  import TimeSlots
  import Periods

  datatype Cell =
    | EventCell(column: int, row: int, span: int, event: Event)
    | EmptyCell(column: int, row: int, at: int)

  /** PHP `ceil($a / $d)` for a positive slot length. */
  function CeilDiv(a: int, d: int): int
    requires d > 0
  {
    -((-a) / d)
  }

  /** `CeilDiv` is the least multiple count covering `a`: an event spans
      just enough slots to hold its whole duration. */
  lemma CeilDivBounds(a: int, d: int)
    requires d > 0
    ensures (CeilDiv(a, d) - 1) * d < a <= CeilDiv(a, d) * d
  {
    var q := (-a) / d;
    assert q * d <= -a < q * d + d;
  }

  /** The number of rows an event spans. */
  function Span(e: Event, slotLength: int): int
    requires slotLength > 0
  {
    CeilDiv(e.duration, slotLength)
  }

  /** The event occurs at none of the first `i` slots. */
  predicate ClearBefore(e: Event, slots: seq<int>, i: int)
  {
    forall j :: 0 <= j < i && j < |slots| ==> !e.OccursAt(slots[j])
  }

  function OccursAtSlot(slot: int): Event -> bool
  {
    (e: Event) => e.OccursAt(slot)
  }

  function MissesSlot(slot: int): Event -> bool
  {
    (e: Event) => !e.OccursAt(slot)
  }

  function Unplaced(slots: seq<int>, i: int): Event -> bool
  {
    (e: Event) => ClearBefore(e, slots, i)
  }

  function PlacedBefore(slots: seq<int>, i: int): Event -> bool
  {
    (e: Event) => !ClearBefore(e, slots, i)
  }

  function FirstAt(slots: seq<int>, i: int): Event -> bool
    requires 0 <= i < |slots|
  {
    (e: Event) => e.OccursAt(slots[i]) && ClearBefore(e, slots, i)
  }

  /** The events placed at slot `i`: those occurring at it and at no
      earlier slot, in the source's order. */
  function Claims(events: seq<Event>, slots: seq<int>, i: int): seq<Event>
    requires 0 <= i < |slots|
  {
    Seqs.Filter(events, FirstAt(slots, i))
  }

  /** Taking the events that occur at slot `i` out of those not yet placed
      leaves the ones placed at `i`, and those still unplaced after it. */
  lemma ClaimsStep(events: seq<Event>, slots: seq<int>, i: int)
    requires 0 <= i < |slots|
    ensures Seqs.Filter(Seqs.Filter(events, Unplaced(slots, i)), OccursAtSlot(slots[i])) == Claims(events, slots, i)
    ensures Seqs.Filter(Seqs.Filter(events, Unplaced(slots, i)), MissesSlot(slots[i])) == Seqs.Filter(events, Unplaced(slots, i + 1))
  {
    Seqs.FilterFilter(events, Unplaced(slots, i), OccursAtSlot(slots[i]), FirstAt(slots, i));
    Seqs.FilterFilter(events, Unplaced(slots, i), MissesSlot(slots[i]), Unplaced(slots, i + 1));
  }

  /** Event cells for a list of events placed at one row. */
  function CellsAt(column: int, row: int, placed: seq<Event>, slotLength: int): (r: seq<Cell>)
    requires slotLength > 0
    ensures |r| == |placed|
    ensures forall m :: 0 <= m < |r| ==> r[m] == EventCell(column, row, Span(placed[m], slotLength), placed[m])
  {
    seq(|placed|, m requires 0 <= m < |placed| => EventCell(column, row, Span(placed[m], slotLength), placed[m]))
  }

  /** The event cells of one source column for the first `n` slots. */
  function EventCells(column: int, events: seq<Event>, slots: seq<int>, slotLength: int, n: nat): seq<Cell>
    requires slotLength > 0 && n <= |slots|
  {
    if n == 0 then []
    else
      var earlier := EventCells(column, events, slots, slotLength, n - 1);
      earlier + CellsAt(column, n + 1, Claims(events, slots, n - 1), slotLength)
  }

  /** Whether a placed event's rows include slot `k`. */
  predicate Covered(cells: seq<Cell>, k: int)
  {
    exists m :: 0 <= m < |cells| && cells[m].EventCell? && cells[m].row - 2 <= k < cells[m].row - 2 + cells[m].span
  }

  /** The empty cells for the first `n` slots: one per slot no event spans. */
  function EmptyCells(column: int, slots: seq<int>, placed: seq<Cell>, n: nat): seq<Cell>
    requires n <= |slots|
  {
    if n == 0 then []
    else
      var earlier := EmptyCells(column, slots, placed, n - 1);
      earlier + (if Covered(placed, n - 1) then [] else [EmptyCell(column, n + 1, slots[n - 1])])
  }

  /** All cells of one source column: event cells slot by slot, then the
      empty cells. */
  function SourceCells(column: int, events: seq<Event>, slots: seq<int>, slotLength: int): seq<Cell>
    requires slotLength > 0
  {
    var placed := EventCells(column, events, slots, slotLength, |slots|);
    placed + EmptyCells(column, slots, placed, |slots|)
  }

  /** The inner loop over the remaining events: those occurring at the slot
      are taken out, in order. */
  method TakeOccurring(remaining: seq<Event>, slot: int) returns (hits: seq<Event>, rest: seq<Event>)
    ensures hits == Seqs.Filter(remaining, OccursAtSlot(slot))
    ensures rest == Seqs.Filter(remaining, MissesSlot(slot))
  {
    hits, rest := [], [];
    for m := 0 to |remaining|
      invariant hits == Seqs.Filter(remaining[..m], OccursAtSlot(slot))
      invariant rest == Seqs.Filter(remaining[..m], MissesSlot(slot))
    {
      assert remaining[..m + 1] == remaining[..m] + [remaining[m]];
      Seqs.FilterConcat(remaining[..m], [remaining[m]], OccursAtSlot(slot));
      Seqs.FilterConcat(remaining[..m], [remaining[m]], MissesSlot(slot));
      if remaining[m].OccursAt(slot) {
        hits := hits + [remaining[m]];
      } else {
        rest := rest + [remaining[m]];
      }
    }
    assert remaining[..|remaining|] == remaining;
  }

  /** Marks `span` slots from `from` as used; marks past the end of the
      grid have no effect on what is drawn and are dropped. */
  method MarkUsed(used: array<bool>, from: int, span: int)
    requires 0 <= from
    modifies used
    ensures forall k :: 0 <= k < used.Length ==> used[k] == (old(used[k]) || from <= k < from + span)
  {
    var t := 0;
    while t < span
      invariant 0 <= t && (t <= span || t == 0)
      invariant forall k :: 0 <= k < used.Length ==> used[k] == (old(used[k]) || from <= k < from + t)
    {
      if from + t < used.Length {
        used[from + t] := true;
      }
      t := t + 1;
    }
  }

  /** Adding one cell covers what it spans on top of what was covered. */
  lemma CoveredAppend(cells: seq<Cell>, c: Cell, k: int)
    ensures Covered(cells + [c], k) == (Covered(cells, k) || (c.EventCell? && c.row - 2 <= k < c.row - 2 + c.span))
  {
    if Covered(cells, k) {
      var m :| 0 <= m < |cells| && cells[m].EventCell? && cells[m].row - 2 <= k < cells[m].row - 2 + cells[m].span;
      assert (cells + [c])[m] == cells[m];
    }
    if c.EventCell? && c.row - 2 <= k < c.row - 2 + c.span {
      assert (cells + [c])[|cells|] == c;
    }
  }

  /** Places the events claimed at slot `i`: one cell each at row `i + 2`,
      marking the slots it spans as used. */
  method PlaceAt(column: int, i: nat, hits: seq<Event>, slotLength: int, used: array<bool>, placed: seq<Cell>)
    returns (after: seq<Cell>)
    requires slotLength > 0
    requires forall k :: 0 <= k < used.Length ==> used[k] == Covered(placed, k)
    modifies used
    ensures after == placed + CellsAt(column, i + 2, hits, slotLength)
    ensures forall k :: 0 <= k < used.Length ==> used[k] == Covered(after, k)
  {
    after := placed;
    for h := 0 to |hits|
      invariant after == placed + CellsAt(column, i + 2, hits[..h], slotLength)
      invariant forall k :: 0 <= k < used.Length ==> used[k] == Covered(after, k)
    {
      var span := CeilDiv(hits[h].duration, slotLength);
      var cell := EventCell(column, i + 2, span, hits[h]);
      MarkUsed(used, i, span);
      forall k | 0 <= k < used.Length ensures used[k] == Covered(after + [cell], k) {
        CoveredAppend(after, cell, k);
      }
      after := after + [cell];
      assert CellsAt(column, i + 2, hits[..h + 1], slotLength) == CellsAt(column, i + 2, hits[..h], slotLength) + [cell];
    }
    assert hits[..|hits|] == hits;
  }

  /** The final loop of a source column: an empty cell for each unused
      slot. */
  method FillEmpty(column: int, slots: seq<int>, placed: seq<Cell>, used: array<bool>) returns (empties: seq<Cell>)
    requires used.Length == |slots|
    requires forall k :: 0 <= k < |slots| ==> used[k] == Covered(placed, k)
    ensures empties == EmptyCells(column, slots, placed, |slots|)
  {
    empties := [];
    for k := 0 to |slots|
      invariant empties == EmptyCells(column, slots, placed, k)
    {
      if !used[k] {
        empties := empties + [EmptyCell(column, k + 2, slots[k])];
      }
    }
  }

  /** One source's column of a day (the body of the loop over the selected
      sources in `buildDayColumn`). */
  method BuildSourceColumn(column: int, events: seq<Event>, slots: seq<int>, slotLength: int) returns (cells: seq<Cell>)
    requires slotLength > 0
    ensures cells == SourceCells(column, events, slots, slotLength)
  {
    var remaining := events;
    var used := new bool[|slots|](_ => false);
    var placed: seq<Cell> := [];
    Seqs.FilterAll(events, Unplaced(slots, 0));
    for i := 0 to |slots|
      invariant used.Length == |slots|
      invariant remaining == Seqs.Filter(events, Unplaced(slots, i))
      invariant placed == EventCells(column, events, slots, slotLength, i)
      invariant forall k :: 0 <= k < |slots| ==> used[k] == Covered(placed, k)
    {
      var hits, rest := TakeOccurring(remaining, slots[i]);
      ClaimsStep(events, slots, i);
      assert hits == Claims(events, slots, i);
      assert EventCells(column, events, slots, slotLength, i + 1) == placed + CellsAt(column, i + 2, hits, slotLength);
      placed := PlaceAt(column, i, hits, slotLength, used, placed);
      remaining := rest;
    }
    var empties := FillEmpty(column, slots, placed, used);
    cells := placed + empties;
    assert cells == SourceCells(column, events, slots, slotLength);
  }

  /** One event cell: in the column, at the row of the first slot its
      event occurs at, spanning the event's length in slots. */
  predicate PlacedFirst(c: Cell, column: int, events: seq<Event>, slots: seq<int>, slotLength: int, n: nat)
    requires slotLength > 0
  {
    && c.EventCell? && c.column == column
    && 2 <= c.row < n + 2 && c.row - 2 < |slots|
    && c.event in events
    && c.event.OccursAt(slots[c.row - 2])
    && ClearBefore(c.event, slots, c.row - 2)
    && c.span == Span(c.event, slotLength)
  }

  /** Every event cell sits in the source's column, at the row of the first
      slot its event occurs at, and spans the event's length in slots. */
  lemma {:induction false} PlacedAtFirstSlot(column: int, events: seq<Event>, slots: seq<int>, slotLength: int, n: nat)
    requires slotLength > 0 && n <= |slots|
    ensures forall m :: 0 <= m < |EventCells(column, events, slots, slotLength, n)| ==>
      PlacedFirst(EventCells(column, events, slots, slotLength, n)[m], column, events, slots, slotLength, n)
  {
    if n > 0 {
      PlacedAtFirstSlot(column, events, slots, slotLength, n - 1);
      var earlier := EventCells(column, events, slots, slotLength, n - 1);
      var claims := Claims(events, slots, n - 1);
      var cells := EventCells(column, events, slots, slotLength, n);
      assert cells == earlier + CellsAt(column, n + 1, claims, slotLength);
      Seqs.FilterMembers(events, FirstAt(slots, n - 1));
      forall m | 0 <= m < |cells| ensures PlacedFirst(cells[m], column, events, slots, slotLength, n) {
        if m < |earlier| {
          assert cells[m] == earlier[m];
          assert PlacedFirst(earlier[m], column, events, slots, slotLength, n - 1);
        } else {
          var x := claims[m - |earlier|];
          assert cells[m] == EventCell(column, n + 1, Span(x, slotLength), x);
          assert x in events && FirstAt(slots, n - 1)(x);
        }
      }
    }
  }

  /** The events of a list of cells, in order. */
  function EventsOf(cells: seq<Cell>): seq<Event>
  {
    if cells == [] then [] else (if cells[0].EventCell? then [cells[0].event] else []) + EventsOf(cells[1..])
  }

  lemma {:induction false} EventsOfConcat(a: seq<Cell>, b: seq<Cell>)
    ensures EventsOf(a + b) == EventsOf(a) + EventsOf(b)
  {
    if a == [] {
      assert a + b == b;
    } else {
      var head := if a[0].EventCell? then [a[0].event] else [];
      assert (a + b)[0] == a[0];
      assert (a + b)[1..] == a[1..] + b;
      EventsOfConcat(a[1..], b);
      Seqs.AppendAssoc(head, EventsOf(a[1..]), EventsOf(b));
    }
  }

  lemma {:induction false} EventsOfCellsAt(column: int, row: int, placed: seq<Event>, slotLength: int)
    requires slotLength > 0
    ensures EventsOf(CellsAt(column, row, placed, slotLength)) == placed
  {
    if placed != [] {
      assert CellsAt(column, row, placed, slotLength)[1..] == CellsAt(column, row, placed[1..], slotLength);
      EventsOfCellsAt(column, row, placed[1..], slotLength);
    }
  }

  lemma {:induction false} NothingPlacedAtStart(events: seq<Event>, slots: seq<int>)
    ensures Seqs.Filter(events, PlacedBefore(slots, 0)) == []
  {
    if events != [] {
      NothingPlacedAtStart(events[1..], slots);
      assert !PlacedBefore(slots, 0)(events[0]);
    }
  }

  /** An event is placed by slot `n` when it was placed earlier or is
      placed at slot `n - 1`, never both. */
  lemma PlacedStep(events: seq<Event>, slots: seq<int>, n: nat)
    requires 0 < n <= |slots|
    ensures forall x :: x in events ==>
      && !(PlacedBefore(slots, n - 1)(x) && FirstAt(slots, n - 1)(x))
      && PlacedBefore(slots, n)(x) == (PlacedBefore(slots, n - 1)(x) || FirstAt(slots, n - 1)(x))
  {
  }

  /** Each event that occurs at some slot gets exactly one cell per time it
      is listed, and an event that occurs at no slot gets none. */
  lemma {:induction false} PlacedOnce(column: int, events: seq<Event>, slots: seq<int>, slotLength: int, n: nat)
    requires slotLength > 0 && n <= |slots|
    ensures multiset(EventsOf(EventCells(column, events, slots, slotLength, n)))
      == multiset(Seqs.Filter(events, PlacedBefore(slots, n)))
  {
    if n == 0 {
      PlacedOnceBase(column, events, slots, slotLength);
    } else {
      PlacedOnce(column, events, slots, slotLength, n - 1);
      PlacedOnceStep(column, events, slots, slotLength, n);
    }
  }

  lemma PlacedOnceBase(column: int, events: seq<Event>, slots: seq<int>, slotLength: int)
    requires slotLength > 0
    ensures multiset(EventsOf(EventCells(column, events, slots, slotLength, 0)))
      == multiset(Seqs.Filter(events, PlacedBefore(slots, 0)))
  {
    NothingPlacedAtStart(events, slots);
    assert EventCells(column, events, slots, slotLength, 0) == [];
  }

  lemma PlacedOnceStep(column: int, events: seq<Event>, slots: seq<int>, slotLength: int, n: nat)
    requires slotLength > 0 && 0 < n <= |slots|
    requires multiset(EventsOf(EventCells(column, events, slots, slotLength, n - 1)))
      == multiset(Seqs.Filter(events, PlacedBefore(slots, n - 1)))
    ensures multiset(EventsOf(EventCells(column, events, slots, slotLength, n)))
      == multiset(Seqs.Filter(events, PlacedBefore(slots, n)))
  {
    EventsOfStep(column, events, slots, slotLength, n);
    ClaimsAddUp(events, slots, n);
  }

  /** The events of the cells for `n` slots are those for `n - 1` slots and
      the events claimed at slot `n - 1`. */
  lemma EventsOfStep(column: int, events: seq<Event>, slots: seq<int>, slotLength: int, n: nat)
    requires slotLength > 0 && 0 < n <= |slots|
    ensures multiset(EventsOf(EventCells(column, events, slots, slotLength, n)))
      == multiset(EventsOf(EventCells(column, events, slots, slotLength, n - 1))) + multiset(Claims(events, slots, n - 1))
  {
    var earlier := EventCells(column, events, slots, slotLength, n - 1);
    var claims := Claims(events, slots, n - 1);
    var added := CellsAt(column, n + 1, claims, slotLength);
    EventsOfConcat(earlier, added);
    EventsOfCellsAt(column, n + 1, claims, slotLength);
  }

  /** The events placed by slot `n` are those placed earlier and those
      claimed at slot `n - 1`. */
  lemma ClaimsAddUp(events: seq<Event>, slots: seq<int>, n: nat)
    requires 0 < n <= |slots|
    ensures multiset(Seqs.Filter(events, PlacedBefore(slots, n - 1))) + multiset(Claims(events, slots, n - 1))
      == multiset(Seqs.Filter(events, PlacedBefore(slots, n)))
  {
    PlacedStep(events, slots, n);
    Seqs.FilterUnion(events, PlacedBefore(slots, n - 1), FirstAt(slots, n - 1), PlacedBefore(slots, n));
  }

  /** One empty cell: in the column, at a slot no event cell spans. */
  predicate EmptyAtUncovered(c: Cell, column: int, slots: seq<int>, placed: seq<Cell>, n: nat)
  {
    && c.EmptyCell? && c.column == column
    && 2 <= c.row < n + 2 && c.row - 2 < |slots|
    && c.at == slots[c.row - 2]
    && !Covered(placed, c.row - 2)
  }

  /** The empty cells lie in the source's column, one per slot that no
      event cell spans, in slot order. */
  lemma {:induction false} EmptyCellsShape(column: int, slots: seq<int>, placed: seq<Cell>, n: nat)
    requires n <= |slots|
    ensures forall m :: 0 <= m < |EmptyCells(column, slots, placed, n)| ==>
      EmptyAtUncovered(EmptyCells(column, slots, placed, n)[m], column, slots, placed, n)
    ensures forall m1, m2 :: 0 <= m1 < m2 < |EmptyCells(column, slots, placed, n)| ==>
      EmptyCells(column, slots, placed, n)[m1].row < EmptyCells(column, slots, placed, n)[m2].row
  {
    if n > 0 {
      EmptyCellsShape(column, slots, placed, n - 1);
      var earlier := EmptyCells(column, slots, placed, n - 1);
      var cells := EmptyCells(column, slots, placed, n);
      assert forall m :: 0 <= m < |earlier| ==> EmptyAtUncovered(earlier[m], column, slots, placed, n - 1);
      assert cells[..|earlier|] == earlier;
      forall m | 0 <= m < |earlier| ensures cells[m] == earlier[m] && earlier[m].row < n + 1 {
        assert EmptyAtUncovered(earlier[m], column, slots, placed, n - 1);
      }
    }
  }

  /** Every slot no event cell spans has its empty cell. */
  lemma {:induction false} EmptyCellsComplete(column: int, slots: seq<int>, placed: seq<Cell>, n: nat)
    requires n <= |slots|
    ensures forall k :: 0 <= k < n && !Covered(placed, k) ==> EmptyCell(column, k + 2, slots[k]) in EmptyCells(column, slots, placed, n)
  {
    if n > 0 {
      EmptyCellsComplete(column, slots, placed, n - 1);
      var earlier := EmptyCells(column, slots, placed, n - 1);
      var cells := EmptyCells(column, slots, placed, n);
      assert cells[..|earlier|] == earlier;
      forall k | 0 <= k < n && !Covered(placed, k) ensures EmptyCell(column, k + 2, slots[k]) in cells {
        if k < n - 1 {
          assert EmptyCell(column, k + 2, slots[k]) in cells[..|earlier|];
        } else {
          assert cells[|cells| - 1] == EmptyCell(column, k + 2, slots[k]);
        }
      }
    }
  }

  /** An event whose first occurring slot is `f` is the single event cell of
      a column listing only it: row `f + 2`, spanning its length. */
  lemma {:induction false} SingleEvent(column: int, e: Event, slots: seq<int>, slotLength: int, f: nat, n: nat)
    requires slotLength > 0 && f < |slots| && n <= |slots|
    requires e.OccursAt(slots[f]) && ClearBefore(e, slots, f)
    ensures EventCells(column, [e], slots, slotLength, n)
      == if n > f then [EventCell(column, f + 2, Span(e, slotLength), e)] else []
  {
    if n > 0 {
      SingleEvent(column, e, slots, slotLength, f, n - 1);
      ClaimsSingle(e, slots, f, n - 1);
      SingleEventStep(column, e, slots, slotLength, f, n);
    }
  }

  /** A lone event is claimed at its first occurring slot and nowhere else. */
  lemma ClaimsSingle(e: Event, slots: seq<int>, f: nat, i: nat)
    requires f < |slots| && i < |slots|
    requires e.OccursAt(slots[f]) && ClearBefore(e, slots, f)
    ensures Claims([e], slots, i) == if i == f then [e] else []
  {
    Seqs.FilterSingle(e, FirstAt(slots, i));
    if i < f {
      assert !e.OccursAt(slots[i]);
    } else if i > f {
      assert !ClearBefore(e, slots, i) by {
        assert e.OccursAt(slots[f]);
      }
    }
  }

  lemma SingleEventStep(column: int, e: Event, slots: seq<int>, slotLength: int, f: nat, n: nat)
    requires slotLength > 0 && f < |slots| && 0 < n <= |slots|
    requires EventCells(column, [e], slots, slotLength, n - 1)
      == if n - 1 > f then [EventCell(column, f + 2, Span(e, slotLength), e)] else []
    requires Claims([e], slots, n - 1) == if n - 1 == f then [e] else []
    ensures EventCells(column, [e], slots, slotLength, n)
      == if n > f then [EventCell(column, f + 2, Span(e, slotLength), e)] else []
  {
    var earlier := EventCells(column, [e], slots, slotLength, n - 1);
    var added := CellsAt(column, n + 1, Claims([e], slots, n - 1), slotLength);
    assert EventCells(column, [e], slots, slotLength, n) == earlier + added;
    if n - 1 == f {
      assert added == [EventCell(column, f + 2, Span(e, slotLength), e)];
      assert earlier + added == added;
    } else {
      assert added == [];
      assert earlier + added == earlier;
    }
  }

  /** On the 07:00 to 19:00 quarter-hour grid, an event starting at 10:15
      and lasting 45 minutes is placed once, at the fourteenth slot (row 15),
      spanning three rows. */
  lemma QuarterPastTen(column: int, e: Event)
    requires e.when.Time() == 10 * 60 + 15 && e.duration == 45
    ensures var slots := TimeSlots.Slots(TimeSlots.CalendarGrid());
      EventCells(column, [e], slots, 15, |slots|) == [EventCell(column, 15, 3, e)]
  {
    var slots := TimeSlots.Slots(TimeSlots.CalendarGrid());
    TimeSlots.CalendarGridSlots();
    var d := e.when.Date();
    Arith.DivBetween(e.when.local + 45, MinutesPerDay, d);
    assert e.End().Time() == 11 * 60;
    assert slots[13] == 10 * 60 + 15;
    assert e.OccursAt(slots[13]);
    assert ClearBefore(e, slots, 13);
    assert CeilDiv(45, 15) == 3;
    SingleEvent(column, e, slots, 15, 13, |slots|);
  }

  /** A zero-length event is placed but spans no row, so its slot still gets
      an empty cell. */
  lemma ZeroLengthLeavesSlotEmpty(column: int, e: Event, slots: seq<int>, slotLength: int, f: nat)
    requires slotLength > 0 && f < |slots|
    requires e.duration == 0 && e.OccursAt(slots[f]) && ClearBefore(e, slots, f)
    ensures EventCell(column, f + 2, 0, e) in SourceCells(column, [e], slots, slotLength)
    ensures EmptyCell(column, f + 2, slots[f]) in SourceCells(column, [e], slots, slotLength)
  {
    SingleEvent(column, e, slots, slotLength, f, |slots|);
    var placed := EventCells(column, [e], slots, slotLength, |slots|);
    assert placed == [EventCell(column, f + 2, 0, e)];
    assert !Covered(placed, f);
    EmptyCellsComplete(column, slots, placed, |slots|);
    assert SourceCells(column, [e], slots, slotLength) == placed + EmptyCells(column, slots, placed, |slots|);
  }

  /** Every cell of a source column lies in that column. */
  lemma SourceCellsInColumn(column: int, events: seq<Event>, slots: seq<int>, slotLength: int)
    requires slotLength > 0
    ensures forall c :: c in SourceCells(column, events, slots, slotLength) ==> c.column == column
  {
    var placed := EventCells(column, events, slots, slotLength, |slots|);
    var empties := EmptyCells(column, slots, placed, |slots|);
    PlacedAtFirstSlot(column, events, slots, slotLength, |slots|);
    EmptyCellsShape(column, slots, placed, |slots|);
    forall c: Cell | c in placed + empties ensures c.column == column {
      if c in placed {
        var m :| 0 <= m < |placed| && placed[m] == c;
        assert PlacedFirst(placed[m], column, events, slots, slotLength, |slots|);
      } else {
        var m :| 0 <= m < |empties| && empties[m] == c;
        assert EmptyAtUncovered(empties[m], column, slots, placed, |slots|);
      }
    }
  }

  /** The cells of a day: the selected sources' columns in order, the
      `k`-th source (from 1) in column `k`, showing its events on the day. */
  function DayCells(sources: seq<InMemory>, date: Date, slots: seq<int>, slotLength: int): seq<Cell>
    requires slotLength > 0
    reads sources
  {
    if sources == [] then []
    else
      var earlier := DayCells(sources[..|sources| - 1], date, slots, slotLength);
      earlier + SourceCells(|sources|, sources[|sources| - 1].EventsOn(date), slots, slotLength)
  }

  /** A day's cells lie in the columns of the selected sources. */
  lemma {:induction false} DayCellsColumns(sources: seq<InMemory>, date: Date, slots: seq<int>, slotLength: int)
    requires slotLength > 0
    ensures forall c :: c in DayCells(sources, date, slots, slotLength) ==> 1 <= c.column <= |sources|
  {
    if sources != [] {
      var n := |sources|;
      DayCellsColumns(sources[..n - 1], date, slots, slotLength);
      SourceCellsInColumn(n, sources[n - 1].EventsOn(date), slots, slotLength);
    }
  }

  /** Whether a list of cells holds an event cell. */
  predicate HasEventCell(cells: seq<Cell>)
  {
    exists m :: 0 <= m < |cells| && cells[m].EventCell?
  }

  /** An event shown by a list of cells comes from one of its event cells. */
  lemma {:induction false} EventsOfHasCell(cells: seq<Cell>, e: Event)
    requires e in EventsOf(cells)
    ensures HasEventCell(cells)
  {
    if !cells[0].EventCell? {
      EventsOfHasCell(cells[1..], e);
      var m :| 0 <= m < |cells[1..]| && cells[1..][m].EventCell?;
      assert cells[m + 1].EventCell?;
    }
  }

  /** A listed event that occurs at some slot gets an event cell in its
      source's column. */
  lemma ListedEventPlaced(column: int, events: seq<Event>, slots: seq<int>, slotLength: int, e: Event, i: int)
    requires slotLength > 0 && e in events && 0 <= i < |slots| && e.OccursAt(slots[i])
    ensures HasEventCell(SourceCells(column, events, slots, slotLength))
  {
    var placed := EventCells(column, events, slots, slotLength, |slots|);
    var before := PlacedBefore(slots, |slots|);
    PlacedOnce(column, events, slots, slotLength, |slots|);
    var k :| 0 <= k < |events| && events[k] == e;
    assert before(events[k]);
    Seqs.FilterMembers(events, before);
    assert e in multiset(Seqs.Filter(events, before));
    assert e in multiset(EventsOf(placed));
    EventsOfHasCell(placed, e);
    var m :| 0 <= m < |placed| && placed[m].EventCell?;
    assert SourceCells(column, events, slots, slotLength)[m] == placed[m];
  }

  /** A day column shows an event cell as soon as one of its sources has an
      event on that day occurring at some slot. */
  lemma {:induction false} ShownEventPlaced(sources: seq<InMemory>, date: Date, slots: seq<int>, slotLength: int,
                                            j: int, e: Event, i: int)
    requires slotLength > 0 && 0 <= j < |sources| && e in sources[j].EventsOn(date)
    requires 0 <= i < |slots| && e.OccursAt(slots[i])
    ensures HasEventCell(DayCells(sources, date, slots, slotLength))
  {
    var n := |sources|;
    var earlier := DayCells(sources[..n - 1], date, slots, slotLength);
    var last := SourceCells(n, sources[n - 1].EventsOn(date), slots, slotLength);
    assert DayCells(sources, date, slots, slotLength) == earlier + last;
    if j == n - 1 {
      ListedEventPlaced(n, sources[n - 1].EventsOn(date), slots, slotLength, e, i);
      var m :| 0 <= m < |last| && last[m].EventCell?;
      assert (earlier + last)[|earlier| + m] == last[m];
    } else {
      assert sources[..n - 1][j] == sources[j];
      ShownEventPlaced(sources[..n - 1], date, slots, slotLength, j, e, i);
      var m :| 0 <= m < |earlier| && earlier[m].EventCell?;
      assert (earlier + last)[m] == earlier[m];
    }
  }

  /** The 10:15 event of 45 minutes, held by any source, gives the day it
      starts on an event cell on the calendar's quarter-hour grid. */
  lemma QuarterPastTenShown(sources: seq<InMemory>, j: int, e: Event, date: Date)
    requires 0 <= j < |sources| && e in sources[j].events
    requires e.when.Date() == date && e.when.Time() == 10 * 60 + 15 && e.duration == 45
    ensures HasEventCell(DayCells(sources, date, TimeSlots.Slots(TimeSlots.CalendarGrid()), 15))
  {
    var slots := TimeSlots.Slots(TimeSlots.CalendarGrid());
    TimeSlots.CalendarGridSlots();
    Arith.DivBetween(e.when.local + 45, MinutesPerDay, date);
    assert e.End().Date() == date && e.End().Time() == 11 * 60;
    assert e.OccursOn(date);
    var on := (x: Event) => x.OccursOn(date);
    var k :| 0 <= k < |sources[j].events| && sources[j].events[k] == e;
    Seqs.FilterMembers(sources[j].events, on);
    assert e in sources[j].EventsOn(date);
    assert slots[13] == 10 * 60 + 15;
    ShownEventPlaced(sources, date, slots, 15, j, e, 13);
  }

  /** One day of the week grid: its grid column, whether it is the
      selected day and whether it is today, how many source columns it has,
      and its cells. */
  datatype DayColumn = DayColumn(gridColumn: int, date: Date, selected: bool, today: bool, sourceCount: nat, cells: seq<Cell>)

  /** `buildDayColumn` for the `dateIndex`-th day of the range. */
  method BuildDayColumn(dateIndex: nat, date: Date, selectedDate: Date, today: Date,
                        sources: seq<InMemory>, slots: seq<int>, slotLength: int) returns (day: DayColumn)
    requires slotLength > 0
    ensures day == DayColumn(2 + dateIndex, date, date == selectedDate, date == today, |sources|,
                             DayCells(sources, date, slots, slotLength))
    ensures forall c :: c in day.cells ==> 1 <= c.column <= |sources|
  {
    var cells: seq<Cell> := [];
    for k := 0 to |sources|
      invariant cells == DayCells(sources[..k], date, slots, slotLength)
    {
      var column := BuildSourceColumn(k + 1, sources[k].EventsOn(date), slots, slotLength);
      assert sources[..k + 1][..k] == sources[..k];
      cells := cells + column;
    }
    assert sources[..|sources|] == sources;
    DayCellsColumns(sources, date, slots, slotLength);
    day := DayColumn(2 + dateIndex, date, date == selectedDate, date == today, |sources|, cells);
  }

  /** The week grid: as many day columns as the period has days, as many
      rows as there are slots, and one day column per date of the range. */
  datatype WeekView = WeekView(dayCount: int, rowCount: int, days: seq<DayColumn>)

  /** The day columns of a grid over `range`: the `k`-th date of the range
      in grid column `2 + k`, marked when it is the selected date or today,
      with one column per source showing that source's events on the date. */
  predicate ShowsRange(days: seq<DayColumn>, range: Periods.DateRange, selectedDate: Date, today: Date,
                       sources: seq<InMemory>, slots: seq<int>, slotLength: int)
    requires slotLength > 0
    reads sources
  {
    && |days| == range.Days()
    && forall k :: 0 <= k < |days| ==> days[k] == DayOf(range, k, selectedDate, today, sources, slots, slotLength)
  }

  /** The `k`-th day column of a grid over `range`. */
  function DayOf(range: Periods.DateRange, k: int, selectedDate: Date, today: Date,
                 sources: seq<InMemory>, slots: seq<int>, slotLength: int): DayColumn
    requires slotLength > 0
    reads sources
  {
    var date := range.start + k;
    DayColumn(2 + k, date, date == selectedDate, date == today, |sources|, DayCells(sources, date, slots, slotLength))
  }

  /** `buildWeekView`, used for the day and week views alike. */
  method BuildWeekView(range: Periods.DateRange, period: int, selectedDate: Date, today: Date,
                       sources: seq<InMemory>, slots: seq<int>, slotLength: int) returns (view: WeekView)
    requires slotLength > 0 && range.Days() >= 0
    ensures view.dayCount == period && view.rowCount == |slots|
    ensures ShowsRange(view.days, range, selectedDate, today, sources, slots, slotLength)
  {
    var days: seq<DayColumn> := [];
    for k := 0 to range.Days()
      invariant |days| == k
      invariant forall j :: 0 <= j < k ==> days[j] == DayOf(range, j, selectedDate, today, sources, slots, slotLength)
    {
      var day := BuildDayColumn(k, range.start + k, selectedDate, today, sources, slots, slotLength);
      assert day == DayOf(range, k, selectedDate, today, sources, slots, slotLength);
      days := days + [day];
    }
    view := WeekView(period, |slots|, days);
  }

  /** Whether some date of the range shows an event cell. */
  predicate RangeShowsEvent(range: Periods.DateRange, sources: seq<InMemory>, slots: seq<int>, slotLength: int)
    requires slotLength > 0
    reads sources
  {
    exists d :: range.start <= d <= range.end && HasEventCell(DayCells(sources, d, slots, slotLength))
  }

  /** A grid over a range holds an event cell exactly when some date of the
      range shows one. */
  lemma GridEventCells(days: seq<DayColumn>, range: Periods.DateRange, selectedDate: Date, today: Date,
                       sources: seq<InMemory>, slots: seq<int>, slotLength: int)
    requires slotLength > 0
    requires ShowsRange(days, range, selectedDate, today, sources, slots, slotLength)
    ensures (exists k :: 0 <= k < |days| && HasEventCell(days[k].cells)) <==> RangeShowsEvent(range, sources, slots, slotLength)
  {
    if exists k :: 0 <= k < |days| && HasEventCell(days[k].cells) {
      var k :| 0 <= k < |days| && HasEventCell(days[k].cells);
      assert days[k] == DayOf(range, k, selectedDate, today, sources, slots, slotLength);
      assert range.start <= range.start + k <= range.end;
    }
    if RangeShowsEvent(range, sources, slots, slotLength) {
      var d :| range.start <= d <= range.end && HasEventCell(DayCells(sources, d, slots, slotLength));
      var k := d - range.start;
      assert days[k] == DayOf(range, k, selectedDate, today, sources, slots, slotLength);
      assert HasEventCell(days[k].cells);
    }
  }

  /** A grid over a range holding the start date of the 10:15 event of 45
      minutes, in any of its sources, shows an event cell. */
  lemma QuarterPastTenInRange(range: Periods.DateRange, sources: seq<InMemory>, j: int, e: Event)
    requires 0 <= j < |sources| && e in sources[j].events && range.Contains(e.when.Date())
    requires e.when.Time() == 10 * 60 + 15 && e.duration == 45
    ensures RangeShowsEvent(range, sources, TimeSlots.Slots(TimeSlots.CalendarGrid()), 15)
  {
    QuarterPastTenShown(sources, j, e, e.when.Date());
  }
}
