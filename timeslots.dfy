/** The vertical axis of the day and week views: the times of day from
    `earliest` to `latest`, both inclusive, every `duration` minutes.

    The value never changes after construction, so it is a datatype here.
    Time-of-day addition wraps at midnight (`LocalTime::plusDuration`), and
    the generating loop stops only at the first value after `latest`. The
    model writes the wrap-around out and asks that generation never wraps
    past midnight (`Generates`). That excludes every wrapping grid, both
    those whose loop never ends (`allHours`) and those whose loop ends after
    yielding a wrapped time. */
module TimeSlots {
  import opened Wrappers
  import opened Dates
  import opened Arith
  import Strings

  datatype TimeSlots = TimeSlots(earliest: TimeOfDay, latest: TimeOfDay, duration: int)

  /** How many values from `earliest` in steps of `duration` are at most
      `latest`. */
  function SlotCount(ts: TimeSlots): nat
    requires ts.duration > 0
  {
    if ts.earliest > ts.latest then 0 else (ts.latest - ts.earliest) / ts.duration + 1
  }

  /** The slots as an arithmetic sequence (the reference definition). */
  function Slots(ts: TimeSlots): seq<int>
    requires ts.duration > 0
  {
    seq(SlotCount(ts), i requires 0 <= i < SlotCount(ts) => ts.earliest + i * ts.duration)
  }

  /** The grids whose generation never wraps past midnight: a positive
      step, and the first value after the last slot is still before
      midnight. On these the loop yields exactly the arithmetic sequence
      and stops. */
  predicate Generates(ts: TimeSlots)
  {
    ts.duration > 0 &&
    (ts.earliest > ts.latest || ts.earliest + SlotCount(ts) * ts.duration < MinutesPerDay)
  }

  /** A slot index is below the count exactly when its time is not after
      `latest`. */
  lemma SlotWithin(ts: TimeSlots, k: nat)
    requires ts.duration > 0
    ensures (ts.earliest + k * ts.duration <= ts.latest) == (k < SlotCount(ts))
  {
    if ts.earliest <= ts.latest {
      var q := (ts.latest - ts.earliest) / ts.duration;
      if k <= q {
        MulMonotone(k, q, ts.duration);
      } else {
        MulMonotone(q + 1, k, ts.duration);
      }
    }
  }

  /** What the source promises of the generated times: the first is
      `earliest`, each next one is the previous plus `duration`, all are at
      most `latest`, and the value after the last is past `latest`. */
  lemma SlotsShape(ts: TimeSlots)
    requires ts.duration > 0
    ensures var s := Slots(ts);
      && (|s| > 0 ==> s[0] == ts.earliest)
      && (forall i :: 0 <= i < |s| - 1 ==> s[i + 1] == s[i] + ts.duration)
      && (forall i :: 0 <= i < |s| ==> ts.earliest <= s[i] <= ts.latest)
      && (|s| > 0 ==> s[|s| - 1] + ts.duration > ts.latest)
  {
    var s := Slots(ts);
    forall i | 0 <= i < |s| - 1 ensures s[i + 1] == s[i] + ts.duration {
      assert (i + 1) * ts.duration == i * ts.duration + ts.duration;
    }
    forall i | 0 <= i < |s| ensures ts.earliest <= s[i] <= ts.latest {
      SlotWithin(ts, i);
    }
    if |s| > 0 {
      SlotWithin(ts, |s|);
      assert (|s| - 1) * ts.duration + ts.duration == |s| * ts.duration;
    }
  }

  /** Both bounds are inclusive: when the span is a whole number of steps,
      `latest` is the final slot. */
  lemma LatestIncluded(ts: TimeSlots)
    requires ts.duration > 0 && ts.earliest <= ts.latest
    requires (ts.latest - ts.earliest) % ts.duration == 0
    ensures |Slots(ts)| > 0 && Slots(ts)[|Slots(ts)| - 1] == ts.latest
  {
    var q := (ts.latest - ts.earliest) / ts.duration;
    assert q * ts.duration == ts.latest - ts.earliest;
  }

  /** `earliest` after `latest` gives no slots at all. */
  lemma EmptyWhenReversed(ts: TimeSlots)
    requires ts.duration > 0 && ts.earliest > ts.latest
    ensures Slots(ts) == [] && Count(ts) == 0
  {
  }

  /** A grid that ends one step or more before midnight never wraps. */
  lemma GeneratesWhenLatestEarly(ts: TimeSlots)
    requires ts.duration > 0 && ts.latest + ts.duration < MinutesPerDay
    ensures Generates(ts)
  {
    if ts.earliest <= ts.latest {
      SlotWithin(ts, SlotCount(ts) - 1);
    }
  }

  /** `getIterator` / `__toArray`: step a local time from `earliest` while it
      is not after `latest`, adding `duration` with wrap-around at midnight. */
  method Generate(ts: TimeSlots) returns (slots: seq<int>)
    requires Generates(ts)
    ensures slots == Slots(ts)
  {
    slots := [];
    var time: int := ts.earliest;
    while time <= ts.latest
      invariant |slots| <= SlotCount(ts)
      invariant time == ts.earliest + |slots| * ts.duration
      invariant slots == Slots(ts)[..|slots|]
      decreases SlotCount(ts) - |slots|
    {
      SlotWithin(ts, |slots|);
      assert (|slots| + 1) * ts.duration == |slots| * ts.duration + ts.duration;
      slots := slots + [time];
      MulMonotone(|slots|, SlotCount(ts), ts.duration);
      time := (time + ts.duration) % MinutesPerDay;
    }
    SlotWithin(ts, |slots|);
  }

  /** `contains`: walk the generated times and report whether one equals `t`. */
  method Contains(ts: TimeSlots, t: int) returns (found: bool)
    requires Generates(ts)
    ensures found <==> t in Slots(ts)
  {
    var time: int := ts.earliest;
    ghost var k: nat := 0;
    while time <= ts.latest
      invariant k <= SlotCount(ts)
      invariant time == ts.earliest + k * ts.duration
      invariant t !in Slots(ts)[..k]
      decreases SlotCount(ts) - k
    {
      SlotWithin(ts, k);
      if time == t {
        assert Slots(ts)[k] == t;
        return true;
      }
      assert Slots(ts)[..k + 1] == Slots(ts)[..k] + [time];
      assert (k + 1) * ts.duration == k * ts.duration + ts.duration;
      k := k + 1;
      MulMonotone(k, SlotCount(ts), ts.duration);
      time := (time + ts.duration) % MinutesPerDay;
    }
    SlotWithin(ts, k);
    assert Slots(ts)[..k] == Slots(ts);
    return false;
  }

  /** `count`: the number of generated slots, characterised without the
      loop: zero for a reversed grid, otherwise the largest `n` such that
      the `n`-th slot is not after `latest`. */
  function Count(ts: TimeSlots): (n: nat)
    requires Generates(ts)
    ensures n == |Slots(ts)|
    ensures n == 0 <==> ts.earliest > ts.latest
    ensures n > 0 ==> ts.earliest + (n - 1) * ts.duration <= ts.latest < ts.earliest + n * ts.duration
  {
    var n := SlotCount(ts);
    if n == 0 then n else
      SlotWithin(ts, n - 1);
      SlotWithin(ts, n);
      n
  }

  /** `typicalWorkDay`: 09:00 to 17:00 every 15 minutes. */
  function TypicalWorkDay(): TimeSlots
  {
    TimeSlots(9 * 60, 17 * 60, 15)
  }

  /** `allHours`: 00:00 to 23:59 with the given step. */
  function AllHours(duration: int): TimeSlots
  {
    TimeSlots(0, 23 * 60 + 59, duration)
  }

  /** The grid every calendar uses: 07:00 to 19:00 every 15 minutes. */
  function CalendarGrid(): TimeSlots
  {
    TimeSlots(7 * 60, 19 * 60, 15)
  }

  /** The typical work day has 33 slots, 09:00 through 17:00. */
  lemma TypicalWorkDaySlots()
    ensures Generates(TypicalWorkDay())
    ensures var s := Slots(TypicalWorkDay()); |s| == 33 && s[0] == 9 * 60 && s[32] == 17 * 60
  {
  }

  /** The calendar grid has 49 slots, 07:00 through 19:00. */
  lemma CalendarGridSlots()
    ensures Generates(CalendarGrid())
    ensures var s := Slots(CalendarGrid()); |s| == 49 && s[0] == 7 * 60 && s[48] == 19 * 60
  {
  }

  /** `allHours` always wraps: its last slot plus one step reaches midnight
      and wraps back into the day, so its loop never ends. */
  lemma AllHoursNeverStops(duration: int)
    ensures !Generates(AllHours(duration))
  {
    var ts := AllHours(duration);
    if duration > 0 {
      SlotWithin(ts, SlotCount(ts));
    }
  }

  datatype ParseError = InvalidFormat | MissingDuration

  /** The three texts `parse` hands to `LocalTime::parse` and
      `Duration::parse`. */
  datatype SlotTexts = SlotTexts(earliest: string, latest: string, duration: string)

  /** The splitting done by `parse`: `<earliest>-<latest>/<duration>`. Text
      without `-` is rejected; a remainder without `/` leaves the duration
      missing, which the duration parser rejects. */
  function ParseTexts(s: string): (r: Result<SlotTexts, ParseError>)
    ensures r == Err(InvalidFormat) <==> '-' !in s
    ensures r.Ok? ==> s == r.value.earliest + ['-'] + r.value.latest + ['/'] + r.value.duration
    ensures r.Ok? ==> '-' !in r.value.earliest && '/' !in r.value.latest
  {
    var parts := Strings.SplitOnce(s, '-');
    if |parts| != 2 then Err(InvalidFormat)
    else
      var rest := Strings.SplitOnce(parts[1], '/');
      if |rest| != 2 then Err(MissingDuration)
      else
        ghost var a, b, c := parts[0], rest[0], rest[1];
        assert s == a + ['-'] + (b + ['/'] + c);
        Strings.ConcatRegroup(a, '-', b, '/', c);
        Ok(SlotTexts(parts[0], rest[0], rest[1]))
  }

  /** Parsing the written form of three texts gives them back, so the
      latest time is the text up to the first `/` and the duration all the
      rest, even when the rest contains `-` or `/`. */
  lemma {:induction false} ParseTextsRoundTrip(e: string, l: string, d: string)
    requires '-' !in e && '/' !in l
    ensures ParseTexts(e + "-" + l + "/" + d) == Ok(SlotTexts(e, l, d))
  {
    var s := e + "-" + l + "/" + d;
    assert s == e + ['-'] + (l + "/" + d);
    Strings.SplitOnceAt(e, l + "/" + d, '-');
    assert l + "/" + d == l + ['/'] + d;
    Strings.SplitOnceAt(l, d, '/');
  }
}
