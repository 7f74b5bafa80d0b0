/** The aligned period ("the week containing this date") that the calendar
    shows at once: `getFirstDayOfPeriodRelativeTo` and the inclusive date
    range built from it by `getDateRangeThatIncludes`. */
module Periods {
  import opened Dates
  import opened Arith

  /** The latest date on or before `date` whose weekday is `weekStartsOn`:
      where the backwards walk of the first loop stops. */
  function WeekAnchor(date: Date, weekStartsOn: int): (r: Date)
    requires 1 <= weekStartsOn <= 7
    ensures date - 6 <= r <= date
    ensures DayOfWeek(r) == weekStartsOn
    ensures forall x :: r < x <= date ==> DayOfWeek(x) != weekStartsOn
  {
    date - (DayOfWeek(date) - weekStartsOn + 7) % 7
  }

  /** The first day of the period containing `date`: counting from the week
      anchor in steps of `period` days, the last step not after `date`. */
  function PeriodStart(date: Date, period: int, weekStartsOn: int): Date
    requires period >= 1 && 1 <= weekStartsOn <= 7
  {
    var anchor := WeekAnchor(date, weekStartsOn);
    anchor + ((date - anchor) / period) * period
  }

  /** An inclusive range of dates, `LocalDateRange::of(start, end)`. */
  datatype DateRange = DateRange(start: Date, end: Date)
  {
    predicate Contains(d: Date)
    {
      start <= d <= end
    }

    function Days(): int
    {
      end - start + 1
    }
  }

  /** The range that `getDateRangeThatIncludes` returns, with the end date
      computed as the source does it: `date` plus the days left in the
      period after `date`. */
  function RangeOf(date: Date, period: int, weekStartsOn: int): DateRange
    requires period >= 1 && 1 <= weekStartsOn <= 7
  {
    var start := PeriodStart(date, period, weekStartsOn);
    DateRange(start, date + (period - (date - start) - 1))
  }

  /** The period start is a step of the chunking from the week anchor, and
      the chunk it starts holds `date`. */
  lemma PeriodStartBounds(date: Date, period: int, weekStartsOn: int)
    requires period >= 1 && 1 <= weekStartsOn <= 7
    ensures var s := PeriodStart(date, period, weekStartsOn);
      && WeekAnchor(date, weekStartsOn) <= s <= date < s + period
      && (s - WeekAnchor(date, weekStartsOn)) % period == 0
  {
    var anchor := WeekAnchor(date, weekStartsOn);
    QuotientBounds(date - anchor, period);
    MultipleMod((date - anchor) / period, period);
  }

  /** The range contains the date and is exactly `period` days long. */
  lemma RangeOfContains(date: Date, period: int, weekStartsOn: int)
    requires period >= 1 && 1 <= weekStartsOn <= 7
    ensures RangeOf(date, period, weekStartsOn).Contains(date)
    ensures RangeOf(date, period, weekStartsOn).Days() == period
    ensures RangeOf(date, period, weekStartsOn).start == PeriodStart(date, period, weekStartsOn)
  {
    PeriodStartBounds(date, period, weekStartsOn);
  }

  /** Day view: the range is the date alone. Week view: the range starts on
      the configured first day of the week, at most six days back. */
  lemma RangeOfDayAndWeek(date: Date, weekStartsOn: int)
    requires 1 <= weekStartsOn <= 7
    ensures RangeOf(date, 1, weekStartsOn) == DateRange(date, date)
    ensures var r := RangeOf(date, 7, weekStartsOn);
      && r.start == WeekAnchor(date, weekStartsOn)
      && DayOfWeek(r.start) == weekStartsOn
      && date - 6 <= r.start <= date
      && r.end == r.start + 6
  {
    PeriodStartBounds(date, 1, weekStartsOn);
    PeriodStartBounds(date, 7, weekStartsOn);
  }

  /** Every date of a day or week range lies in that same range, so the
      range does not depend on which of its dates was selected. */
  lemma RangeOfStable(date: Date, other: Date, period: int, weekStartsOn: int)
    requires period == 1 || period == 7
    requires 1 <= weekStartsOn <= 7
    requires RangeOf(date, period, weekStartsOn).Contains(other)
    ensures RangeOf(other, period, weekStartsOn) == RangeOf(date, period, weekStartsOn)
  {
    RangeOfDayAndWeek(date, weekStartsOn);
    RangeOfDayAndWeek(other, weekStartsOn);
    if period == 7 {
      var a, b := WeekAnchor(date, weekStartsOn), WeekAnchor(other, weekStartsOn);
      assert a <= other <= a + 6;
      if a < b {
        DayOfWeekDistinct(a, b);
      } else if b < a {
        DayOfWeekDistinct(b, a);
      }
    }
  }

  /** Stepping the selected date by one period (the navigation buttons)
      moves the range by exactly one period. */
  lemma RangeOfNext(date: Date, period: int, weekStartsOn: int)
    requires period == 1 || period == 7
    requires 1 <= weekStartsOn <= 7
    ensures RangeOf(date + period, period, weekStartsOn).start == RangeOf(date, period, weekStartsOn).start + period
  {
    RangeOfDayAndWeek(date, weekStartsOn);
    RangeOfDayAndWeek(date + period, weekStartsOn);
    if period == 7 {
      var a, b := WeekAnchor(date, weekStartsOn), WeekAnchor(date + 7, weekStartsOn);
      DayOfWeekPeriodic(a);
      if b > a + 7 {
        DayOfWeekPeriodic(b - 7);
        assert false;
      }
    }
  }

  /** `getFirstDayOfPeriodRelativeTo`: walk back one day at a time to the
      configured first day of the week, then collect period starts forward
      while they are not after `date`, and take the last one collected. */
  method FirstDayOfPeriodRelativeTo(date: Date, period: int, weekStartsOn: int) returns (first: Date)
    requires period >= 1 && 1 <= weekStartsOn <= 7
    ensures first == PeriodStart(date, period, weekStartsOn)
    ensures first <= date < first + period
    ensures period == 7 ==> DayOfWeek(first) == weekStartsOn
  {
    var anchor := WeekAnchor(date, weekStartsOn);
    var startsFrom := date;
    while DayOfWeek(startsFrom) != weekStartsOn
      invariant anchor <= startsFrom <= date
      decreases startsFrom - anchor
    {
      startsFrom := startsFrom - 1;
    }
    assert startsFrom == anchor;

    var periods: seq<Date> := [];
    ghost var k := 0;
    while startsFrom <= date
      invariant k >= 0 && |periods| == k
      invariant startsFrom == anchor + k * period
      invariant k > 0 ==> periods[k - 1] == startsFrom - period && startsFrom - period <= date
      decreases date - startsFrom
    {
      periods := periods + [startsFrom];
      startsFrom := startsFrom + period;
      assert (k + 1) * period == k * period + period;
      k := k + 1;
    }
    assert k > 0;
    first := periods[|periods| - 1];
    assert first == anchor + (k - 1) * period by {
      assert k * period == (k - 1) * period + period;
    }
    DivBetween(date - anchor, period, k - 1);
    PeriodStartBounds(date, period, weekStartsOn);
    RangeOfDayAndWeek(date, weekStartsOn);
  }

  /** Monday week start: 2024-08-27 (a Tuesday) lies in the week
      2024-08-26 .. 2024-09-01. */
  lemma WeekOfAugust27()
    ensures DayOfWeek(19962) == 2
    ensures RangeOf(19962, 7, 1) == DateRange(19961, 19967)
  {
    assert (19962 + 3) % 7 == 1;
    assert WeekAnchor(19962, 1) == 19961;
    assert PeriodStart(19962, 7, 1) == 19961 + (1 / 7) * 7 == 19961;
  }
}
