/** Expected working hours over a date range: `get_expected_weekdays`.

    The program walks every date from the start date up to and INCLUDING
    the end date, counts the dates that are neither Saturday nor Sunday, and
    multiplies the count by a fixed 7.5 hours per day.
 */
module ExpectedHours {
  import opened Dates

  /** The working hours expected of one weekday. 7.5 is exact as a real. */
  const HOURS_PER_DAY: real := 7.5

  /** What one date adds to the day counter: 0 on Saturday and Sunday,
      1 on every other weekday. */
  function Counted(d: Day): nat {
    if IsWorkday(d) then 1 else 0
  }

  /** The number of Monday-to-Friday dates d with start <= d <= end. */
  function CountWeekdays(start: Day, end: Day): (c: nat)
    ensures end < start ==> c == 0
    ensures c <= if end < start then 0 else end - start + 1
    decreases end - start
  {
    if end < start then 0 else CountWeekdays(start, end - 1) + Counted(end)
  }

  /** The hours `get_expected_weekdays` promises for the closed range. */
  function ExpectedHours(start: Day, end: Day): (h: real)
    ensures 0.0 <= h
    ensures end < start ==> h == 0.0
  {
    CountWeekdays(start, end) as real * HOURS_PER_DAY
  }

  /** The set of working dates in the closed range: an independent
      description of what CountWeekdays counts. */
  function WorkdaysBetween(start: Day, end: Day): set<Day> {
    set d | start <= d <= end && IsWorkday(d)
  }

  /** The loop of `get_expected_weekdays`: `current` runs from `startDate`
      while it is <= `endDate`, and `totalDays` gains 1 for each date that is
      not a Saturday or Sunday. */
  method GetExpectedWeekdays(startDate: Day, endDate: Day) returns (hours: real)
    ensures hours == ExpectedHours(startDate, endDate)
  {
    var current := startDate;
    var totalDays: nat := 0;
    while current <= endDate
      invariant current == startDate || startDate <= current <= endDate + 1
      invariant totalDays == CountWeekdays(startDate, current - 1)
      invariant totalDays <= current - startDate
      decreases endDate - current
    {
      totalDays := totalDays + Counted(current);
      current := current + 1;
    }
    hours := totalDays as real * HOURS_PER_DAY;
  }

  /** A range whose start lies after its end holds no date: the loop body
      never runs and the result is 0. */
  lemma EmptyRange(start: Day, end: Day)
    requires end < start
    ensures CountWeekdays(start, end) == 0
    ensures ExpectedHours(start, end) == 0.0
  {
  }

  /** A single date is worth 7.5 hours on Monday to Friday and 0 on Saturday
      and Sunday. */
  lemma SingleDay(d: Day)
    ensures CountWeekdays(d, d) == (if IsWorkday(d) then 1 else 0)
    ensures ExpectedHours(d, d) == (if IsWorkday(d) then 7.5 else 0.0)
  {
  }

  /** Moving the end one date later adds exactly that date's contribution:
      7.5 hours if it is a weekday, nothing otherwise. */
  lemma ExtendEnd(start: Day, end: Day)
    requires start <= end + 1
    ensures CountWeekdays(start, end + 1) == CountWeekdays(start, end) + Counted(end + 1)
    ensures ExpectedHours(start, end + 1)
         == ExpectedHours(start, end) + (if IsWorkday(end + 1) then 7.5 else 0.0)
  {
  }

  /** Moving the start one date earlier adds exactly that date's contribution. */
  lemma {:induction false} ExtendStart(start: Day, end: Day)
    requires start <= end
    ensures CountWeekdays(start, end) == Counted(start) + CountWeekdays(start + 1, end)
    decreases end - start
  {
    if start < end {
      ExtendStart(start, end - 1);
    }
  }

  /** Splitting a range after any date m counts every date exactly once. */
  lemma {:induction false} Split(start: Day, m: Day, end: Day)
    requires start - 1 <= m <= end
    ensures CountWeekdays(start, end) == CountWeekdays(start, m) + CountWeekdays(m + 1, end)
    decreases end - m
  {
    if m < end {
      Split(start, m, end - 1);
    }
  }

  /** A later end never lowers the expected hours. */
  lemma {:induction false} MonotoneInEnd(start: Day, end1: Day, end2: Day)
    requires end1 <= end2
    ensures CountWeekdays(start, end1) <= CountWeekdays(start, end2)
    ensures ExpectedHours(start, end1) <= ExpectedHours(start, end2)
    decreases end2 - end1
  {
    if end1 < end2 {
      MonotoneInEnd(start, end1, end2 - 1);
    }
  }

  /** Shifting a whole range by a week leaves the count unchanged. */
  lemma {:induction false} ShiftByWeek(start: Day, end: Day)
    ensures CountWeekdays(start + 7, end + 7) == CountWeekdays(start, end)
    decreases end - start
  {
    if start <= end {
      ShiftByWeek(start, end - 1);
      WeekdayPeriodic(end);
    }
  }

  /** Seven consecutive dates hold exactly five weekdays, 37.5 hours,
      whichever weekday the run starts on. */
  lemma {:induction false} FullWeek(start: Day)
    ensures CountWeekdays(start, start + 6) == 5
    ensures ExpectedHours(start, start + 6) == 37.5
    decreases if start < 0 then -start else start
  {
    if start == 0 {
      assert CountWeekdays(0, 6) == 5;
    } else if start > 0 {
      FullWeek(start - 1);
      SlideWeek(start - 1);
    } else {
      FullWeek(start + 1);
      SlideWeek(start);
    }
  }

  /** The week starting one date later counts the same, since the date that
      leaves and the date that enters are seven days apart. */
  lemma SlideWeek(s: Day)
    ensures CountWeekdays(s + 1, s + 7) == CountWeekdays(s, s + 6)
  {
    ExtendStart(s, s + 7);
    WeekdayPeriodic(s);
  }

  /** k whole weeks from any start hold exactly 5 * k weekdays. */
  lemma {:induction false} FullWeeks(start: Day, k: nat)
    ensures CountWeekdays(start, start + 7 * k - 1) == 5 * k
    ensures ExpectedHours(start, start + 7 * k - 1) == 37.5 * k as real
  {
    if k > 0 {
      FullWeeks(start, k - 1);
      Split(start, start + 7 * (k - 1) - 1, start + 7 * k - 1);
      FullWeek(start + 7 * (k - 1));
    }
  }

  /** The count reaches the number of calendar dates in a range exactly when
      every date in it is a weekday; then the hours are 7.5 per date. */
  lemma {:induction false} AllWorkdays(start: Day, end: Day)
    requires start <= end + 1
    ensures CountWeekdays(start, end) == end - start + 1
        <==> forall d :: start <= d <= end ==> IsWorkday(d)
    ensures (forall d :: start <= d <= end ==> IsWorkday(d))
        ==> ExpectedHours(start, end) == (end - start + 1) as real * 7.5
    decreases end - start
  {
    if start <= end {
      AllWorkdays(start, end - 1);
      if !IsWorkday(end) {
        assert CountWeekdays(start, end) == CountWeekdays(start, end - 1);
      }
    }
  }

  /** CountWeekdays is the size of the set of working dates in the range. */
  lemma {:induction false} CountIsCardinality(start: Day, end: Day)
    ensures CountWeekdays(start, end) == |WorkdaysBetween(start, end)|
    decreases end - start
  {
    if end < start {
      assert WorkdaysBetween(start, end) == {};
    } else {
      CountIsCardinality(start, end - 1);
      var below := WorkdaysBetween(start, end - 1);
      if IsWorkday(end) {
        assert WorkdaysBetween(start, end) == below + {end};
        assert end !in below;
      } else {
        assert WorkdaysBetween(start, end) == below;
      }
    }
  }
}
