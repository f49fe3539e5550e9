/** Calendar days as integer day numbers and the weekday of a day.

    A date is the number of days since 1970-01-01 (day 0), which was a
    Thursday; earlier dates are negative. Stepping to the next date
    (`current_date + Duration::days(1)`) is adding 1, and comparing two
    dates is comparing their numbers.
 */
module Dates {

  /** A calendar date, counted in days from 1970-01-01. */
  type Day = int

  datatype Weekday = Mon | Tue | Wed | Thu | Fri | Sat | Sun

  /** The weekday that follows `w`. */
  function Next(w: Weekday): Weekday {
    match w
    case Mon => Tue
    case Tue => Wed
    case Wed => Thu
    case Thu => Fri
    case Fri => Sat
    case Sat => Sun
    case Sun => Mon
  }

  /** The weekday of day `d`; day 0 (1970-01-01) is a Thursday. Dafny's `%`
      never gives a negative remainder, so this also holds before 1970. */
  function WeekdayOf(d: Day): (w: Weekday)
    ensures d == 0 ==> w == Thu
  {
    var r := d % 7;
    if r == 0 then Thu
    else if r == 1 then Fri
    else if r == 2 then Sat
    else if r == 3 then Sun
    else if r == 4 then Mon
    else if r == 5 then Tue
    else Wed
  }

  /** Monday to Friday: every weekday except Saturday and Sunday. */
  predicate IsWorkday(d: Day) {
    match WeekdayOf(d)
    case Sat | Sun => false
    case _ => true
  }

  /** The day after `d` falls on the weekday after `d`'s. */
  lemma NextDayNextWeekday(d: Day)
    ensures WeekdayOf(d + 1) == Next(WeekdayOf(d))
  {
    assert (d + 1) % 7 == if d % 7 == 6 then 0 else d % 7 + 1;
  }

  /** The weekday repeats every seven days. */
  lemma WeekdayPeriodic(d: Day)
    ensures WeekdayOf(d + 7) == WeekdayOf(d)
    ensures IsWorkday(d + 7) == IsWorkday(d)
  {
    assert (d + 7) % 7 == d % 7;
  }
}
