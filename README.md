# harvest-flex-calculator: expected hours and flex balance

The program compares the hours a user logged in the Harvest time-tracking
service with the hours they were expected to work over a date range, and
prints the difference, the "flex balance". This project models the calendar
arithmetic behind that number and proves properties of it:

- `Dates`: a date is a day number counted from 1970-01-01 (a Thursday), and
  `WeekdayOf` gives the weekday of a day number.
- `ExpectedHours`: `get_expected_weekdays`, the loop that walks every date from
  the start date up to and including the end date and counts the dates that are
  not Saturday or Sunday, at 7.5 hours each. The method is proved equal to
  `ExpectedHours(start, end)`, which is `CountWeekdays(start, end) * 7.5`. The
  lemmas relate `CountWeekdays` to the set of working dates in the range, and
  prove how it behaves when the range is extended, split, shifted or gets full weeks.
- `FlexBalance`: the part of `main` that picks the end date (today when no end
  date is given, and a future end date clamped to today with a notice), the
  above/below decision on `actual - expected`, and one run of the pipeline as a
  method.

The code counts the end date itself: the loop guard is `current_date <=
end_date`. Later revisions of the tool exclude the end date and add a day when
an entry falls on it. This model follows the code as it is, so the range is
closed at both ends.

The code as written at src/main.rs:69 passes the formatted start date and the
end-date string to a function that takes dates, so it does not type-check. The
model counts over what was clearly intended: the parsed start date and the
resolved end date.

## Model

| member | source | states |
|---|---|---|
| `Dates.WeekdayOf` | src/main.rs:15-16 | the weekday of a day number; day 0 (1970-01-01) is a Thursday, matching the calendar `weekday()` reads |
| `Dates.NextDayNextWeekday` | src/main.rs:19 | stepping `current_date` by one day moves to the following weekday |
| `Dates.WeekdayPeriodic` | src/main.rs:15-19 | a date and the date seven days later have the same weekday and are both workdays or both not |
| `ExpectedHours.CountWeekdays` | src/main.rs:13-20 | the number of counted dates in the closed range, each date adding `Counted(d)` (1 from Monday to Friday, 0 on Saturday and Sunday, the match at lines 15-18 that `Dates.IsWorkday` mirrors), is 0 for an empty range and never more than the `end - start + 1` calendar dates in it |
| `ExpectedHours.ExpectedHours` | src/main.rs:9-22 | the expected hours are never negative and are 0 when the start lies after the end |
| `ExpectedHours.GetExpectedWeekdays` | src/main.rs:8-23 | the loop returns 7.5 times the number of Monday-to-Friday dates d with start <= d <= end, the end included; the counter stays between 0 and the number of dates visited and the loop ends because the date rises by one each pass |
| `ExpectedHours.EmptyRange` | src/main.rs:13-14 | when the start is after the end the count and the hours are 0 |
| `ExpectedHours.SingleDay` | src/main.rs:14-18 | a range of one date gives 7.5 hours on Monday to Friday and 0 on Saturday or Sunday |
| `ExpectedHours.ExtendEnd` | src/main.rs:14-19 | moving the end one date later adds exactly 7.5 hours if that date is a weekday and nothing otherwise |
| `ExpectedHours.ExtendStart` | src/main.rs:11-18 | moving the start one date earlier adds exactly that date's contribution |
| `ExpectedHours.Split` | src/main.rs:14-19 | splitting the range after any date counts every date exactly once |
| `ExpectedHours.MonotoneInEnd` | src/main.rs:14-19 | a later end date never gives fewer counted dates or fewer expected hours |
| `ExpectedHours.ShiftByWeek` | src/main.rs:15-19 | shifting the whole range by seven days leaves the count unchanged |
| `ExpectedHours.SlideWeek` | src/main.rs:15-19 | the seven-date run starting one date later has the same count |
| `ExpectedHours.FullWeek` | src/main.rs:15-22 | any seven consecutive dates contribute exactly 5 counted dates, 37.5 hours, whatever weekday they start on |
| `ExpectedHours.FullWeeks` | src/main.rs:15-22 | k whole weeks from any start give exactly 5k counted dates and 37.5k hours |
| `ExpectedHours.AllWorkdays` | src/main.rs:14-22 | the count equals the number of calendar dates in the range exactly when every date in it is a weekday, and then the hours are 7.5 per date |
| `ExpectedHours.CountIsCardinality` | src/main.rs:13-20 | the counter's final value is the size of the set of Monday-to-Friday dates between start and end inclusive |
| `FlexBalance.ResolveEndDate` | src/main.rs:44-59 | the end date is never after today; with no end argument it is today and no notice is printed; with an argument it is that date when the date is not after today, and today otherwise; the notice is printed exactly when the argument lies in the future |
| `FlexBalance.Classify` | src/main.rs:78-88 | the flex balance is actual minus expected hours; it is reported as above expected exactly when it is >= 0, zero included, and as below expected exactly when it is negative |
| `FlexBalance.FlexReport` | src/main.rs:28-88 | a run fails exactly when no start date is given; otherwise the report holds the given start date, the resolved end date (never after today) with its notice flag, the expected hours over that closed range, the logged hours, and the balance classified from them |
| `FlexBalance.ResolveIdempotent` | src/main.rs:44-59 | resolving an already resolved end date keeps it and prints no notice |
| `FlexBalance.ResolveMonotone` | src/main.rs:49-55 | a later end argument never gives an earlier end date |
| `FlexBalance.ZeroBalanceIsAbove` | src/main.rs:84-85 | logging exactly the expected hours is reported as 0 hours above expected |
| `FlexBalance.EmptyRangeIsAbove` | src/main.rs:69-85 | when the start lies after the resolved end nothing is expected, so any non-negative logged hours are reported as above expected |
| `FlexBalance.FutureEndSameAsToday` | src/main.rs:49-55 | a future end argument gives the same expected hours as giving no end argument at all |

## Left out

- Harvest client construction from the environment, the time-entries request
  and its `await` (src/main.rs:62-67, 70-73): a network call into a library that
  is not part of this model, on an asynchronous runtime.
- Summing the entries' `hours` (src/main.rs:74-76): the data comes from the
  remote service and the sum is floating point; the model takes the logged hours
  as one `real` input. The `unwrap` on a missing `hours` field and the `expect`
  on a failed request are left out with it.
- Parsing dates with `NaiveDate::from_str` and formatting them as `%Y-%m-%d`
  (src/main.rs:34-38, 46, 49, 57): string handling in the calendar library. The
  model takes parsed day numbers, so the `unwrap` on a parse failure is not modelled.
- Reading the clock with `Utc::now()` (src/main.rs:42): `today` is a parameter.
- Collecting the arguments, printing, and the green/red colouring (src/main.rs:28,
  53, 80-88): only what the program decides is modelled. It keeps the choice
  between "above" and "below", and whether the future-date notice is printed.
  The missing-start-date `expect` (src/main.rs:30-32) is modelled as an error result.
- ExpectedHours.GetExpectedWeekdays: day numbers are unbounded, so the model does
  not capture the bounded range of `NaiveDate` (about 262,000 years either side of
  year 0). In the source, `current_date + Duration::days(1)` (src/main.rs:19)
  panics once `current_date` is the last representable date, so an end date equal
  to that last date panics where the model returns `ExpectedHours(start, end)`.
  `main` never reaches this, because it clamps the end date to today. The same
  bound, under 2^28 days, is why the model can ignore the `usize` day counter
  wrapping (even a 32-bit `usize` holds it) and the `f64` conversion and
  multiplication by 7.5 (exact below 2^49 days).
