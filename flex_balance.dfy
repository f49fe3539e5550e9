/** The decisions `main` makes around the weekday count: which end date the
    range gets, and whether the flex balance is reported as above or below
    expected. The arguments arrive already parsed into day numbers, `today`
    is a parameter instead of a clock reading, and the hours logged in the
    time-tracking service arrive as one opaque number.
 */
module FlexBalance {
  import opened Dates
  import ExpectedHours

  datatype Option<T> = None | Some(value: T)

  datatype Result<T, E> = Ok(value: T) | Err(error: E)

  /** Why the program gives up before it computes anything. */
  datatype Error = MissingStartDate

  /** The end date of the range, and whether the program prints its notice
      that a future end date was changed to today. */
  datatype EndDate = EndDate(day: Day, movedToToday: bool)

  /** End-date resolution: today when no end date is given, otherwise the
      given date brought back to today when it lies in the future. */
  function ResolveEndDate(endArg: Option<Day>, today: Day): (r: EndDate)
    ensures r.day <= today
    ensures endArg.None? ==> r == EndDate(today, false)
    ensures endArg.Some? ==> r.day <= endArg.value && (r.day == endArg.value || r.day == today)
    ensures r.movedToToday <==> endArg.Some? && today < endArg.value
  {
    match endArg
    case None => EndDate(today, false)
    case Some(parsedDate) =>
      if parsedDate <= today then EndDate(parsedDate, false) else EndDate(today, true)
  }

  /** How the balance line reads: "<flex> hour(s) above expected" or
      "<flex> hour(s) below expected". */
  datatype Balance = Above(flex: real) | Below(flex: real)

  /** Balance classification: the flex balance is actual minus expected
      hours, and a balance of exactly zero is reported as above expected. */
  function Classify(actualHours: real, expectedHours: real): (b: Balance)
    ensures b.flex == actualHours - expectedHours
    ensures b.Above? <==> expectedHours <= actualHours
    ensures b.Below? <==> actualHours < expectedHours
  {
    var flexBalance := actualHours - expectedHours;
    if flexBalance >= 0.0 then Above(flexBalance) else Below(flexBalance)
  }

  /** Everything the program reports for one run. */
  datatype Report = Report(
    startDate: Day,
    endDate: Day,
    movedToToday: bool,
    expectedHours: real,
    actualHours: real,
    balance: Balance)

  /** One run of `main`: settle the range, count the expected hours over the
      start date and the settled end date, and classify the balance. */
  method FlexReport(startArg: Option<Day>, endArg: Option<Day>, today: Day, actualHours: real)
    returns (r: Result<Report, Error>)
    ensures r.Err? <==> startArg.None?
    ensures r.Ok? ==> r.value.startDate == startArg.value
    ensures r.Ok? ==> r.value.endDate <= today
    ensures r.Ok? ==> EndDate(r.value.endDate, r.value.movedToToday) == ResolveEndDate(endArg, today)
    ensures r.Ok? ==> r.value.expectedHours == ExpectedHours.ExpectedHours(r.value.startDate, r.value.endDate)
    ensures r.Ok? ==> r.value.actualHours == actualHours
    ensures r.Ok? ==> r.value.balance == Classify(actualHours, r.value.expectedHours)
  {
    if startArg.None? {
      return Err(MissingStartDate);
    }
    var startDate := startArg.value;
    var end := ResolveEndDate(endArg, today);
    var expectedHours := ExpectedHours.GetExpectedWeekdays(startDate, end.day);
    var flexBalance := Classify(actualHours, expectedHours);
    r := Ok(Report(startDate, end.day, end.movedToToday, expectedHours, actualHours, flexBalance));
  }

  /** A resolved end date is a fixed point: resolving it again keeps it and
      prints no notice. */
  lemma ResolveIdempotent(endArg: Option<Day>, today: Day)
    ensures ResolveEndDate(Some(ResolveEndDate(endArg, today).day), today)
         == EndDate(ResolveEndDate(endArg, today).day, false)
  {
  }

  /** A later end argument never gives an earlier end date. */
  lemma ResolveMonotone(a: Day, b: Day, today: Day)
    requires a <= b
    ensures ResolveEndDate(Some(a), today).day <= ResolveEndDate(Some(b), today).day
  {
  }

  /** Logging exactly the expected hours is reported as above expected. */
  lemma ZeroBalanceIsAbove(hours: real)
    ensures Classify(hours, hours) == Above(0.0)
  {
  }

  /** Over a range that expects nothing (the start after the settled end),
      any non-negative amount of logged hours counts as above expected. */
  lemma EmptyRangeIsAbove(startDate: Day, endArg: Option<Day>, today: Day, actualHours: real)
    requires 0.0 <= actualHours
    requires ResolveEndDate(endArg, today).day < startDate
    ensures Classify(actualHours, ExpectedHours.ExpectedHours(startDate, ResolveEndDate(endArg, today).day)).Above?
  {
  }

  /** Moving a future end argument back to today changes nothing in the
      expected hours compared with asking for today directly. */
  lemma FutureEndSameAsToday(startDate: Day, endDay: Day, today: Day)
    requires today < endDay
    ensures ExpectedHours.ExpectedHours(startDate, ResolveEndDate(Some(endDay), today).day)
         == ExpectedHours.ExpectedHours(startDate, ResolveEndDate(None, today).day)
  {
  }
}
