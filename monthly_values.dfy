/**
 The time series builder: one entry per calendar month from a start date,
 stepping with "+32 days, then day 1" until the step passes the end date.
 SeriesFrom is the recursive definition of what the loop returns;
 CalculateMonthlyValues is the loop itself, proved to return the same.
 */
module MonthlyValues {
  import opened Wrappers
  import opened Calendar
  import opened DateFormat
  import opened EarthEngine

  /** One `{date, value}` entry; a missing value is `None`. */
  datatype MonthlyValue = MonthlyValue(date: string, value: Option<real>)

  /** The exceptions the request path can raise. */
  datatype Error =
    | ValueError(message: string)      // raised on purpose; the handler turns it into a 400 reply
    | OverflowError                    // a date past year 9999
    | UnboundLocalError(name: string)  // `image` read although no branch assigned it

  /** Prepends entries already produced to the outcome of the rest of the loop. */
  function Prepend(done: seq<MonthlyValue>, rest: Result<seq<MonthlyValue>, Error>): (r: Result<seq<MonthlyValue>, Error>)
    ensures r.Ok? <==> rest.Ok?
    ensures r.Ok? ==> r.value == done + rest.value
    ensures r.Err? ==> r.error == rest.error
  {
    match rest
    case Ok(s) => Ok(done + s)
    case Err(e) => Err(e)
  }

  lemma PrependTwice(done: seq<MonthlyValue>, more: seq<MonthlyValue>, rest: Result<seq<MonthlyValue>, Error>)
    ensures Prepend(done, Prepend(more, rest)) == Prepend(done + more, rest)
  {
    if rest.Ok? {
      assert done + (more + rest.value) == (done + more) + rest.value;
    }
  }

  lemma PrependNothing(done: seq<MonthlyValue>, rest: Result<seq<MonthlyValue>, Error>)
    ensures Prepend([], rest) == rest
    ensures Prepend(done, Ok([])) == Ok(done)
  {
    if rest.Ok? {
      assert [] + rest.value == rest.value;
    }
    assert done + [] == done;
  }

  /** The collection whose emptiness short-circuits a month, for SM and LST. */
  function GuardedCollection(f: Feature): string
    requires f == SM || f == LST
  {
    if f == SM then SmapCollection else ModisLstCollection
  }

  /** One month's value over the window [start, end]: no value when an SM or LST collection is empty. */
  function MonthValue(f: Feature, svc: Service, w: Window): (r: Result<Option<real>, Error>)
    ensures r.Err? <==> f == Unsupported
    ensures r.Err? ==> r.error == UnboundLocalError("image")
    ensures (f == SM || f == LST) && svc.isEmpty(GuardedCollection(f), w) ==> r == Ok(None)
    ensures r.Ok? && !((f == SM || f == LST) && svc.isEmpty(GuardedCollection(f), w)) ==>
      (r.value.Some? <==> ResultKey(f) in svc.reduceMean(MonthlyImage(f, w)))
    ensures r.Ok? && r.value.Some? ==>
      ResultKey(f) in svc.reduceMean(MonthlyImage(f, w)) &&
      r.value.value == svc.reduceMean(MonthlyImage(f, w))[ResultKey(f)]
  {
    if f == Unsupported then Err(UnboundLocalError("image"))
    else if (f == SM || f == LST) && svc.isEmpty(GuardedCollection(f), w) then Ok(None)
    else Ok(Get(svc.reduceMean(MonthlyImage(f, w)), ResultKey(f)))
  }

  /** The step stays within Python's dates, and the month's last day lies between the two. */
  lemma StepInRange(current: Date)
    requires ValidDate(current) && InRange(current)
    requires AddDays(current, StepDays).year <= MaxYear
    ensures ValidDate(NextMonthStart(current)) && InRange(NextMonthStart(current))
    ensures InRange(PrevDay(NextMonthStart(current)))
    ensures NotAfter(current, PrevDay(NextMonthStart(current)))
    ensures MonthIndex(current) < MonthIndex(NextMonthStart(current))
  {
    NextMonthStartAdvances(current);
    var next := NextMonthStart(current);
    var last := PrevDay(next);
    assert MonthIndex(last) == MonthIndex(next) - 1;
    MonthIndexMonotone(current, next);
  }

  /**
   What the loop returns when started at `current`: at most one entry per
   month from current's month through end's month, the first dated current.
   */
  function SeriesFrom(current: Date, end: Date, f: Feature, svc: Service): (r: Result<seq<MonthlyValue>, Error>)
    requires ValidDate(current) && InRange(current) && ValidDate(end)
    ensures r.Ok? && |r.value| > 0 ==> NotAfter(current, end)
    ensures r.Ok? && |r.value| > 0 ==> |r.value| <= MonthIndex(end) - MonthIndex(current) + 1
    ensures r.Ok? && |r.value| > 0 ==> r.value[0].date == Format(current)
    decreases MonthIndex(end) - MonthIndex(current)
  {
    if !NotAfter(current, end) then Ok([])
    else if AddDays(current, StepDays).year > MaxYear then Err(OverflowError)
    else
      StepInRange(current);
      MonthIndexMonotone(current, end);
      var next := NextMonthStart(current);
      var w := Window(Format(current), Format(PrevDay(next)));
      match MonthValue(f, svc, w)
      case Err(e) => Err(e)
      case Ok(v) => Prepend([MonthlyValue(Format(current), v)], SeriesFrom(next, end, f, svc))
  }

  /** One unfolding of SeriesFrom: the month at `current`, then the rest from the step's result. */
  lemma SeriesStep(current: Date, end: Date, f: Feature, svc: Service)
    requires ValidDate(current) && InRange(current) && ValidDate(end)
    requires NotAfter(current, end) && AddDays(current, StepDays).year <= MaxYear
    ensures ValidDate(NextMonthStart(current)) && InRange(NextMonthStart(current))
    ensures InRange(PrevDay(NextMonthStart(current)))
    ensures SeriesFrom(current, end, f, svc) ==
      var next := NextMonthStart(current);
      var w := Window(Format(current), Format(PrevDay(next)));
      match MonthValue(f, svc, w)
      case Err(e) => Err(e)
      case Ok(v) => Prepend([MonthlyValue(Format(current), v)], SeriesFrom(next, end, f, svc))
  {
    StepInRange(current);
  }

  /** `calculate_monthly_values(start_date, end_date, roi, feature)` with the dates already parsed. */
  method CalculateMonthlyValues(start: Date, end: Date, feature: Feature, svc: Service)
    returns (r: Result<seq<MonthlyValue>, Error>)
    requires ValidDate(start) && InRange(start) && ValidDate(end) && InRange(end)
    ensures r == SeriesFrom(start, end, feature, svc)
  {
    var current := start;
    var monthlyValues: seq<MonthlyValue> := [];
    PrependNothing(monthlyValues, SeriesFrom(start, end, feature, svc));
    while NotAfter(current, end)
      invariant ValidDate(current) && InRange(current)
      invariant SeriesFrom(start, end, feature, svc) == Prepend(monthlyValues, SeriesFrom(current, end, feature, svc))
      decreases MonthIndex(end) - MonthIndex(current)
    {
      MonthIndexMonotone(current, end);
      var shifted := AddDays(current, StepDays);
      if shifted.year > MaxYear {
        return Err(OverflowError);
      }
      var nextDate := shifted.(day := 1);
      SeriesStep(current, end, feature, svc);
      StepInRange(current);
      assert nextDate == NextMonthStart(current);
      var monthStart := Format(current);
      var monthEnd := Format(PrevDay(nextDate));
      var window := Window(monthStart, monthEnd);
      var image: Image;
      if feature == NDVI {
        image := MeanNormalizedDifference(SentinelCollection, window);
      } else if feature == SM {
        if svc.isEmpty(SmapCollection, window) {
          assert MonthValue(feature, svc, window) == Ok(None);
          PrependTwice(monthlyValues, [MonthlyValue(monthStart, None)], SeriesFrom(nextDate, end, feature, svc));
          monthlyValues := monthlyValues + [MonthlyValue(monthStart, None)];
          current := nextDate;
          continue;
        }
        image := BandMean(SmapCollection, SoilMoistureBand, window, Unconverted);
      } else if feature == LST {
        if svc.isEmpty(ModisLstCollection, window) {
          assert MonthValue(feature, svc, window) == Ok(None);
          PrependTwice(monthlyValues, [MonthlyValue(monthStart, None)], SeriesFrom(nextDate, end, feature, svc));
          monthlyValues := monthlyValues + [MonthlyValue(monthStart, None)];
          current := nextDate;
          continue;
        }
        image := BandMean(ModisLstCollection, LstBand, window, KelvinToCelsius);
      } else {
        return Err(UnboundLocalError("image"));
      }
      var value := svc.reduceMean(image);
      assert MonthValue(feature, svc, window) == Ok(Get(value, ResultKey(feature)));
      PrependTwice(monthlyValues, [MonthlyValue(monthStart, Get(value, ResultKey(feature)))], SeriesFrom(nextDate, end, feature, svc));
      monthlyValues := monthlyValues + [MonthlyValue(monthStart, Get(value, ResultKey(feature)))];
      current := nextDate;
    }
    PrependNothing(monthlyValues, SeriesFrom(current, end, feature, svc));
    return Ok(monthlyValues);
  }
}
