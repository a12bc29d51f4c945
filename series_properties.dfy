/**
 What the monthly loop produces, stated without the "+32 days" step: when it
 starts on the first of a month it yields exactly one entry per calendar
 month from the start month through the month holding the end date, each
 dated on the month's first day and valued with the month's first and last
 day passed as the `filterDate` window.
 */
module SeriesProperties {
  import opened Wrappers
  import opened Calendar
  import opened DateFormat
  import opened EarthEngine
  import opened MonthlyValues

  /** The first day of the i-th month counted from start's month. */
  function MonthAt(start: Date, i: nat): (d: Date)
    ensures ValidDate(d) && d.day == 1 && MonthIndex(d) == MonthIndex(start) + i
  {
    MonthFromIndex(MonthIndex(start) + i)
  }

  /** The number of calendar months from start's month through end's month. */
  function MonthCount(start: Date, end: Date): (n: nat)
    ensures n > 0 <==> MonthIndex(start) <= MonthIndex(end)
    ensures n > 0 ==> MonthIndex(start) + n - 1 == MonthIndex(end)
  {
    if MonthIndex(start) <= MonthIndex(end) then MonthIndex(end) - MonthIndex(start) + 1 else 0
  }

  /** The `filterDate` arguments the loop passes for a month: its first day and its last day. */
  function MonthWindow(d: Date): Window
    requires ValidDate(d) && InRange(d)
  {
    Window(Format(d), Format(LastDayOfMonth(d)))
  }

  /**
   The days `filterDate(start, end)` keeps: from the start date up to, but
   not including, the end date.
   */
  predicate InFilterWindow(day: Date, w: Window) {
    Parse(w.start).Some? && Parse(w.end).Some? &&
    NotAfter(Parse(w.start).value, day) && Before(day, Parse(w.end).value)
  }

  /** As written: the window the loop passes keeps every day of the month but its last. */
  lemma MonthWindowMissesLastDay(d: Date, day: Date)
    requires ValidDate(d) && InRange(d) && d.day == 1 && ValidDate(day)
    ensures InFilterWindow(day, MonthWindow(d)) <==>
      day.year == d.year && day.month == d.month && day.day < DaysInMonth(d.year, d.month)
    ensures !InFilterWindow(LastDayOfMonth(d), MonthWindow(d))
  {
    ParseFormat(d);
    ParseFormat(LastDayOfMonth(d));
  }

  /** The window that keeps the whole month: its first day and the following month's first day. */
  function FullMonthWindow(d: Date): (w: Window)
    requires ValidDate(d) && InRange(d) && InRange(FollowingMonth(d))
    ensures Parse(w.start) == Some(d) && Parse(w.end) == Some(FollowingMonth(d))
  {
    ParseFormat(d);
    ParseFormat(FollowingMonth(d));
    Window(Format(d), Format(FollowingMonth(d)))
  }

  /** Corrected: a day is in the full-month window exactly when it lies in d's month. */
  lemma FullMonthWindowKeepsMonth(d: Date, day: Date)
    requires ValidDate(d) && InRange(d) && d.day == 1 && InRange(FollowingMonth(d)) && ValidDate(day)
    ensures InFilterWindow(day, FullMonthWindow(d)) <==> day.year == d.year && day.month == d.month
  {
    var w := FullMonthWindow(d);
    assert InFilterWindow(day, w) <==> NotAfter(d, day) && Before(day, FollowingMonth(d));
  }

  /** The entry expected for the month starting on d. */
  function ReferenceEntry(d: Date, f: Feature, svc: Service): MonthlyValue
    requires ValidDate(d) && InRange(d) && f != Unsupported
  {
    MonthlyValue(Format(d), MonthValue(f, svc, MonthWindow(d)).value)
  }

  /** The inputs the only caller passes: a start on a month's first day and Python dates. */
  predicate SeriesInputs(start: Date, end: Date) {
    ValidDate(start) && InRange(start) && start.day == 1 && ValidDate(end) && InRange(end)
  }

  /** The end date lies before December of the last year Python can hold. */
  predicate BeforeLastMonth(end: Date) {
    MonthIndex(end) < MonthIndex(Date(MaxYear, 12, 1))
  }

  /** First-of-month dates are determined by their month index. */
  lemma FirstOfMonthUnique(a: Date, b: Date)
    requires ValidDate(a) && ValidDate(b) && a.day == 1 && b.day == 1
    requires MonthIndex(a) == MonthIndex(b)
    ensures a == b
  {
  }

  /** s holds, in order, the expected entry of each month from start's month through end's month. */
  ghost predicate IsMonthlySeries(s: seq<MonthlyValue>, start: Date, end: Date, f: Feature, svc: Service)
    requires f != Unsupported
  {
    |s| == MonthCount(start, end) &&
    forall i :: 0 <= i < |s| ==>
      InRange(MonthAt(start, i)) && s[i] == ReferenceEntry(MonthAt(start, i), f, svc)
  }

  /** From the first of a month the loop passes the month's first and last day as the window and steps to the following month. */
  lemma SeriesStepFromFirst(d: Date, end: Date, f: Feature, svc: Service)
    requires ValidDate(d) && InRange(d) && d.day == 1 && ValidDate(end)
    requires NotAfter(d, end) && BeforeLastMonth(d)
    ensures InRange(FollowingMonth(d))
    ensures SeriesFrom(d, end, f, svc) ==
      match MonthValue(f, svc, MonthWindow(d))
      case Err(e) => Err(e)
      case Ok(v) => Prepend([MonthlyValue(Format(d), v)], SeriesFrom(FollowingMonth(d), end, f, svc))
  {
    ThirtyTwoDaysFromFirst(d);
    NextMonthStartFromFirst(d);
    SeriesStep(d, end, f, svc);
  }

  /** Prepending the month starting on d to a series from the following month gives the series from d. */
  lemma ConsMonthlySeries(rest: seq<MonthlyValue>, d: Date, end: Date, f: Feature, svc: Service)
    requires ValidDate(d) && InRange(d) && d.day == 1 && f != Unsupported
    requires MonthIndex(d) <= MonthIndex(end)
    requires IsMonthlySeries(rest, FollowingMonth(d), end, f, svc)
    ensures IsMonthlySeries([ReferenceEntry(d, f, svc)] + rest, d, end, f, svc)
  {
    var s := [ReferenceEntry(d, f, svc)] + rest;
    FirstOfMonthUnique(MonthAt(d, 0), d);
    forall i | 0 <= i < |s|
      ensures InRange(MonthAt(d, i)) && s[i] == ReferenceEntry(MonthAt(d, i), f, svc)
    {
      if i > 0 {
        FirstOfMonthUnique(MonthAt(FollowingMonth(d), i - 1), MonthAt(d, i));
        assert s[i] == rest[i - 1];
      }
    }
  }

  /** The loop from the first of a month produces the expected entry of each month through end's month. */
  lemma {:induction false} SeriesFromFirst(d: Date, end: Date, f: Feature, svc: Service)
    requires SeriesInputs(d, end) && BeforeLastMonth(end) && f != Unsupported
    ensures SeriesFrom(d, end, f, svc).Ok?
    ensures IsMonthlySeries(SeriesFrom(d, end, f, svc).value, d, end, f, svc)
    decreases MonthIndex(end) - MonthIndex(d)
  {
    NotAfterByMonthIndex(d, end);
    if MonthIndex(d) <= MonthIndex(end) {
      SeriesStepFromFirst(d, end, f, svc);
      var next := FollowingMonth(d);
      SeriesFromFirst(next, end, f, svc);
      ConsMonthlySeries(SeriesFrom(next, end, f, svc).value, d, end, f, svc);
    }
  }

  /**
   The closed form of the series: with a start on the first of a month, one
   entry per calendar month from the start month through the end month,
   in order, each the month's expected entry.
   */
  lemma MonthlySeries(start: Date, end: Date, f: Feature, svc: Service)
    requires SeriesInputs(start, end) && BeforeLastMonth(end) && f != Unsupported
    ensures SeriesFrom(start, end, f, svc).Ok?
    ensures IsMonthlySeries(SeriesFrom(start, end, f, svc).value, start, end, f, svc)
  {
    SeriesFromFirst(start, end, f, svc);
  }

  /** Each entry is dated, as `YYYY-MM-DD`, on the first day of its month. */
  lemma SeriesDatesAreMonthStarts(s: seq<MonthlyValue>, start: Date, end: Date, f: Feature, svc: Service, i: nat)
    requires f != Unsupported && IsMonthlySeries(s, start, end, f, svc) && i < |s|
    ensures Parse(s[i].date) == Some(MonthAt(start, i))
    ensures InRange(MonthAt(start, i)) && s[i].date != MonthWindow(MonthAt(start, i)).end
  {
    var d := MonthAt(start, i);
    ParseFormat(d);
    ParseFormat(LastDayOfMonth(d));
  }

  /** Entry dates strictly increase along the series. */
  lemma SeriesDatesIncrease(s: seq<MonthlyValue>, start: Date, end: Date, f: Feature, svc: Service, i: nat, j: nat)
    requires f != Unsupported && IsMonthlySeries(s, start, end, f, svc) && i < j < |s|
    ensures Parse(s[i].date).Some? && Parse(s[j].date).Some?
    ensures Before(Parse(s[i].date).value, Parse(s[j].date).value)
  {
    SeriesDatesAreMonthStarts(s, start, end, f, svc, i);
    SeriesDatesAreMonthStarts(s, start, end, f, svc, j);
    BeforeByMonthIndex(MonthAt(start, i), MonthAt(start, j));
  }

  /** The first entry is the start date and the last is the first day of the end date's month. */
  lemma SeriesEnds(s: seq<MonthlyValue>, start: Date, end: Date, f: Feature, svc: Service)
    requires SeriesInputs(start, end) && f != Unsupported && IsMonthlySeries(s, start, end, f, svc)
    ensures |s| > 0 <==> NotAfter(start, end)
    ensures |s| > 0 ==> s[0].date == Format(start)
    ensures |s| > 0 ==> s[|s| - 1].date == Format(end.(day := 1))
  {
    NotAfterByMonthIndex(start, end);
    if |s| > 0 {
      FirstOfMonthUnique(MonthAt(start, 0), start);
      FirstOfMonthUnique(MonthAt(start, |s| - 1), end.(day := 1));
    }
  }

  /**
   Month values: for SM and LST an empty month gives `None` without raising;
   otherwise, and always for NDVI, the value is the reduced dictionary's
   entry under the feature's key.
   */
  lemma SeriesValues(s: seq<MonthlyValue>, start: Date, end: Date, f: Feature, svc: Service, i: nat)
    requires f != Unsupported && IsMonthlySeries(s, start, end, f, svc) && i < |s|
    ensures InRange(MonthAt(start, i))
    ensures var w := MonthWindow(MonthAt(start, i));
      s[i].value ==
        if f != NDVI && svc.isEmpty(GuardedCollection(f), w) then None
        else Get(svc.reduceMean(MonthlyImage(f, w)), ResultKey(f))
  {
  }

  /**
   With the key as written, a soil-moisture series from a band-keyed service
   is null in every month, whether or not the month has data.
   */
  lemma SoilMoistureSeriesAllNull(s: seq<MonthlyValue>, start: Date, end: Date, svc: Service, i: nat)
    requires BandKeyed(svc) && IsMonthlySeries(s, start, end, SM, svc) && i < |s|
    ensures s[i].value == None
  {
    SoilMoistureKeyNeverFound(MonthWindow(MonthAt(start, i)), svc);
  }

  /**
   The loop raises OverflowError when it reaches December 9999, since the
   step would leave Python's date range.
   */
  lemma {:induction false} SeriesOverflows(d: Date, end: Date, f: Feature, svc: Service)
    requires SeriesInputs(d, end) && f != Unsupported
    requires end.year == MaxYear && end.month == 12
    ensures SeriesFrom(d, end, f, svc) == Err(OverflowError)
    decreases MonthIndex(end) - MonthIndex(d)
  {
    NotAfterByMonthIndex(d, end);
    if BeforeLastMonth(d) {
      SeriesStepFromFirst(d, end, f, svc);
      SeriesOverflows(FollowingMonth(d), end, f, svc);
    } else {
      ThirtyTwoDaysFromFirst(d);
    }
  }

  /** From any start, the loop raises nothing but OverflowError or UnboundLocalError. */
  lemma {:induction false} SeriesErrors(current: Date, end: Date, f: Feature, svc: Service)
    requires ValidDate(current) && InRange(current) && ValidDate(end)
    ensures SeriesFrom(current, end, f, svc).Err? ==>
      SeriesFrom(current, end, f, svc).error in {OverflowError, UnboundLocalError("image")}
    decreases MonthIndex(end) - MonthIndex(current)
  {
    if NotAfter(current, end) && AddDays(current, StepDays).year <= MaxYear {
      StepInRange(current);
      MonthIndexMonotone(current, end);
      SeriesStep(current, end, f, svc);
      SeriesErrors(NextMonthStart(current), end, f, svc);
    }
  }

  /**
   From any start: an empty series when the start is after the end, and for
   an unsupported feature an UnboundLocalError on the first month.
   */
  lemma SeriesFirstStep(current: Date, end: Date, f: Feature, svc: Service)
    requires ValidDate(current) && InRange(current) && ValidDate(end)
    ensures !NotAfter(current, end) ==> SeriesFrom(current, end, f, svc) == Ok([])
    ensures NotAfter(current, end) && AddDays(current, StepDays).year <= MaxYear && f == Unsupported ==>
      SeriesFrom(current, end, f, svc) == Err(UnboundLocalError("image"))
  {
    if NotAfter(current, end) && AddDays(current, StepDays).year <= MaxYear {
      SeriesStep(current, end, f, svc);
    }
  }
}
