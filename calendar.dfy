/**
 The proleptic Gregorian calendar as Python's `datetime` uses it: dates are
 (year, month, day) triples, a `timedelta` of n days moves n steps along the
 calendar, and `replace(day=1)` overwrites the day field.
 */
module Calendar {

  /** Python's `datetime.MINYEAR` and `datetime.MAXYEAR`. */
  const MinYear: int := 1
  const MaxYear: int := 9999

  datatype Date = Date(year: int, month: int, day: int)

  /** The Gregorian leap-year rule. */
  predicate IsLeapYear(y: int) {
    y % 4 == 0 && (y % 100 != 0 || y % 400 == 0)
  }

  function DaysInMonth(y: int, m: int): (n: int)
    ensures 28 <= n <= 31
    ensures n == 28 <==> m == 2 && !IsLeapYear(y)
    ensures n == 29 <==> m == 2 && IsLeapYear(y)
    ensures n == 30 <==> m == 4 || m == 6 || m == 9 || m == 11
  {
    if m == 2 then (if IsLeapYear(y) then 29 else 28)
    else if m == 4 || m == 6 || m == 9 || m == 11 then 30
    else 31
  }

  /** A real calendar day (the year is not bounded here; see InRange). */
  predicate ValidDate(d: Date) {
    1 <= d.month <= 12 && 1 <= d.day <= DaysInMonth(d.year, d.month)
  }

  /** The years a Python `datetime` can hold. */
  predicate InRange(d: Date) {
    MinYear <= d.year <= MaxYear
  }

  /** Chronological `<=` on dates, as Python compares two datetimes at midnight. */
  predicate NotAfter(a: Date, b: Date) {
    a.year < b.year ||
    (a.year == b.year && (a.month < b.month || (a.month == b.month && a.day <= b.day)))
  }

  predicate Before(a: Date, b: Date) {
    NotAfter(a, b) && a != b
  }

  /** Months counted from January of year 0; consecutive months differ by one. */
  function MonthIndex(d: Date): int {
    d.year * 12 + d.month - 1
  }

  /** The first day of the month with the given index. */
  function MonthFromIndex(k: int): (d: Date)
    ensures ValidDate(d) && d.day == 1 && MonthIndex(d) == k
  {
    Date(k / 12, k % 12 + 1, 1)
  }

  /** The first day of the calendar month after d's month. */
  function FollowingMonth(d: Date): (f: Date)
    requires ValidDate(d)
    ensures ValidDate(f) && f.day == 1
    ensures MonthIndex(f) == MonthIndex(d) + 1
  {
    if d.month == 12 then Date(d.year + 1, 1, 1) else Date(d.year, d.month + 1, 1)
  }

  /** The last day of d's month. */
  function LastDayOfMonth(d: Date): (l: Date)
    requires ValidDate(d)
    ensures ValidDate(l) && l.year == d.year && l.month == d.month
    ensures NotAfter(d, l)
    ensures l.day == DaysInMonth(d.year, d.month)
  {
    Date(d.year, d.month, DaysInMonth(d.year, d.month))
  }

  /** `d + timedelta(days=1)` */
  function NextDay(d: Date): (n: Date)
    requires ValidDate(d)
    ensures ValidDate(n) && Before(d, n)
  {
    if d.day < DaysInMonth(d.year, d.month) then d.(day := d.day + 1)
    else FollowingMonth(d)
  }

  /** `d - timedelta(days=1)` */
  function PrevDay(d: Date): (p: Date)
    requires ValidDate(d)
    ensures ValidDate(p) && Before(p, d)
  {
    if d.day > 1 then d.(day := d.day - 1)
    else if d.month > 1 then Date(d.year, d.month - 1, DaysInMonth(d.year, d.month - 1))
    else Date(d.year - 1, 12, 31)
  }

  /** `d + timedelta(days=n)` for n >= 0, one day at a time. */
  function AddDays(d: Date, n: nat): (r: Date)
    requires ValidDate(d)
    ensures ValidDate(r)
    ensures n > 0 ==> Before(d, r)
    decreases n
  {
    if n == 0 then d else AddDays(NextDay(d), n - 1)
  }

  /** The `timedelta(days=32)` of the monthly loop. */
  const StepDays: nat := 32

  /** The step of the monthly loop: `(d + timedelta(days=32)).replace(day=1)`. */
  function NextMonthStart(d: Date): Date
    requires ValidDate(d)
  {
    AddDays(d, StepDays).(day := 1)
  }

  // ---------------------------------------------------------------------------
  // Ordering

  /** Ordering on first-of-month dates is ordering on month indices. */
  lemma NotAfterByMonthIndex(a: Date, b: Date)
    requires ValidDate(a) && ValidDate(b) && a.day == 1
    ensures NotAfter(a, b) <==> MonthIndex(a) <= MonthIndex(b)
  {
  }

  lemma BeforeByMonthIndex(a: Date, b: Date)
    requires ValidDate(a) && ValidDate(b)
    requires MonthIndex(a) < MonthIndex(b)
    ensures Before(a, b)
  {
  }

  lemma MonthIndexMonotone(a: Date, b: Date)
    requires ValidDate(a) && ValidDate(b) && NotAfter(a, b)
    ensures MonthIndex(a) <= MonthIndex(b)
  {
  }

  // ---------------------------------------------------------------------------
  // Day steps

  /** Stepping forward and back are inverse. */
  lemma PrevDayNextDay(d: Date)
    requires ValidDate(d)
    ensures PrevDay(NextDay(d)) == d
    ensures NextDay(PrevDay(d)) == d
  {
  }

  /** The day before the first of the following month is the month's last day. */
  lemma MonthEndIsLastDay(d: Date)
    requires ValidDate(d)
    ensures PrevDay(FollowingMonth(d)) == LastDayOfMonth(d)
    ensures NotAfter(d.(day := 1), PrevDay(FollowingMonth(d)))
  {
  }

  lemma {:induction false} AddDaysSplit(d: Date, a: nat, b: nat)
    requires ValidDate(d)
    ensures AddDays(d, a + b) == AddDays(AddDays(d, a), b)
    decreases a
  {
    if a > 0 {
      AddDaysSplit(NextDay(d), a - 1, b);
    }
  }

  /** Adding days that stay inside the month only moves the day field. */
  lemma {:induction false} AddDaysWithinMonth(d: Date, n: nat)
    requires ValidDate(d) && d.day + n <= DaysInMonth(d.year, d.month)
    ensures AddDays(d, n) == d.(day := d.day + n)
    decreases n
  {
    if n > 0 {
      AddDaysWithinMonth(NextDay(d), n - 1);
    }
  }

  /** Adding days that leave the month passes through the first of the following month. */
  lemma {:induction false} AddDaysAcrossMonth(d: Date, n: nat)
    requires ValidDate(d) && d.day + n > DaysInMonth(d.year, d.month)
    ensures AddDays(d, n) == AddDays(FollowingMonth(d), n - (DaysInMonth(d.year, d.month) - d.day) - 1)
  {
    var k := DaysInMonth(d.year, d.month) - d.day;
    AddDaysSplit(d, k, n - k);
    AddDaysWithinMonth(d, k);
  }

  /**
   From the first of a month, 32 days later is day 33 - L of the following
   month, where L is the length of the starting month: day 2, 3, 4 or 5.
   */
  lemma ThirtyTwoDaysFromFirst(d: Date)
    requires ValidDate(d) && d.day == 1
    ensures AddDays(d, StepDays) == FollowingMonth(d).(day := 33 - DaysInMonth(d.year, d.month))
    ensures 2 <= AddDays(d, StepDays).day <= 5
  {
    var f := FollowingMonth(d);
    AddDaysAcrossMonth(d, 32);
    AddDaysWithinMonth(f, 32 - DaysInMonth(d.year, d.month));
  }

  /**
   The "+32 days, then day 1" step lands exactly on the first of the following
   month when it starts on the first of a month: for every month length,
   February of leap and common years, and December into January.
   */
  lemma NextMonthStartFromFirst(d: Date)
    requires ValidDate(d) && d.day == 1
    ensures NextMonthStart(d) == FollowingMonth(d)
    ensures PrevDay(NextMonthStart(d)) == LastDayOfMonth(d)
  {
    ThirtyTwoDaysFromFirst(d);
    MonthEndIsLastDay(d);
  }

  /**
   From any day the step lands on the first of a later month, one or two
   months on; so the loop variable strictly increases.
   */
  lemma NextMonthStartAdvances(d: Date)
    requires ValidDate(d)
    ensures ValidDate(NextMonthStart(d)) && NextMonthStart(d).day == 1
    ensures MonthIndex(d) < MonthIndex(NextMonthStart(d)) <= MonthIndex(d) + 2
    ensures Before(d, NextMonthStart(d))
  {
    var f := FollowingMonth(d);
    var rest := 32 - (DaysInMonth(d.year, d.month) - d.day) - 1;
    AddDaysAcrossMonth(d, 32);
    if 1 + rest <= DaysInMonth(f.year, f.month) {
      AddDaysWithinMonth(f, rest);
    } else {
      var g := FollowingMonth(f);
      AddDaysAcrossMonth(f, rest);
      AddDaysWithinMonth(g, rest - (DaysInMonth(f.year, f.month) - 1) - 1);
    }
    BeforeByMonthIndex(d, NextMonthStart(d));
  }

  /** Started on the 31st of January the step skips February altogether. */
  lemma NextMonthStartSkipsFebruary()
    ensures NextMonthStart(Date(2023, 1, 31)) == Date(2023, 3, 1)
  {
    AddDaysAcrossMonth(Date(2023, 1, 31), 32);
    AddDaysAcrossMonth(Date(2023, 2, 1), 31);
    AddDaysWithinMonth(Date(2023, 3, 1), 3);
  }

  // ---------------------------------------------------------------------------
  // Day ordinals: Python's `date.toordinal()`, which counts 0001-01-01 as day 1

  function DaysBeforeYear(y: int): int {
    var p := y - 1;
    p * 365 + p / 4 - p / 100 + p / 400
  }

  function DaysBeforeMonth(y: int, m: int): (n: int)
    requires 1 <= m <= 13
    ensures n >= 0
    decreases m
  {
    if m == 1 then 0 else DaysBeforeMonth(y, m - 1) + DaysInMonth(y, m - 1)
  }

  function ToOrdinal(d: Date): int
    requires ValidDate(d)
  {
    DaysBeforeYear(d.year) + DaysBeforeMonth(d.year, d.month) + d.day
  }

  /** Multiples of 4, 100 and 400 advance the corresponding quotient by one. */
  lemma QuotientSteps(y: int)
    ensures y / 4 - (y - 1) / 4 == if y % 4 == 0 then 1 else 0
    ensures y / 100 - (y - 1) / 100 == if y % 100 == 0 then 1 else 0
    ensures y / 400 - (y - 1) / 400 == if y % 400 == 0 then 1 else 0
  {
  }

  lemma DivisibleBy400(y: int)
    requires y % 400 == 0
    ensures y % 100 == 0 && y % 4 == 0
  {
    var q := y / 400;
    assert y == 100 * (4 * q);
    assert y == 4 * (100 * q);
  }

  lemma DivisibleBy100(y: int)
    requires y % 100 == 0
    ensures y % 4 == 0
  {
    var q := y / 100;
    assert y == 4 * (25 * q);
  }

  /** The twelve month lengths add up to the length of the year. */
  lemma MonthsMakeYear(y: int)
    ensures DaysBeforeMonth(y, 13) == if IsLeapYear(y) then 366 else 365
  {
  }

  /** Consecutive years start 365 days apart, 366 after a leap year. */
  lemma YearLength(y: int)
    ensures DaysBeforeYear(y + 1) - DaysBeforeYear(y) == DaysBeforeMonth(y, 13)
  {
    MonthsMakeYear(y);
    QuotientSteps(y);
    if y % 400 == 0 {
      DivisibleBy400(y);
    } else if y % 100 == 0 {
      DivisibleBy100(y);
    }
  }

  /** One calendar step is one ordinal day: AddDays is Python's day arithmetic. */
  lemma OrdinalNextDay(d: Date)
    requires ValidDate(d)
    ensures ToOrdinal(NextDay(d)) == ToOrdinal(d) + 1
  {
    var y := d.year;
    if d.day < DaysInMonth(y, d.month) {
      assert NextDay(d) == d.(day := d.day + 1);
    } else if d.month < 12 {
      assert NextDay(d) == Date(y, d.month + 1, 1);
      assert DaysBeforeMonth(y, d.month + 1) == DaysBeforeMonth(y, d.month) + d.day;
    } else {
      assert NextDay(d) == Date(y + 1, 1, 1);
      assert DaysBeforeMonth(y, 13) == DaysBeforeMonth(y, 12) + 31;
      YearLength(y);
    }
  }

  lemma {:induction false} OrdinalAddDays(d: Date, n: nat)
    requires ValidDate(d)
    ensures ToOrdinal(AddDays(d, n)) == ToOrdinal(d) + n
    decreases n
  {
    if n > 0 {
      OrdinalNextDay(d);
      OrdinalAddDays(NextDay(d), n - 1);
    }
  }

  lemma OrdinalPrevDay(d: Date)
    requires ValidDate(d)
    ensures ToOrdinal(PrevDay(d)) == ToOrdinal(d) - 1
  {
    PrevDayNextDay(d);
    OrdinalNextDay(PrevDay(d));
  }
}
