/**
  The reporting period of the billing report: the first day of the current
  month and the day before the first day of the next month, capped at "now".
  Dates follow Python's `datetime`: proleptic Gregorian calendar, years
  1 to 9999, and an ordinal day number that is 1 on 0001-01-01.
 */
module Calendar {
  import opened Wrappers

  const MinYear := 1
  const MaxYear := 9999
  const MicrosPerDay := 86_400_000_000

  /** A naive `datetime`; hour, minute, second and microsecond are folded
      into one time-of-day field, counted in microseconds since midnight. */
  datatype DateTime = DateTime(year: int, month: int, day: int, micros: int)

  /** What `strftime('%Y-%m-%d')` shows of a `datetime`. */
  datatype Date = Date(year: int, month: int, day: int)

  predicate IsLeapYear(y: int)
  {
    y % 4 == 0 && (y % 100 != 0 || y % 400 == 0)
  }

  function DaysInYear(y: int): int
  {
    if IsLeapYear(y) then 366 else 365
  }

  function DaysInMonth(y: int, m: int): (n: int)
    requires 1 <= m <= 12
    ensures 28 <= n <= 31
    ensures n == 29 <==> m == 2 && IsLeapYear(y)
  {
    if m == 2 then (if IsLeapYear(y) then 29 else 28)
    else if m == 4 || m == 6 || m == 9 || m == 11 then 30
    else 31
  }

  /** Days in the years before `y`. */
  function DaysBeforeYear(y: int): int
    requires y >= MinYear
  {
    if y == MinYear then 0 else DaysBeforeYear(y - 1) + DaysInYear(y - 1)
  }

  /** Days in the months of year `y` before month `m`. */
  function DaysBeforeMonth(y: int, m: int): int
    requires 1 <= m <= 12
  {
    [0, 31, 59, 90, 120, 151, 181, 212, 243, 273, 304, 334][m - 1]
    + (if m > 2 && IsLeapYear(y) then 1 else 0)
  }

  /** Python's `date.toordinal()`: 0001-01-01 is day 1. */
  function Ordinal(d: Date): int
    requires d.year >= MinYear && 1 <= d.month <= 12
  {
    DaysBeforeYear(d.year) + DaysBeforeMonth(d.year, d.month) + d.day
  }

  ghost predicate ValidDate(d: Date)
  {
    MinYear <= d.year <= MaxYear && 1 <= d.month <= 12 && 1 <= d.day <= DaysInMonth(d.year, d.month)
  }

  function DateOf(t: DateTime): Date
  {
    Date(t.year, t.month, t.day)
  }

  ghost predicate Valid(t: DateTime)
  {
    ValidDate(DateOf(t)) && 0 <= t.micros < MicrosPerDay
  }

  /** `a < b` on dates: lexicographic on year, month and day. */
  predicate DateBefore(a: Date, b: Date)
  {
    || a.year < b.year
    || (a.year == b.year && a.month < b.month)
    || (a.year == b.year && a.month == b.month && a.day < b.day)
  }

  /** `a < b` on datetimes: lexicographic on date, then time of day. On
      valid datetimes this is chronological order: an earlier day number,
      or the same day and an earlier time. */
  function Before(a: DateTime, b: DateTime): (r: bool)
    ensures Valid(a) && Valid(b) ==>
      (r <==> || Ordinal(DateOf(a)) < Ordinal(DateOf(b))
              || (Ordinal(DateOf(a)) == Ordinal(DateOf(b)) && a.micros < b.micros))
  {
    OrdinalOrder(DateOf(a), DateOf(b));
    OrdinalOrder(DateOf(b), DateOf(a));
    DateBefore(DateOf(a), DateOf(b)) || (DateOf(a) == DateOf(b) && a.micros < b.micros)
  }

  /** `now.replace(day=1)`: the first day of the month, at the same time. */
  function StartOfMonth(now: DateTime): (r: DateTime)
    requires Valid(now)
    ensures Valid(r) && r.micros == now.micros
    ensures r.year == now.year && r.month == now.month
    ensures Ordinal(DateOf(r)) + now.day - 1 == Ordinal(DateOf(now))
  {
    now.(day := 1)
  }

  /** The first day of the next month (`replace(month=...+1, day=1)`, or
      `replace(year=...+1, month=1, day=1)` in December). In December of
      the last representable year `replace` raises, which is `None` here. */
  function NextMonthStart(now: DateTime): (r: Option<DateTime>)
    requires Valid(now)
    ensures r.None? <==> now.month == 12 && now.year == MaxYear
    ensures r.Some? ==> Valid(r.value) && r.value.day == 1 && r.value.micros == now.micros
    ensures r.Some? && now.month == 12 ==> r.value.year == now.year + 1 && r.value.month == 1
    ensures r.Some? && now.month < 12 ==> r.value.year == now.year && r.value.month == now.month + 1
  {
    if now.month == 12 then
      if now.year + 1 > MaxYear then None
      else Some(DateTime(now.year + 1, 1, 1, now.micros))
    else
      Some(now.(month := now.month + 1, day := 1))
  }

  /** `t - timedelta(days=1)`; defined for every valid datetime but the first day of year 1. */
  function DayBefore(t: DateTime): (r: DateTime)
    requires Valid(t) && DateOf(t) != Date(MinYear, 1, 1)
    ensures Valid(r) && r.micros == t.micros
  {
    if t.day > 1 then t.(day := t.day - 1)
    else if t.month > 1 then t.(month := t.month - 1, day := DaysInMonth(t.year, t.month - 1))
    else DateTime(t.year - 1, 12, 31, t.micros)
  }

  /** Python's `min(a, b)`: `a` unless `b < a`. */
  function EarlierOf(a: DateTime, b: DateTime): (r: DateTime)
    ensures r == a || r == b
    ensures !Before(a, r) && !Before(b, r)
  {
    if Before(b, a) then b else a
  }

  /** `min(now, next_month - timedelta(days=1))`, or `None` where computing
      `next_month` raises. */
  function PeriodEnd(now: DateTime): (r: Option<DateTime>)
    requires Valid(now)
    ensures r.None? <==> NextMonthStart(now).None?
  {
    match NextMonthStart(now)
    case None => None
    case Some(next) => Some(EarlierOf(now, DayBefore(next)))
  }

  // ---------------------------------------------------------------------
  // Day-count facts

  lemma DaysBeforeNextMonth(y: int, m: int)
    requires 1 <= m < 12
    ensures DaysBeforeMonth(y, m + 1) == DaysBeforeMonth(y, m) + DaysInMonth(y, m)
  {
  }

  lemma DaysBeforeDecember(y: int)
    ensures DaysBeforeMonth(y, 12) + DaysInMonth(y, 12) == DaysInYear(y)
  {
  }

  lemma DaysBeforeMonthBound(y: int, m1: int, m2: int)
    requires 1 <= m1 < m2 <= 12
    ensures DaysBeforeMonth(y, m1) + DaysInMonth(y, m1) <= DaysBeforeMonth(y, m2)
  {
  }

  lemma {:induction false} DaysBeforeYearBound(y1: int, y2: int)
    requires MinYear <= y1 < y2
    ensures DaysBeforeYear(y1) + DaysInYear(y1) <= DaysBeforeYear(y2)
    decreases y2 - y1
  {
    if y2 > y1 + 1 {
      DaysBeforeYearBound(y1, y2 - 1);
    }
  }

  /** A valid date's day of the year is at most the length of its year. */
  lemma DayOfYearBound(d: Date)
    requires ValidDate(d)
    ensures DaysBeforeMonth(d.year, d.month) + d.day <= DaysInYear(d.year)
  {
    if d.month < 12 {
      DaysBeforeMonthBound(d.year, d.month, 12);
    }
    DaysBeforeDecember(d.year);
  }

  /** The ordinal day number is strictly increasing in calendar order. */
  lemma {:induction false} OrdinalOrder(a: Date, b: Date)
    ensures ValidDate(a) && ValidDate(b) && DateBefore(a, b) ==> Ordinal(a) < Ordinal(b)
  {
    if ValidDate(a) && ValidDate(b) && DateBefore(a, b) {
      if a.year < b.year {
        DayOfYearBound(a);
        DaysBeforeYearBound(a.year, b.year);
      } else if a.month < b.month {
        DaysBeforeMonthBound(a.year, a.month, b.month);
      }
    }
  }

  // ---------------------------------------------------------------------
  // Properties of the period computation

  /** Stepping back one day lowers the ordinal by exactly one. */
  lemma {:induction false} DayBeforeOrdinal(t: DateTime)
    requires Valid(t) && DateOf(t) != Date(MinYear, 1, 1)
    ensures Ordinal(DateOf(DayBefore(t))) + 1 == Ordinal(DateOf(t))
  {
    if t.day == 1 {
      if t.month > 1 {
        DaysBeforeNextMonth(t.year, t.month - 1);
      } else {
        DaysBeforeDecember(t.year - 1);
      }
    }
  }

  /** The next month starts exactly as many days after the first of this
      month as this month has days. */
  lemma {:induction false} NextMonthStartOrdinal(now: DateTime)
    requires Valid(now) && NextMonthStart(now).Some?
    ensures Ordinal(DateOf(NextMonthStart(now).value))
         == Ordinal(DateOf(StartOfMonth(now))) + DaysInMonth(now.year, now.month)
  {
    if now.month == 12 {
      DaysBeforeDecember(now.year);
    } else {
      DaysBeforeNextMonth(now.year, now.month);
    }
  }

  /** The day before the next month's first day is the last day of the
      current month, at the same time of day as `now`. */
  lemma LastDayOfMonth(now: DateTime)
    requires Valid(now) && NextMonthStart(now).Some?
    ensures DayBefore(NextMonthStart(now).value)
         == now.(day := DaysInMonth(now.year, now.month))
  {
  }

  /** `now` is never past the last day of its month, so the end of the
      period is `now` itself, and the period starts on the first of the
      same month, not after its end. */
  lemma PeriodEndIsNow(now: DateTime)
    requires Valid(now) && NextMonthStart(now).Some?
    ensures PeriodEnd(now) == Some(now)
    ensures !Before(now, StartOfMonth(now))
    ensures Ordinal(DateOf(StartOfMonth(now))) <= Ordinal(DateOf(now))
  {
    LastDayOfMonth(now);
  }
}
