/** The proleptic Gregorian calendar of Python's `datetime.date` and
    `calendar.monthrange`: valid dates, ordinals (day 1 is 0001-01-01),
    day arithmetic, and its inverse. */
module Calendar {
  import opened Wrappers
  import opened Ranges

  const MinYear: int := 1
  const MaxYear: int := 9999

  datatype Date = Date(year: int, month: int, day: int)

  /** `calendar.isleap`. */
  predicate IsLeap(y: int)
  {
    y % 4 == 0 && (y % 100 != 0 || y % 400 == 0)
  }

  /** `calendar.monthrange(y, m)[1]`, the number of days in the month. */
  function MonthLength(y: int, m: int): (n: int)
    requires 1 <= m <= 12
    ensures 28 <= n <= 31
    ensures n == 29 <==> m == 2 && IsLeap(y)
  {
    if m == 2 then (if IsLeap(y) then 29 else 28)
    else if m == 4 || m == 6 || m == 9 || m == 11 then 30
    else 31
  }

  function YearLength(y: int): int
  {
    if IsLeap(y) then 366 else 365
  }

  /** The years `datetime.date` accepts. */
  predicate ValidYear(y: int)
  {
    MinYear <= y <= MaxYear
  }

  /** The dates `datetime.date` accepts. */
  predicate Valid(d: Date)
  {
    MinYear <= d.year <= MaxYear && 1 <= d.month <= 12 && 1 <= d.day <= MonthLength(d.year, d.month)
  }

  /** `datetime.date(y, m, d)`, which raises `ValueError` for a date that
      does not exist. */
  function MakeDate(y: int, m: int, d: int): (r: Option<Date>)
    ensures r.Some? <==> Valid(Date(y, m, d))
    ensures r.Some? ==> r.value == Date(y, m, d)
  {
    if Valid(Date(y, m, d)) then Some(Date(y, m, d)) else None
  }

  /** February 29 exists exactly in leap years. */
  lemma LeapDay(y: int)
    requires MinYear <= y <= MaxYear
    ensures Valid(Date(y, 2, 29)) <==> IsLeap(y)
  {
  }

  /** The days of the years from 1 to `y - 1`. */
  function DaysBeforeYear(y: int): nat
  {
    if y <= MinYear then 0 else DaysBeforeYear(y - 1) + YearLength(y - 1)
  }

  /** `_days_before_year`, the closed form Python computes. */
  function ClosedDaysBeforeYear(y: int): int
  {
    var p := y - 1;
    p * 365 + p / 4 - p / 100 + p / 400
  }

  /** The closed form grows by one year length from one year to the next. */
  lemma ClosedStep(y: int)
    ensures ClosedDaysBeforeYear(y + 1) == ClosedDaysBeforeYear(y) + YearLength(y)
  {
    var p := y - 1;
    DivStep(p, 4);
    DivStep(p, 100);
    DivStep(p, 400);
  }

  /** The closed form counts the same days. */
  lemma {:induction false} DaysBeforeYearFormula(y: int)
    requires y >= MinYear
    ensures DaysBeforeYear(y) == ClosedDaysBeforeYear(y)
    decreases y
  {
    if y > MinYear {
      DaysBeforeYearFormula(y - 1);
      ClosedStep(y - 1);
    }
  }

  /** The days of the months of year `y` before month `m`, as
      `_DAYS_BEFORE_MONTH` plus the leap day. */
  function DaysBeforeMonth(y: int, m: int): int
    requires 1 <= m <= 12
  {
    [0, 31, 59, 90, 120, 151, 181, 212, 243, 273, 304, 334][m - 1] + (if m > 2 && IsLeap(y) then 1 else 0)
  }

  /** The table agrees with the month lengths. */
  lemma MonthStep(y: int, m: int)
    requires 1 <= m < 12
    ensures DaysBeforeMonth(y, m + 1) == DaysBeforeMonth(y, m) + MonthLength(y, m)
  {
  }

  /** `date.toordinal()`. */
  function Ordinal(d: Date): int
    requires Valid(d)
  {
    DaysBeforeYear(d.year) + DaysBeforeMonth(d.year, d.month) + d.day
  }

  /** `date.max.toordinal()`, the ordinal of 9999-12-31. */
  const MaxOrdinal: int := 3652059

  /** The days before year 10000 are the ordinal of 9999-12-31.  The year
      comes in as a parameter that the requires pins, so that Dafny does not
      unroll the recursive `DaysBeforeYear` 10000 times on a literal. */
  lemma MaxOrdinalValue(y: int)
    requires y == MaxYear + 1
    ensures DaysBeforeYear(y) == MaxOrdinal
  {
    DaysBeforeYearFormula(y);
  }

  lemma YearStep(y: int)
    requires y >= MinYear
    ensures DaysBeforeYear(y + 1) == DaysBeforeYear(y) + YearLength(y)
  {
  }

  lemma DivStep(p: int, s: int)
    requires s > 0
    ensures (p + 1) / s == p / s + (if (p + 1) % s == 0 then 1 else 0)
  {
    var q, r := p / s, p % s;
    if r == s - 1 {
      DivModUnique(p + 1, s, q + 1, 0);
    } else {
      DivModUnique(p + 1, s, q, r + 1);
    }
  }

  lemma MonthsBound(y: int, m: int)
    requires 1 <= m <= 12
    ensures DaysBeforeMonth(y, m) + MonthLength(y, m) <= YearLength(y)
    ensures m == 12 ==> DaysBeforeMonth(y, m) + MonthLength(y, m) == YearLength(y)
  {
  }

  /** The ordinal of a date lies within its year. */
  lemma OrdinalInYear(d: Date)
    requires Valid(d)
    ensures DaysBeforeYear(d.year) < Ordinal(d) <= DaysBeforeYear(d.year + 1)
  {
    MonthsBound(d.year, d.month);
    YearStep(d.year);
  }

  lemma {:induction false} YearsIncrease(a: int, b: int)
    requires MinYear <= a <= b
    ensures DaysBeforeYear(a) + 365 * (b - a) <= DaysBeforeYear(b)
    decreases b - a
  {
    if a < b {
      YearsIncrease(a + 1, b);
      YearStep(a);
    }
  }

  lemma {:induction false} MonthsIncrease(y: int, a: int, b: int)
    requires 1 <= a <= b <= 12
    ensures DaysBeforeMonth(y, a) + 28 * (b - a) <= DaysBeforeMonth(y, b)
    decreases b - a
  {
    if a < b {
      MonthsIncrease(y, a + 1, b);
      MonthStep(y, a);
    }
  }

  /** A date of an earlier year has a smaller ordinal. */
  lemma YearsOrder(a: Date, b: Date)
    requires Valid(a) && Valid(b) && a.year < b.year
    ensures Ordinal(a) < Ordinal(b)
  {
    OrdinalInYear(a);
    OrdinalInYear(b);
    YearsIncrease(a.year + 1, b.year);
  }

  /** In one year, a date of an earlier month has a smaller ordinal. */
  lemma MonthsOrder(a: Date, b: Date)
    requires Valid(a) && Valid(b) && a.year == b.year && a.month < b.month
    ensures Ordinal(a) < Ordinal(b)
  {
    MonthStep(a.year, a.month);
    MonthsIncrease(a.year, a.month + 1, b.month);
  }

  /** Different dates have different ordinals. */
  lemma OrdinalInjective(a: Date, b: Date)
    requires Valid(a) && Valid(b) && Ordinal(a) == Ordinal(b)
    ensures a == b
  {
    if a.year < b.year {
      YearsOrder(a, b);
    } else if b.year < a.year {
      YearsOrder(b, a);
    } else if a.month < b.month {
      MonthsOrder(a, b);
    } else if b.month < a.month {
      MonthsOrder(b, a);
    }
  }

  /** The year holding the day with ordinal `n`, searched from year `y` on. */
  function YearOf(n: int, y: int): (r: int)
    requires MinYear <= y <= MaxYear && DaysBeforeYear(y) < n <= MaxOrdinal
    ensures y <= r <= MaxYear && DaysBeforeYear(r) < n <= DaysBeforeYear(r + 1)
    decreases MaxYear - y
  {
    if y == MaxYear then MaxOrdinalValue(y + 1); y
    else if n <= DaysBeforeYear(y + 1) then y
    else YearOf(n, y + 1)
  }

  /** The month of year `y` holding its `n`-th day, searched from month `m` on. */
  function MonthOf(n: int, y: int, m: int): (r: int)
    requires 1 <= m <= 12 && DaysBeforeMonth(y, m) < n <= YearLength(y)
    ensures m <= r <= 12 && DaysBeforeMonth(y, r) < n <= DaysBeforeMonth(y, r) + MonthLength(y, r)
    decreases 12 - m
  {
    MonthsBound(y, m);
    if n <= DaysBeforeMonth(y, m) + MonthLength(y, m) || m == 12 then m else MonthOf(n, y, m + 1)
  }

  /** `date.fromordinal(n)`. */
  function FromOrdinal(n: int): (d: Date)
    requires 1 <= n <= MaxOrdinal
    ensures Valid(d) && Ordinal(d) == n
  {
    var y := YearOf(n, MinYear);
    YearStep(y);
    var m := MonthOf(n - DaysBeforeYear(y), y, 1);
    Date(y, m, n - DaysBeforeYear(y) - DaysBeforeMonth(y, m))
  }

  /** `fromordinal` undoes `toordinal`. */
  lemma FromOrdinalOf(d: Date)
    requires Valid(d)
    ensures 1 <= Ordinal(d) <= MaxOrdinal && FromOrdinal(Ordinal(d)) == d
  {
    OrdinalInYear(d);
    YearsIncrease(MinYear, d.year);
    var top := MaxYear + 1;
    YearsIncrease(d.year + 1, top);
    MaxOrdinalValue(top);
    OrdinalInjective(FromOrdinal(Ordinal(d)), d);
  }

  /** `d + timedelta(days=n)`, which raises `OverflowError` outside the
      years 1 to 9999. */
  function AddDays(d: Date, n: int): (r: Option<Date>)
    requires Valid(d)
    ensures r.Some? <==> 1 <= Ordinal(d) + n <= MaxOrdinal
    ensures r.Some? ==> Valid(r.value) && Ordinal(r.value) == Ordinal(d) + n
  {
    var k := Ordinal(d) + n;
    if 1 <= k <= MaxOrdinal then Some(FromOrdinal(k)) else None
  }

  /** `(a - b).days`. */
  function DaysBetween(a: Date, b: Date): int
    requires Valid(a) && Valid(b)
  {
    Ordinal(a) - Ordinal(b)
  }

  /** The day after `d` by the calendar rules. */
  function Tomorrow(d: Date): Date
    requires Valid(d)
  {
    if d.day < MonthLength(d.year, d.month) then Date(d.year, d.month, d.day + 1)
    else if d.month < 12 then Date(d.year, d.month + 1, 1)
    else Date(d.year + 1, 1, 1)
  }

  /** The ordinal of the next calendar day is one more, across month and
      year ends too. */
  lemma TomorrowOrdinal(d: Date)
    requires Valid(d) && d != Date(MaxYear, 12, 31)
    ensures Valid(Tomorrow(d)) && Ordinal(Tomorrow(d)) == Ordinal(d) + 1
  {
    if d.day < MonthLength(d.year, d.month) {
    } else if d.month < 12 {
      NextMonthOrdinal(d);
    } else {
      NextYearOrdinal(d);
    }
  }

  lemma NextMonthOrdinal(d: Date)
    requires Valid(d) && d.day == MonthLength(d.year, d.month) && d.month < 12
    ensures Ordinal(Date(d.year, d.month + 1, 1)) == Ordinal(d) + 1
  {
    MonthStep(d.year, d.month);
  }

  lemma NextYearOrdinal(d: Date)
    requires Valid(d) && d.month == 12 && d.day == 31 && d.year < MaxYear
    ensures Ordinal(Date(d.year + 1, 1, 1)) == Ordinal(d) + 1
  {
    MonthsBound(d.year, 12);
    YearStep(d.year);
  }

  /** Adding one day gives the next calendar day. */
  lemma NextDay(d: Date)
    requires Valid(d) && d != Date(MaxYear, 12, 31)
    ensures Valid(Tomorrow(d)) && Ordinal(Tomorrow(d)) == Ordinal(d) + 1 <= MaxOrdinal
    ensures FromOrdinal(Ordinal(d) + 1) == Tomorrow(d)
  {
    TomorrowOrdinal(d);
    FromOrdinalOf(Tomorrow(d));
  }
}
