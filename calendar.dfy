/** The proleptic Gregorian calendar on the local timeline the views use.
    Instants are milliseconds, days are numbered from 1970-01-01 (day 0), and
    a month is identified by its key `year * 12 + (month - 1)`, which is how
    `new Date(year, month - i, 1)` normalises month arithmetic. */
module Calendar {

  const MsPerSecond: int := 1000
  const MsPerMinute: int := 60_000
  const MsPerHour: int := 3_600_000
  const MsPerDay: int := 86_400_000

  /** The day that contains a local instant (floor division). */
  function DayOf(instant: int): int
  {
    instant / MsPerDay
  }

  lemma DayOfBounds(instant: int)
    ensures DayOf(instant) * MsPerDay <= instant < (DayOf(instant) + 1) * MsPerDay
  {
  }

  /** An instant lies in day `d` exactly when it lies in that day's 24 hours. */
  lemma DayOfWithin(d: int, instant: int)
    requires d * MsPerDay <= instant < (d + 1) * MsPerDay
    ensures DayOf(instant) == d
  {
    DayOfBounds(instant);
  }

  predicate IsLeap(y: int)
  {
    y % 4 == 0 && (y % 100 != 0 || y % 400 == 0)
  }

  function DaysInYear(y: int): int
  {
    if IsLeap(y) then 366 else 365
  }

  function DaysInMonth(y: int, m: int): int
    requires 1 <= m <= 12
  {
    if m == 2 then (if IsLeap(y) then 29 else 28)
    else if m == 4 || m == 6 || m == 9 || m == 11 then 30
    else 31
  }

  /** The number of days in months m..12 of year y. */
  function DaysFromMonth(y: int, m: int): int
    requires 1 <= m <= 13
    decreases 13 - m
  {
    if m == 13 then 0 else DaysInMonth(y, m) + DaysFromMonth(y, m + 1)
  }

  lemma DaysFromMonthNonNegative(y: int, m: int)
    requires 1 <= m <= 13
    ensures DaysFromMonth(y, m) >= 0
    decreases 13 - m
  {
    if m < 13 {
      DaysFromMonthNonNegative(y, m + 1);
    }
  }

  /** The twelve months make up the year. */
  lemma YearIsItsMonths(y: int)
    ensures DaysFromMonth(y, 1) == DaysInYear(y)
  {
    assert DaysFromMonth(y, 13) == 0;
    assert DaysFromMonth(y, 12) == 31;
    assert DaysFromMonth(y, 11) == 61;
    assert DaysFromMonth(y, 10) == 92;
    assert DaysFromMonth(y, 9) == 122;
    assert DaysFromMonth(y, 8) == 153;
    assert DaysFromMonth(y, 7) == 184;
    assert DaysFromMonth(y, 6) == 214;
    assert DaysFromMonth(y, 5) == 245;
    assert DaysFromMonth(y, 4) == 275;
    assert DaysFromMonth(y, 3) == 306;
  }

  datatype Date = Date(year: int, month: int, day: int)

  predicate ValidDate(d: Date)
  {
    1 <= d.month <= 12 && 1 <= d.day <= DaysInMonth(d.year, d.month)
  }

  /** The date `doy` days after the first of month m of year y. */
  function DateInYear(y: int, m: int, doy: int): (d: Date)
    requires 1 <= m <= 12 && 0 <= doy < DaysFromMonth(y, m)
    ensures ValidDate(d) && d.year == y
    decreases 12 - m
  {
    if doy < DaysInMonth(y, m) then Date(y, m, doy + 1)
    else DateInYear(y, m + 1, doy - DaysInMonth(y, m))
  }

  /** The date `n` days after January 1st of year y (n may be negative). */
  function DateFrom(y: int, n: int): (d: Date)
    ensures ValidDate(d)
    decreases if n < 0 then 366 - n else n
  {
    if n < 0 then DateFrom(y - 1, n + DaysInYear(y - 1))
    else if n < DaysInYear(y) then (YearIsItsMonths(y); DateInYear(y, 1, n))
    else DateFrom(y + 1, n - DaysInYear(y))
  }

  /** The calendar date of a day number. */
  function DateOfDay(n: int): (d: Date)
    ensures ValidDate(d)
  {
    DateFrom(1970, n)
  }

  /** Days from 1970-01-01 to January 1st of year y. */
  function DaysBeforeYear(y: int): int
    decreases if y < 1970 then 1970 - y else y - 1970
  {
    if y == 1970 then 0
    else if y > 1970 then DaysBeforeYear(y - 1) + DaysInYear(y - 1)
    else DaysBeforeYear(y + 1) - DaysInYear(y)
  }

  /** Days from January 1st to the first of month m. */
  function DaysBeforeMonth(y: int, m: int): int
    requires 1 <= m <= 12
  {
    DaysFromMonth(y, 1) - DaysFromMonth(y, m)
  }

  /** The day number of a date: `new Date(year, month - 1, day)` at local midnight. */
  function DayNumber(d: Date): int
    requires 1 <= d.month <= 12
  {
    DaysBeforeYear(d.year) + DaysBeforeMonth(d.year, d.month) + d.day - 1
  }

  lemma DaysBeforeYearStep(y: int)
    ensures DaysBeforeYear(y + 1) == DaysBeforeYear(y) + DaysInYear(y)
  {
  }

  lemma {:induction false} DayNumberOfDateInYear(y: int, m: int, doy: int)
    requires 1 <= m <= 12 && 0 <= doy < DaysFromMonth(y, m)
    ensures DayNumber(DateInYear(y, m, doy)) == DaysBeforeYear(y) + DaysBeforeMonth(y, m) + doy
    decreases 12 - m
  {
    if doy >= DaysInMonth(y, m) {
      DayNumberOfDateInYear(y, m + 1, doy - DaysInMonth(y, m));
    }
  }

  lemma {:induction false} DayNumberOfDateFrom(y: int, n: int)
    ensures DayNumber(DateFrom(y, n)) == DaysBeforeYear(y) + n
    decreases if n < 0 then 366 - n else n
  {
    if n < 0 {
      DayNumberOfDateFrom(y - 1, n + DaysInYear(y - 1));
      DaysBeforeYearStep(y - 1);
    } else if n < DaysInYear(y) {
      YearIsItsMonths(y);
      DayNumberOfDateInYear(y, 1, n);
    } else {
      DayNumberOfDateFrom(y + 1, n - DaysInYear(y));
      DaysBeforeYearStep(y);
    }
  }

  /** Reading a day number as a date and back gives the same day. */
  lemma DayNumberOfDateOfDay(n: int)
    ensures DayNumber(DateOfDay(n)) == n
  {
    DayNumberOfDateFrom(1970, n);
  }

  /** The key of the month a date falls in. */
  function MonthKey(d: Date): int
  {
    d.year * 12 + d.month - 1
  }

  function KeyYear(k: int): int
  {
    k / 12
  }

  function KeyMonth(k: int): (m: int)
    ensures 1 <= m <= 12
  {
    k % 12 + 1
  }

  /** The first day of the month with key k. */
  function FirstDayOfKey(k: int): int
  {
    DayNumber(Date(KeyYear(k), KeyMonth(k), 1))
  }

  /** The key of the month that contains day n. */
  function MonthKeyOfDay(n: int): int
  {
    MonthKey(DateOfDay(n))
  }

  /** The year that contains day n (`getFullYear()`). */
  function YearOfDay(n: int): int
  {
    DateOfDay(n).year
  }

  /** The key of the month that contains a local instant. */
  function MonthKeyOfInstant(instant: int): int
  {
    MonthKeyOfDay(DayOf(instant))
  }

  lemma {:induction false} DaysBeforeYearMonotone(y: int, y': int)
    requires y < y'
    ensures DaysBeforeYear(y) + DaysInYear(y) <= DaysBeforeYear(y')
    decreases y' - y
  {
    DaysBeforeYearStep(y);
    if y + 1 < y' {
      DaysBeforeYearMonotone(y + 1, y');
    }
  }

  lemma {:induction false} DaysFromMonthMonotone(y: int, m: int, m': int)
    requires 1 <= m <= m' <= 13
    ensures DaysFromMonth(y, m') <= DaysFromMonth(y, m)
    decreases m' - m
  {
    if m < m' {
      DaysFromMonthMonotone(y, m + 1, m');
    }
  }

  /** Day numbers grow with the month key, and within a month with the day. */
  lemma DayNumberMonotone(c: Date, c': Date)
    requires ValidDate(c) && ValidDate(c')
    requires MonthKey(c) < MonthKey(c') || (MonthKey(c) == MonthKey(c') && c.day <= c'.day)
    ensures DayNumber(c) <= DayNumber(c')
    ensures MonthKey(c) < MonthKey(c') ==> DayNumber(c) < DayNumber(c')
  {
    var y, m, y', m' := c.year, c.month, c'.year, c'.month;
    DaysFromMonthNonNegative(y, m + 1);
    if y < y' {
      YearIsItsMonths(y);
      DaysBeforeYearMonotone(y, y');
      DaysFromMonthMonotone(y', 1, m');
    } else if y == y' && m < m' {
      DaysFromMonthMonotone(y, m + 1, m');
    } else {
      assert y == y' && m == m';
    }
  }

  /** The first of month k is a real date, in month k. */
  lemma FirstOfKey(k: int)
    ensures var f := Date(KeyYear(k), KeyMonth(k), 1);
      ValidDate(f) && MonthKey(f) == k && FirstDayOfKey(k) == DayNumber(f)
  {
    var f := Date(KeyYear(k), KeyMonth(k), 1);
    assert k == KeyYear(k) * 12 + (KeyMonth(k) - 1);
    assert DaysInMonth(f.year, f.month) >= 1;
  }

  /** A day is on or after the first of month k exactly when its month is k or later:
      so `date >= new Date(y, m, 1)` is a comparison of months. */
  lemma OnOrAfterFirstOfMonth(n: int, k: int)
    ensures n >= FirstDayOfKey(k) <==> MonthKeyOfDay(n) >= k
  {
    var c := DateOfDay(n);
    var f := Date(KeyYear(k), KeyMonth(k), 1);
    FirstOfKey(k);
    DayNumberOfDateOfDay(n);
    if MonthKey(c) >= k {
      DayNumberMonotone(f, c);
    } else {
      DayNumberMonotone(c, f);
    }
  }

  /** Reading a valid date as a day number and back gives the same date; with
      `DayNumberOfDateOfDay`, `DateOfDay` and `DayNumber` are inverse. */
  lemma DateOfDayNumber(d: Date)
    requires ValidDate(d)
    ensures DateOfDay(DayNumber(d)) == d
  {
    var c := DateOfDay(DayNumber(d));
    DayNumberOfDateOfDay(DayNumber(d));
    if MonthKey(c) < MonthKey(d) {
      DayNumberMonotone(c, d);
    } else if MonthKey(d) < MonthKey(c) {
      DayNumberMonotone(d, c);
    } else {
      assert c.year == d.year && c.month == d.month;
    }
  }
}
