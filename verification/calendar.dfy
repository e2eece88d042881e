/**
 * The proleptic Gregorian calendar of ISO 8601, as java.time uses it: a date is
 * identified with its epoch day, the number of days since 1970-01-01 (negative
 * before it).  EpochDay is the reference definition, built from year lengths and
 * month lengths alone; FromEpochDay inverts it.
 */
module Calendar {

  predicate IsLeapYear(y: int) {
    y % 4 == 0 && (y % 100 != 0 || y % 400 == 0)
  }

  function DaysInYear(y: int): int {
    if IsLeapYear(y) then 366 else 365
  }

  function DaysInMonth(y: int, m: int): (n: int)
    requires 1 <= m <= 12
    ensures 28 <= n <= 31
  {
    if m == 2 then (if IsLeapYear(y) then 29 else 28)
    else if m == 4 || m == 6 || m == 9 || m == 11 then 30
    else 31
  }

  /** Days of year y that come before the first of month m (m == 13: the whole year). */
  function DaysBeforeMonth(y: int, m: int): int
    requires 1 <= m <= 13
  {
    var common := [0, 31, 59, 90, 120, 151, 181, 212, 243, 273, 304, 334, 365];
    common[m - 1] + (if IsLeapYear(y) && m > 2 then 1 else 0)
  }

  lemma DaysBeforeNextMonth(y: int, m: int)
    requires 1 <= m <= 12
    ensures DaysBeforeMonth(y, m + 1) == DaysBeforeMonth(y, m) + DaysInMonth(y, m)
    ensures DaysBeforeMonth(y, 1) == 0 && DaysBeforeMonth(y, 13) == DaysInYear(y)
  {
  }

  /** The epoch day of January 1st of year y, counted year by year from 1970. */
  function YearStart(y: int): int
    decreases if y >= 1970 then y - 1970 else 1970 - y
  {
    if y == 1970 then 0
    else if y > 1970 then YearStart(y - 1) + DaysInYear(y - 1)
    else YearStart(y + 1) - DaysInYear(y)
  }

  lemma YearStartNext(y: int)
    ensures YearStart(y + 1) == YearStart(y) + DaysInYear(y)
  {
  }

  /** Years are at least 365 days long, so later years start at least 365 days per year later. */
  lemma {:induction false} YearStartGrows(y1: int, y2: int)
    requires y1 <= y2
    ensures YearStart(y1) + 365 * (y2 - y1) <= YearStart(y2)
    decreases y2 - y1
  {
    if y1 < y2 {
      YearStartGrows(y1, y2 - 1);
      YearStartNext(y2 - 1);
    }
  }

  /** Years are at most 366 days long. */
  lemma {:induction false} YearStartBounded(y1: int, y2: int)
    requires y1 <= y2
    ensures YearStart(y2) <= YearStart(y1) + 366 * (y2 - y1)
    decreases y2 - y1
  {
    if y1 < y2 {
      YearStartBounded(y1, y2 - 1);
      YearStartNext(y2 - 1);
    }
  }

  datatype Date = Date(year: int, month: int, day: int)

  predicate ValidDate(d: Date) {
    1 <= d.month <= 12 && 1 <= d.day <= DaysInMonth(d.year, d.month)
  }

  /** The reference definition: how many days lie between 1970-01-01 and d. */
  function EpochDay(d: Date): int
    requires ValidDate(d)
  {
    YearStart(d.year) + DaysBeforeMonth(d.year, d.month) + d.day - 1
  }

  /** A valid date's epoch day lies inside its own year. */
  lemma EpochDayWithinYear(d: Date)
    requires ValidDate(d)
    ensures YearStart(d.year) <= EpochDay(d) < YearStart(d.year + 1)
  {
    DaysBeforeNextMonth(d.year, d.month);
    YearStartNext(d.year);
  }

  /** Distinct valid dates have distinct epoch days. */
  lemma EpochDayInjective(d1: Date, d2: Date)
    requires ValidDate(d1) && ValidDate(d2)
    requires EpochDay(d1) == EpochDay(d2)
    ensures d1 == d2
  {
    EpochDayWithinYear(d1);
    EpochDayWithinYear(d2);
    if d1.year < d2.year {
      YearStartGrows(d1.year + 1, d2.year);
      assert false;
    } else if d2.year < d1.year {
      YearStartGrows(d2.year + 1, d1.year);
      assert false;
    }
    var y := d1.year;
    DaysBeforeNextMonth(y, d1.month);
    DaysBeforeNextMonth(y, d2.month);
    if d1.month < d2.month {
      DaysBeforeMonotone(y, d1.month + 1, d2.month);
      assert false;
    } else if d2.month < d1.month {
      DaysBeforeMonotone(y, d2.month + 1, d1.month);
      assert false;
    }
  }

  lemma DaysBeforeMonotone(y: int, m1: int, m2: int)
    requires 1 <= m1 <= m2 <= 13
    ensures DaysBeforeMonth(y, m1) <= DaysBeforeMonth(y, m2)
  {
  }

  /** The year whose days include epoch day z, searched upwards from a year that starts no later than z. */
  function YearFrom(z: int, y: int): (r: int)
    requires YearStart(y) <= z
    ensures YearStart(r) <= z < YearStart(r + 1)
    decreases z - YearStart(y)
  {
    YearStartNext(y);
    if z < YearStart(y + 1) then y else YearFrom(z, y + 1)
  }

  /** A year that starts no later than epoch day z. */
  function YearBelow(z: int): (y: int)
    ensures YearStart(y) <= z
  {
    if z >= 0 then
      var y := 1970 + z / 366;
      YearStartBounded(1970, y);
      y
    else
      var y := 1970 + z / 365;
      YearStartGrows(y, 1970);
      y
  }

  /** Month and day of the day that is rest days after the first of month m of year y. */
  function MonthFrom(y: int, m: int, rest: int): (d: Date)
    requires 1 <= m <= 12 && 0 <= rest
    requires DaysBeforeMonth(y, m) + rest < DaysInYear(y)
    ensures ValidDate(d) && d.year == y
    ensures DaysBeforeMonth(y, d.month) + d.day - 1 == DaysBeforeMonth(y, m) + rest
    decreases 12 - m
  {
    DaysBeforeNextMonth(y, m);
    if rest < DaysInMonth(y, m) then Date(y, m, rest + 1)
    else MonthFrom(y, m + 1, rest - DaysInMonth(y, m))
  }

  /** The date of epoch day z: the inverse of EpochDay (LocalDate.ofEpochDay). */
  function FromEpochDay(z: int): (d: Date)
    ensures ValidDate(d) && EpochDay(d) == z
  {
    var y := YearFrom(z, YearBelow(z));
    YearStartNext(y);
    DaysBeforeNextMonth(y, 1);
    MonthFrom(y, 1, z - YearStart(y))
  }

  lemma FromEpochDayOfDate(d: Date)
    requires ValidDate(d)
    ensures FromEpochDay(EpochDay(d)) == d
  {
    EpochDayInjective(FromEpochDay(EpochDay(d)), d);
  }

  /** Epoch day -1 is 31 December 1969. */
  lemma DayBeforeEpoch()
    ensures FromEpochDay(-1) == Date(1969, 12, 31)
  {
    var d := Date(1969, 12, 31);
    assert YearStart(1969) == -365;
    assert ValidDate(d) && EpochDay(d) == -1;
    FromEpochDayOfDate(d);
  }
}
