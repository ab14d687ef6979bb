/** Days and civil dates as ECMAScript's Date computes them (sections "Day Number and Time within Day"
    to "Date Number" of ECMA-262), and clock times at the Dhaka offset. */
module Calendar {

  const MS_PER_DAY := 86_400_000

  /** DHAKA_OFFSET_MIN * 60_000 */
  const DHAKA_OFFSET_MS := 21_600_000

  /** Months count from 0, days from 1. */
  datatype Civil = Civil(y: int, m: nat, d: nat)

  predicate Divides(n: int, y: int)
    requires n > 0
  {
    y % n == 0
  }

  predicate IsLeap(y: int) {
    Divides(4, y) && (!Divides(100, y) || Divides(400, y))
  }

  /** The multiples of 4, 100 and 400 among the years before y, counted from fixed ones. */
  function Fourths(y: int): int { (y - 1969) / 4 }

  function Centuries(y: int): int { (y - 1901) / 100 }

  function FourCenturies(y: int): int { (y - 1601) / 400 }

  /** The day number of January 1 of year y, with 1970-01-01 as day 0. */
  function DayFromYear(y: int): int {
    365 * (y - 1970) + Fourths(y) - Centuries(y) + FourCenturies(y)
  }

  /** Days before month m of a common year. */
  function CommonMonthStart(m: nat): nat {
    if m == 0 then 0 else if m == 1 then 31 else if m == 2 then 59 else if m == 3 then 90
    else if m == 4 then 120 else if m == 5 then 151 else if m == 6 then 181 else if m == 7 then 212
    else if m == 8 then 243 else if m == 9 then 273 else if m == 10 then 304 else if m == 11 then 334 else 365
  }

  /** Days before month m. */
  function MonthStart(y: int, m: nat): nat {
    CommonMonthStart(m) + if m >= 2 && IsLeap(y) then 1 else 0
  }

  predicate ValidDate(c: Civil) {
    c.m < 12 && 1 <= c.d <= MonthStart(c.y, c.m + 1) - MonthStart(c.y, c.m)
  }

  function DayNumber(c: Civil): int {
    DayFromYear(c.y) + MonthStart(c.y, c.m) + c.d - 1
  }

  lemma FourthsStep(y: int)
    ensures Fourths(y + 1) == Fourths(y) + if Divides(4, y) then 1 else 0
  {}

  lemma CenturiesStep(y: int)
    ensures Centuries(y + 1) == Centuries(y) + if Divides(100, y) then 1 else 0
  {}

  lemma FourCenturiesStep(y: int)
    ensures FourCenturies(y + 1) == FourCenturies(y) + if Divides(400, y) then 1 else 0
  {}

  lemma Quotient(n: int, y: int)
    requires n > 0 && Divides(n, y)
    ensures y == n * (y / n)
  {}

  lemma MultipleOfFour(k: int)
    ensures Divides(4, 4 * k)
  {}

  lemma MultipleOfHundred(k: int)
    ensures Divides(100, 100 * k)
  {}

  lemma MultiplesNest(y: int)
    ensures Divides(100, y) ==> Divides(4, y)
    ensures Divides(400, y) ==> Divides(100, y)
  {
    hide Divides;
    if Divides(100, y) {
      Quotient(100, y);
      MultipleOfFour(25 * (y / 100));
    }
    if Divides(400, y) {
      Quotient(400, y);
      MultipleOfHundred(4 * (y / 400));
    }
  }

  lemma YearLength(y: int)
    ensures DayFromYear(y + 1) == DayFromYear(y) + MonthStart(y, 12)
  {
    hide Fourths, Centuries, FourCenturies, Divides;
    FourthsStep(y);
    CenturiesStep(y);
    FourCenturiesStep(y);
    MultiplesNest(y);
  }

  lemma {:induction false} YearsAscend(y: int, z: int)
    requires y < z
    ensures DayFromYear(y) + 365 * (z - y) <= DayFromYear(z)
    decreases z - y
  {
    YearLength(z - 1);
    if y < z - 1 { YearsAscend(y, z - 1); }
  }

  /** How many days the given day lies outside year y, counted from 1. */
  function DaysAway(day: int, y: int): nat {
    YearLength(y);
    if day < DayFromYear(y) then 1 + DayFromYear(y) - day
    else if day >= DayFromYear(y + 1) then 1 + day - DayFromYear(y)
    else 0
  }

  lemma YearBefore(day: int, y: int)
    requires day < DayFromYear(y)
    ensures DaysAway(day, y - 1) < DaysAway(day, y)
  {
    hide DayFromYear;
    YearLength(y - 1);
    assert y - 1 + 1 == y;
  }

  lemma YearAfter(day: int, y: int)
    requires day >= DayFromYear(y + 1)
    ensures DaysAway(day, y + 1) < DaysAway(day, y)
  {
    hide DayFromYear;
    YearLength(y);
  }

  /** YearFromTime: the year whose days include the given one. */
  function YearFrom(day: int, y: int): (r: int)
    ensures DayFromYear(r) <= day < DayFromYear(r + 1)
    decreases DaysAway(day, y)
  {
    if day < DayFromYear(y) then
      YearBefore(day, y);
      YearFrom(day, y - 1)
    else if day >= DayFromYear(y + 1) then
      YearAfter(day, y);
      YearFrom(day, y + 1)
    else y
  }

  function MonthFrom(y: int, dayInYear: nat): (m: nat)
    requires dayInYear < MonthStart(y, 12)
    ensures m < 12 && MonthStart(y, m) <= dayInYear < MonthStart(y, m + 1)
  {
    if dayInYear < MonthStart(y, 1) then 0 else if dayInYear < MonthStart(y, 2) then 1
    else if dayInYear < MonthStart(y, 3) then 2 else if dayInYear < MonthStart(y, 4) then 3
    else if dayInYear < MonthStart(y, 5) then 4 else if dayInYear < MonthStart(y, 6) then 5
    else if dayInYear < MonthStart(y, 7) then 6 else if dayInYear < MonthStart(y, 8) then 7
    else if dayInYear < MonthStart(y, 9) then 8 else if dayInYear < MonthStart(y, 10) then 9
    else if dayInYear < MonthStart(y, 11) then 10 else 11
  }

  /** getUTCFullYear, getUTCMonth and getUTCDate: the inverse of DayNumber. */
  function CivilDate(day: int): (c: Civil)
    ensures ValidDate(c) && DayNumber(c) == day
    ensures DayFromYear(c.y) <= day < DayFromYear(c.y + 1)
  {
    var y := YearFrom(day, 1970);
    YearLength(y);
    var m := MonthFrom(y, day - DayFromYear(y));
    Civil(y, m, day - DayFromYear(y) - MonthStart(y, m) + 1)
  }

  lemma MonthsAscend(y: int, m: nat, n: nat)
    requires m <= n <= 12
    ensures MonthStart(y, m) <= MonthStart(y, n)
  {}

  /** A day lies in one year only. */
  lemma YearIsUnique(day: int, y: int, z: int)
    requires DayFromYear(y) <= day < DayFromYear(y + 1)
    requires DayFromYear(z) <= day < DayFromYear(z + 1)
    ensures y == z
  {
    if y < z && y + 1 < z { YearsAscend(y + 1, z); }
    if z < y && z + 1 < y { YearsAscend(z + 1, y); }
  }

  lemma MonthIsUnique(y: int, dayInYear: nat, m: nat, n: nat)
    requires m < 12 && MonthStart(y, m) <= dayInYear < MonthStart(y, m + 1)
    requires n < 12 && MonthStart(y, n) <= dayInYear < MonthStart(y, n + 1)
    ensures m == n
  {
    if m < n { MonthsAscend(y, m + 1, n); }
    if n < m { MonthsAscend(y, n + 1, m); }
  }

  /** A valid date's day lies in its year ... */
  lemma DayLiesInYear(c: Civil)
    requires ValidDate(c)
    ensures DayFromYear(c.y) <= DayNumber(c) < DayFromYear(c.y + 1)
  {
    hide DayFromYear, MonthStart;
    YearLength(c.y);
    MonthsAscend(c.y, 0, c.m);
    MonthsAscend(c.y, c.m + 1, 12);
    assert MonthStart(c.y, 0) >= 0;
  }

  /** ... and month. */
  lemma SameYearSameDate(c: Civil, e: Civil)
    requires ValidDate(c) && ValidDate(e) && c.y == e.y && DayNumber(c) == DayNumber(e)
    ensures c == e
  {
    hide DayFromYear, MonthStart;
    MonthIsUnique(c.y, MonthStart(c.y, c.m) + c.d - 1, c.m, e.m);
  }

  /** Dates and day numbers correspond one to one. */
  lemma CivilDateInvertsDayNumber(c: Civil)
    requires ValidDate(c)
    ensures CivilDate(DayNumber(c)) == c
  {
    hide CivilDate, ValidDate, DayNumber, DayFromYear;
    var day := DayNumber(c);
    DayLiesInYear(c);
    YearIsUnique(day, c.y, CivilDate(day).y);
    SameYearSameDate(c, CivilDate(day));
  }

  /** getUTCDay: 0 is Sunday, and day 0 was a Thursday. */
  function Weekday(day: int): nat {
    (day + 4) % 7
  }

  /** The seconds of getUTCHours, getUTCMinutes and getUTCSeconds together. */
  function ClockSeconds(t: int): nat {
    var hh, mm, ss := (t / 3_600_000) % 24, (t / 60_000) % 60, (t / 1000) % 60;
    hh * 3600 + mm * 60 + ss
  }

  lemma ClockSecondsInDay(t: int)
    ensures ClockSeconds(t) < 86_400
    ensures ClockSeconds(t) == (t / 1000) % 86_400
  {
    var s := t / 1000;
    assert t / 60_000 == s / 60;
    assert t / 3_600_000 == s / 3600;
    assert s / 3600 == (s / 60) / 60;
    assert (s / 3600) / 24 == s / 86_400;
  }

  /** The year Date.UTC puts a date in: two-digit years mean 19xx. */
  function FullYear(y: int): int {
    if 0 <= y <= 99 then 1900 + y else y
  }

  /** Date.UTC(y, m, d) in days. */
  function UtcDay(c: Civil): int {
    DayNumber(Civil(FullYear(c.y), c.m, c.d))
  }

  function DhakaDay(t: int): int { (t + DHAKA_OFFSET_MS) / MS_PER_DAY }

  function DhakaTimeOfDay(t: int): nat { (t + DHAKA_OFFSET_MS) % MS_PER_DAY }

  /** An instant is a Dhaka day and a Dhaka clock time. */
  lemma DhakaInstant(day: int, timeOfDay: nat)
    requires timeOfDay < MS_PER_DAY
    ensures
      var t := day * MS_PER_DAY + timeOfDay - DHAKA_OFFSET_MS;
      DhakaDay(t) == day && DhakaTimeOfDay(t) == timeOfDay
  {}
}
