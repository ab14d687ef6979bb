/** The next departure of a weekly schedule on the Dhaka calendar (src/services/schedulesToday.service.ts). */
module NextDeparture {
  import opened Calendar

  datatype DhakaCalendar = DhakaCalendar(date: Civil, dayIndex: nat)

  function DhakaCalendarOf(now: int): DhakaCalendar {
    var day := DhakaDay(now);
    DhakaCalendar(CivilDate(day), Weekday(day))
  }

  function ShiftDhakaDay(date: Civil, deltaDays: int): Civil {
    CivilDate(UtcDay(date) + deltaDays)
  }

  function CombineLocalDeparture(date: Civil, departureTime: int): int {
    UtcDay(date) * MS_PER_DAY + ClockSeconds(departureTime) * 1000 - DHAKA_OFFSET_MS
  }

  /** The days to move on, after the check whether today's departure has passed. */
  function DeltaDays(now: int, dayType: nat, departureTime: int): nat
    requires dayType < 7
  {
    var today := DhakaCalendarOf(now);
    var deltaDays := (dayType - today.dayIndex + 7) % 7;
    var candidate := CombineLocalDeparture(ShiftDhakaDay(today.date, deltaDays), departureTime);
    if deltaDays == 0 && candidate <= now then 7 else deltaDays
  }

  /** nextOccurrenceFromNow */
  function NextOccurrence(now: int, dayType: nat, departureTime: int): int
    requires dayType < 7
  {
    CombineLocalDeparture(ShiftDhakaDay(DhakaCalendarOf(now).date, DeltaDays(now, dayType, departureTime)),
      departureTime)
  }

  /** A departure of the schedule: the right Dhaka weekday at the right Dhaka clock time. */
  predicate IsDeparture(t: int, dayType: nat, departureTime: int) {
    Weekday(DhakaDay(t)) == dayType && DhakaTimeOfDay(t) == ClockSeconds(departureTime) * 1000
  }

  /** The earliest departure strictly after now. */
  ghost predicate IsNextDeparture(r: int, now: int, dayType: nat, departureTime: int) {
    && now < r && IsDeparture(r, dayType, departureTime)
    && forall t :: now < t < r ==> !IsDeparture(t, dayType, departureTime)
  }

  /** Days until the next departure. */
  function DaysAhead(now: int, dayType: nat, departureTime: int): nat
    requires dayType < 7
  {
    var d := (dayType - Weekday(DhakaDay(now)) + 7) % 7;
    if d == 0 && ClockSeconds(departureTime) * 1000 <= DhakaTimeOfDay(now) then 7 else d
  }

  function DayInstant(day: int, departureTime: int): int {
    day * MS_PER_DAY + ClockSeconds(departureTime) * 1000 - DHAKA_OFFSET_MS
  }

  lemma DayInstantIs(day: int, departureTime: int)
    ensures DhakaDay(DayInstant(day, departureTime)) == day
    ensures DhakaTimeOfDay(DayInstant(day, departureTime)) == ClockSeconds(departureTime) * 1000
  {
    ClockSecondsInDay(departureTime);
    DhakaInstant(day, ClockSeconds(departureTime) * 1000);
  }

  lemma InstantsOrdered(t: int, u: int)
    requires DhakaTimeOfDay(t) == DhakaTimeOfDay(u)
    ensures t < u <==> DhakaDay(t) < DhakaDay(u)
  {}

  lemma InstantsOfOneDay(t: int, u: int)
    requires DhakaDay(t) == DhakaDay(u)
    ensures t < u <==> DhakaTimeOfDay(t) < DhakaTimeOfDay(u)
  {}

  lemma LaterDayIsLater(t: int, u: int)
    requires DhakaDay(t) < DhakaDay(u)
    ensures t < u
  {}

  /** Within the week that starts today, only one day has the wanted weekday. */
  lemma WeekdaysOfOneWeek(today: int, day: int, dayType: nat)
    requires dayType < 7 && today <= day < today + 7
    ensures Weekday(day) == dayType <==> day == today + (dayType - Weekday(today) + 7) % 7
  {}

  /** The instant DaysAhead days from now is the earliest departure. */
  lemma DaysAheadIsNext(now: int, dayType: nat, departureTime: int)
    requires dayType < 7
    ensures
      var day := DhakaDay(now) + DaysAhead(now, dayType, departureTime);
      IsNextDeparture(DayInstant(day, departureTime), now, dayType, departureTime)
  {
    var today, ahead := DhakaDay(now), DaysAhead(now, dayType, departureTime);
    var r := DayInstant(today + ahead, departureTime);
    DayInstantIs(today + ahead, departureTime);
    assert Weekday(today + ahead) == dayType && (ahead < 7 || Weekday(today) == dayType) by {
      if ahead < 7 { WeekdaysOfOneWeek(today, today + ahead, dayType); }
    }
    if ahead == 0 { InstantsOfOneDay(now, r); } else { LaterDayIsLater(now, r); }
    forall t | now < t < r
      ensures !IsDeparture(t, dayType, departureTime)
    {
      NoEarlierDeparture(now, dayType, departureTime, t, r);
    }
  }

  lemma NoEarlierDeparture(now: int, dayType: nat, departureTime: int, t: int, r: int)
    requires dayType < 7 && now < t < r
    requires DhakaDay(r) == DhakaDay(now) + DaysAhead(now, dayType, departureTime)
    requires DhakaTimeOfDay(r) == ClockSeconds(departureTime) * 1000
    ensures !IsDeparture(t, dayType, departureTime)
  {
    var today, day := DhakaDay(now), DhakaDay(t);
    if IsDeparture(t, dayType, departureTime) {
      InstantsOrdered(t, r);
      if day < today { LaterDayIsLater(t, now); }
      if day == today { InstantsOfOneDay(now, t); }
      hide DhakaDay, DhakaTimeOfDay, ClockSeconds, Weekday;
      assert today <= day < today + 7;
      WeekdaysOfOneWeek(today, day, dayType);
    }
  }

  /** The day lies in the years 0 to 99, which Date.UTC reads as 19xx. */
  predicate TwoDigitYear(day: int) {
    0 <= CivilDate(day).y <= 99
  }

  /** Neither date the computation passes through is misread by Date.UTC. */
  predicate FourDigitYears(now: int, dayType: nat, departureTime: int)
    requires dayType < 7
  {
    !TwoDigitYear(DhakaDay(now)) && !TwoDigitYear(DhakaDay(now) + DaysAhead(now, dayType, departureTime))
  }

  /** Date.UTC returns the day a date came from, unless it misreads the year. */
  lemma UtcDayOfDate(day: int)
    ensures var y := CivilDate(day).y;
      if 0 <= y <= 99 then day < DayFromYear(100) && UtcDay(CivilDate(day)) >= DayFromYear(1900)
      else UtcDay(CivilDate(day)) == day
  {
    var c := CivilDate(day);
    if 0 <= c.y < 99 { YearsAscend(c.y + 1, 100); }
    if 0 < c.y <= 99 { YearsAscend(1900, 1900 + c.y); }
    hide CivilDate, DayFromYear, MonthStart;
  }

  lemma YearIsLate(day: int)
    requires day >= DayFromYear(1900)
    ensures CivilDate(day).y >= 1900
  {
    var y := CivilDate(day).y;
    hide CivilDate, DayFromYear;
    if y < 1899 { YearsAscend(y + 1, 1900); }
  }

  lemma CenturiesApart()
    ensures DayFromYear(100) + 7 < DayFromYear(1900) < 0
  {}

  /** Where shifting a day's date and reading it back ends up. */
  function ShiftedDay(day: int, deltaDays: nat): int {
    UtcDay(CivilDate(UtcDay(CivilDate(day)) + deltaDays))
  }

  lemma ShiftedDayIs(day: int, d: nat)
    requires d <= 7
    ensures
      if TwoDigitYear(day) || TwoDigitYear(day + d)
      then day + d < DayFromYear(1900) <= ShiftedDay(day, d)
      else ShiftedDay(day, d) == day + d
  {
    hide CivilDate, DayFromYear, UtcDay;
    var base := UtcDay(CivilDate(day));
    UtcDayOfDate(day);
    UtcDayOfDate(base + d);
    CenturiesApart();
    if base >= DayFromYear(1900) { YearIsLate(base + d); }
  }

  lemma DeltaIsDaysAhead(now: int, dayType: nat, departureTime: int)
    requires dayType < 7 && !TwoDigitYear(DhakaDay(now))
    ensures DeltaDays(now, dayType, departureTime) == DaysAhead(now, dayType, departureTime)
  {
    hide CivilDate, DhakaDay, DhakaTimeOfDay, ClockSeconds, UtcDay, Weekday;
    var today := DhakaDay(now);
    ShiftedDayIs(today, 0);
    assert today + 0 == today;
    DayInstantIs(today, departureTime);
    InstantsOfOneDay(now, DayInstant(today, departureTime));
    assert CombineLocalDeparture(ShiftDhakaDay(CivilDate(today), 0), departureTime) ==
      DayInstant(ShiftedDay(today, 0), departureTime);
  }

  lemma DayInstantsAscend(day: int, later: int, departureTime: int)
    requires day < later
    ensures DayInstant(day, departureTime) < DayInstant(later, departureTime)
  {}

  lemma WithinAWeek(now: int, dayType: nat, departureTime: int)
    requires dayType < 7
    ensures DeltaDays(now, dayType, departureTime) <= 7 && DaysAhead(now, dayType, departureTime) <= 7
  {}

  lemma NextOccurrenceIsShifted(now: int, dayType: nat, departureTime: int)
    requires dayType < 7
    ensures NextOccurrence(now, dayType, departureTime) ==
      DayInstant(ShiftedDay(DhakaDay(now), DeltaDays(now, dayType, departureTime)), departureTime)
  {
    hide CivilDate, DhakaDay, DeltaDays, UtcDay, ClockSeconds;
  }

  /** Moving on by the computed days reaches the right day, or lands in the twentieth century. */
  lemma ShiftedDayIsAhead(today: int, d: nat, ahead: nat)
    requires d <= 7 && ahead <= 7 && (TwoDigitYear(today) || d == ahead)
    ensures
      if TwoDigitYear(today) || TwoDigitYear(today + ahead) then ShiftedDay(today, d) > today + ahead
      else ShiftedDay(today, d) == today + ahead
  {
    hide ShiftedDay, DayFromYear, CivilDate, UtcDay;
    ShiftedDayIs(today, d);
    UtcDayOfDate(today);
    CenturiesApart();
  }

  /** nextOccurrenceFromNow returns the earliest departure strictly after now, for every now, weekday
      and time whose dates avoid the years Date.UTC misreads, and for no other. */
  lemma NextOccurrenceIsEarliestExactly(now: int, dayType: nat, departureTime: int)
    requires dayType < 7
    ensures IsNextDeparture(NextOccurrence(now, dayType, departureTime), now, dayType, departureTime)
      <==> FourDigitYears(now, dayType, departureTime)
  {
    hide NextOccurrence, DayInstant, DaysAhead, DeltaDays, IsDeparture, DhakaDay, ShiftedDay, TwoDigitYear;
    var today, d, ahead :=
      DhakaDay(now), DeltaDays(now, dayType, departureTime), DaysAhead(now, dayType, departureTime);
    DaysAheadIsNext(now, dayType, departureTime);
    NextOccurrenceIsShifted(now, dayType, departureTime);
    WithinAWeek(now, dayType, departureTime);
    if !TwoDigitYear(today) { DeltaIsDaysAhead(now, dayType, departureTime); }
    ShiftedDayIsAhead(today, d, ahead);
    if today + ahead < ShiftedDay(today, d) {
      DayInstantsAscend(today + ahead, ShiftedDay(today, d), departureTime);
    }
  }

  /** From 1970 on nothing has to be assumed. */
  lemma NextOccurrenceSince1970(now: int, dayType: nat, departureTime: int)
    requires dayType < 7 && now >= 0
    ensures IsNextDeparture(NextOccurrence(now, dayType, departureTime), now, dayType, departureTime)
  {
    var today, ahead := DhakaDay(now), DaysAhead(now, dayType, departureTime);
    assert 0 <= today <= today + ahead;
    hide CivilDate, DhakaDay, DaysAhead, IsNextDeparture, NextOccurrence, DayFromYear;
    CenturiesApart();
    YearIsLate(today);
    YearIsLate(today + ahead);
    NextOccurrenceIsEarliestExactly(now, dayType, departureTime);
  }

  /** At the start of the year 50, Dhaka time, the result is not the next departure: it lies in the twentieth century
      or later. */
  lemma YearFiftyIsMisread(dayType: nat, departureTime: int)
    requires dayType < 7
    ensures
      var now := DayFromYear(50) * MS_PER_DAY - DHAKA_OFFSET_MS;
      && !IsNextDeparture(NextOccurrence(now, dayType, departureTime), now, dayType, departureTime)
      && DhakaDay(NextOccurrence(now, dayType, departureTime)) >= DayFromYear(1900)
  {
    hide *;
    var day := DayFromYear(50);
    var now := day * MS_PER_DAY - DHAKA_OFFSET_MS;
    MidnightIsOfItsDay(day);
    FirstOfFifty();
    NextOccurrenceIsEarliestExactly(now, dayType, departureTime);
    FourDigitsNow(now, dayType, departureTime);
    MisreadLandsLate(now, dayType, departureTime);
  }

  lemma MidnightIsOfItsDay(day: int)
    ensures DhakaDay(day * MS_PER_DAY - DHAKA_OFFSET_MS) == day
  {
    DhakaInstant(day, 0);
  }

  lemma FirstOfFifty()
    ensures TwoDigitYear(DayFromYear(50))
  {
    hide CivilDate, DayFromYear;
    var day := DayFromYear(50);
    YearsAscend(50, 51);
    YearIsUnique(day, 50, CivilDate(day).y);
  }

  lemma FourDigitsNow(now: int, dayType: nat, departureTime: int)
    requires dayType < 7
    ensures FourDigitYears(now, dayType, departureTime) ==> !TwoDigitYear(DhakaDay(now))
  {}

  lemma MisreadLandsLate(now: int, dayType: nat, departureTime: int)
    requires dayType < 7
    ensures TwoDigitYear(DhakaDay(now)) ==> DhakaDay(NextOccurrence(now, dayType, departureTime)) >= DayFromYear(1900)
  {
    hide *;
    var d := DeltaDays(now, dayType, departureTime);
    NextOccurrenceIsShifted(now, dayType, departureTime);
    WithinAWeek(now, dayType, departureTime);
    ShiftedDayIs(DhakaDay(now), d);
    DayInstantIs(ShiftedDay(DhakaDay(now), d), departureTime);
  }
}
