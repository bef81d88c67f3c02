/**
 * The "next fire time" rules of utils/time_calculator.go, one per reminder
 * kind. `now` is an instant read in the user's zone `z`; `t` is the parsed
 * "HH:MM" time of day.
 */
module TimeCalculator {
  import opened GoStrings
  import opened GoStrconv
  import opened GoTime

  /** Go's `%` on int truncates toward zero, unlike Dafny's. */
  function GoRem(a: int, b: int): (r: int)
    requires b > 0
    ensures a >= 0 ==> r == a % b
    ensures -b < r < b
  {
    if a >= 0 then a % b else -((-a) % b)
  }

  /** True when now's (hour, minute) is at or past t's: the exact minute counts as passed. */
  predicate ClockPassed(now: Instant, z: Zone, t: Clock)
  {
    HourOf(now, z) > t.hour || (HourOf(now, z) == t.hour && MinuteOf(now, z) >= t.minute)
  }

  /** time.Date(now.Year(), now.Month(), now.Day(), t.Hour(), t.Minute(), 0, 0, loc): now's calendar day at t. */
  function TodayAt(now: Instant, z: Zone, t: Clock): (r: Instant)
    ensures r == AtClock(DayIndex(now, z), t.hour, t.minute, z)
    ensures ClockPassed(now, z, t) <==> r <= now
  {
    var c := CivilOf(now, z);
    SameDayAt(now, z, t.hour, t.minute);
    ClockOrder(now, z, t.hour, t.minute);
    Date(c.year, c.month, c.day, t.hour, t.minute, 0, z)
  }

  /** The time-of-day fields of r are exactly t's, with zero seconds. */
  predicate HasClock(r: Instant, z: Zone, t: Clock)
  {
    HourOf(r, z) == t.hour && MinuteOf(r, z) == t.minute && SecondOf(r, z) == 0
  }

  /**
   * GetNextTimeToday: today at t, or tomorrow at t when that is already before
   * now. GetNextTimeEveryDay is a line-for-line copy of it and is modelled by it.
   */
  function GetNextTimeToday(now: Instant, z: Zone, t: Clock): (r: Instant)
    ensures now <= r < now + 86400 && HasClock(r, z, t)
  {
    var today := TodayAt(now, z, t);
    WithinDay(now, z);
    AtClockFields(DayIndex(now, z), t.hour, t.minute, z);
    AtClockFields(DayIndex(now, z) + 1, t.hour, t.minute, z);
    if today < now then today + 86400 else today
  }

  /** GetNextTimeTomorrow: tomorrow at t, whether or not t has passed today. */
  function GetNextTimeTomorrow(now: Instant, z: Zone, t: Clock): (r: Instant)
    ensures DayIndex(r, z) == DayIndex(now, z) + 1 && HasClock(r, z, t)
  {
    AtClockFields(DayIndex(now, z) + 1, t.hour, t.minute, z);
    TodayAt(now, z, t) + 86400
  }

  /** Two instants with the same clock fields lie a whole number of days apart. */
  lemma SameClockDays(x: Instant, y: Instant, z: Zone)
    requires HourOf(x, z) == HourOf(y, z) && MinuteOf(x, z) == MinuteOf(y, z) && SecondOf(x, z) == SecondOf(y, z)
    ensures x - y == (DayIndex(x, z) - DayIndex(y, z)) * 86400
  {
    SplitInstant(x, z);
    SplitInstant(y, z);
  }

  /**
   * Only one instant in [now, now + 24h) reads t on the clock, so with their
   * contract GetNextTimeToday has no other answer.
   */
  lemma DailyUnique(now: Instant, z: Zone, t: Clock, x: Instant, y: Instant)
    requires now <= x < now + 86400 && HasClock(x, z, t)
    requires now <= y < now + 86400 && HasClock(y, z, t)
    ensures x == y
  {
    SameClockDays(x, y, z);
    WholeDaysInWindow(x, y, now, DayIndex(x, z) - DayIndex(y, z), 1);
  }

  /** Two instants a whole number of days apart inside a window of `span` days differ by fewer than `span` days. */
  lemma WholeDaysInWindow(a: int, b: int, lo: int, k: int, span: int)
    requires lo <= a < lo + span * 86400 && lo <= b < lo + span * 86400 && a - b == k * 86400
    ensures -span < k < span
  {
  }

  /** The number of days GetNextTimeWeek adds to today's date. */
  function WeekDayOffset(now: Instant, z: Zone, t: Clock, interval: int): (days: int)
    ensures 0 <= interval < 7 ==> 0 <= days <= 7 && (WeekdayOf(now, z) + days) % 7 == interval
    ensures 0 <= interval < 7 ==> (days == 0 ==> !ClockPassed(now, z, t)) && (days == 7 ==> ClockPassed(now, z, t))
  {
    var d := GoRem(interval - WeekdayOf(now, z) + 7, 7);
    if d == 0 && ClockPassed(now, z, t) then 7 else d
  }

  /**
   * GetNextTimeWeek: for a weekday 0..6 (0 = Sunday), the next instant after
   * now that falls on that weekday at t, at most a week ahead.
   */
  function GetNextTimeWeek(now: Instant, z: Zone, t: Clock, interval: int): (r: Instant)
    ensures r == AtClock(DayIndex(now, z) + WeekDayOffset(now, z, t, interval), t.hour, t.minute, z)
    ensures 0 <= interval < 7 ==>
      WeekdayOf(r, z) == interval && HasClock(r, z, t) && now < r <= now + 7 * 86400
  {
    var days := WeekDayOffset(now, z, t, interval);
    var today := TodayAt(now, z, t);
    AddDays(today, days, z);
    var r := AddDate(today, 0, 0, days, z);
    assert 0 <= interval < 7 ==> WeekdayOf(r, z) == interval && HasClock(r, z, t) && now < r <= now + 7 * 86400 by {
      if 0 <= interval < 7 {
        WeekFacts(now, z, t, interval, days, r);
      }
    }
    r
  }

  /** Moving d days along moves the weekday d places, modulo 7. */
  lemma WeekdayShift(day: int, days: int)
    ensures ((day + 4) % 7 + days) % 7 == (day + days + 4) % 7
  {
  }

  lemma WeekFacts(now: Instant, z: Zone, t: Clock, interval: int, days: int, r: Instant)
    requires 0 <= interval < 7 && days == WeekDayOffset(now, z, t, interval)
    requires r == AtClock(DayIndex(now, z) + days, t.hour, t.minute, z)
    ensures WeekdayOf(r, z) == interval && HasClock(r, z, t) && now < r <= now + 7 * 86400
  {
    var d := DayIndex(now, z);
    AtClockFields(d + days, t.hour, t.minute, z);
    assert DayIndex(r, z) == d + days;
    WeekdayShift(d, days);
    assert WeekdayOf(r, z) == (d + days + 4) % 7 == (WeekdayOf(now, z) + days) % 7;
    WithinDay(now, z);
    var today := TodayAt(now, z, t);
    assert r == today + days * 86400;
  }

  /** Two day numbers less than a week apart with the same weekday are the same day. */
  lemma SameWeekday(day: int, k: int)
    requires -7 < k < 7 && (day + k + 4) % 7 == (day + 4) % 7
    ensures k == 0
  {
  }

  /**
   * Only one instant in (now, now + 7 days] falls on a given weekday at t, so
   * with GetNextTimeWeek's contract the weekly rule has no other answer.
   */
  lemma WeeklyUnique(now: Instant, z: Zone, t: Clock, interval: int, x: Instant, y: Instant)
    requires now < x <= now + 7 * 86400 && HasClock(x, z, t) && WeekdayOf(x, z) == interval
    requires now < y <= now + 7 * 86400 && HasClock(y, z, t) && WeekdayOf(y, z) == interval
    ensures x == y
  {
    SameClockDays(x, y, z);
    var dx, dy := DayIndex(x, z), DayIndex(y, z);
    WholeDaysInWindow(x, y, now + 1, dx - dy, 7);
    SameWeekday(dy, dx - dy);
  }

  /** The (year, month) GetNextTimeMonth aims at: now's month, or the next one (December wraps to January). */
  function MonthTarget(now: Instant, z: Zone, t: Clock, interval: int): (ym: (int, int))
    ensures 1 <= ym.1 <= 12
  {
    var c := CivilOf(now, z);
    if c.day > interval || (c.day == interval && ClockPassed(now, z, t)) then
      if c.month + 1 > 12 then (c.year + 1, 1) else (c.year, c.month + 1)
    else (c.year, c.month)
  }

  /** now is at or past day d at t exactly when d is an earlier day, or today with the clock passed. */
  lemma AtDayCompare(now: Instant, z: Zone, t: Clock, d: int)
    ensures now >= AtClock(d, t.hour, t.minute, z)
      <==> d < DayIndex(now, z) || (d == DayIndex(now, z) && ClockPassed(now, z, t))
  {
    DayClockCompare(now, z, t.hour, t.minute, d);
  }

  /** The decision and the lower bound behind GetNextTimeMonth. */
  lemma MonthFacts(now: Instant, z: Zone, t: Clock, interval: int)
    ensures var c := CivilOf(now, z);
      MonthTarget(now, z, t, interval) != (c.year, c.month)
      <==> now >= Date(c.year, c.month, interval, t.hour, t.minute, 0, z)
    ensures var ym := MonthTarget(now, z, t, interval);
      interval >= 1 ==> Date(ym.0, ym.1, interval, t.hour, t.minute, 0, z) > now
  {
    var c := CivilOf(now, z);
    var ym := MonthTarget(now, z, t, interval);
    var start := DaysFromCivil(c.year, c.month, 1);
    NowDay(now, z);
    DateAt(c.year, c.month, interval, t.hour, t.minute, z);
    AtDayCompare(now, z, t, start + interval - 1);
    if ym != (c.year, c.month) && interval >= 1 {
      MonthStep(c.year, c.month);
      DateAt(ym.0, ym.1, interval, t.hour, t.minute, z);
      AtDayCompare(now, z, t, start + DaysInMonth(c.year, c.month) + interval - 1);
    }
  }

  /**
   * GetNextTimeMonth: day `interval` of the target month at t, built through
   * time.Date, so a day beyond the month's length rolls into the next month.
   */
  function GetNextTimeMonth(now: Instant, z: Zone, t: Clock, interval: int): (r: Instant)
    ensures var c := CivilOf(now, z);
      MonthTarget(now, z, t, interval) != (c.year, c.month)
      <==> now >= Date(c.year, c.month, interval, t.hour, t.minute, 0, z)
    ensures interval >= 1 ==> r > now
    ensures var ym := MonthTarget(now, z, t, interval);
      1 <= interval <= DaysInMonth(ym.0, ym.1) ==>
        CivilOf(r, z) == Civil(ym.0, ym.1, interval) && HasClock(r, z, t)
  {
    var ym := MonthTarget(now, z, t, interval);
    MonthFacts(now, z, t, interval);
    assert 1 <= interval <= DaysInMonth(ym.0, ym.1) ==>
      var r := Date(ym.0, ym.1, interval, t.hour, t.minute, 0, z);
      CivilOf(r, z) == Civil(ym.0, ym.1, interval) && HasClock(r, z, t)
    by {
      if 1 <= interval <= DaysInMonth(ym.0, ym.1) {
        DateFields(Civil(ym.0, ym.1, interval), t.hour, t.minute, z);
      }
    }
    Date(ym.0, ym.1, interval, t.hour, t.minute, 0, z)
  }

  /** The month after (y, m). */
  function NextMonth(y: int, m: int): (ym: (int, int))
  {
    if m == 12 then (y + 1, 1) else (y, m + 1)
  }

  /**
   * time.Date normalises the day: whatever the day number, the monthly time
   * is interval - 1 days after the first of the target month, at t. So a day
   * beyond the month's length rolls into the next month; day 31 in a 30-day
   * month is the 1st of the month after.
   */
  lemma MonthRollsOver(now: Instant, z: Zone, t: Clock, interval: int)
    ensures var ym := MonthTarget(now, z, t, interval);
      DayIndex(GetNextTimeMonth(now, z, t, interval), z) == DaysFromCivil(ym.0, ym.1, 1) + interval - 1
      && HasClock(GetNextTimeMonth(now, z, t, interval), z, t)
    ensures var ym := MonthTarget(now, z, t, interval);
      var n := NextMonth(ym.0, ym.1);
      DaysInMonth(ym.0, ym.1) < interval <= DaysInMonth(ym.0, ym.1) + DaysInMonth(n.0, n.1) ==>
        CivilOf(GetNextTimeMonth(now, z, t, interval), z) == Civil(n.0, n.1, interval - DaysInMonth(ym.0, ym.1))
  {
    var ym := MonthTarget(now, z, t, interval);
    var n := NextMonth(ym.0, ym.1);
    var r := GetNextTimeMonth(now, z, t, interval);
    DateInRange(ym.0, ym.1, 1, 0, 0, 0, z);
    assert r == AtClock(DaysFromCivil(ym.0, ym.1, 1) + interval - 1, t.hour, t.minute, z);
    AtClockFields(DaysFromCivil(ym.0, ym.1, 1) + interval - 1, t.hour, t.minute, z);
    if DaysInMonth(ym.0, ym.1) < interval <= DaysInMonth(ym.0, ym.1) + DaysInMonth(n.0, n.1) {
      var d := interval - DaysInMonth(ym.0, ym.1);
      MonthStep(ym.0, ym.1);
      DateInRange(n.0, n.1, d, t.hour, t.minute, 0, z);
      assert r == Date(n.0, n.1, d, t.hour, t.minute, 0, z);
      DateFields(Civil(n.0, n.1, d), t.hour, t.minute, z);
    }
  }

  /** Day and month of a "DD.MM" text as GetNextTimeYear reads them: Atoi values, errors ignored. */
  function YearDayMonth(date: string): (dm: (int, int))
    requires |Split(date, '.')| >= 2
  {
    var parts := Split(date, '.');
    (Atoi(parts[0]).value, Atoi(parts[1]).value)
  }

  /** Whether GetNextTimeYear moves to next year: (month, day, hour, minute) of now at or past the target. */
  predicate YearPassed(now: Instant, z: Zone, t: Clock, day: int, mon: int)
  {
    var c := CivilOf(now, z);
    c.month > mon || (c.month == mon && (c.day > day || (c.day == day && ClockPassed(now, z, t))))
  }

  /** When the target (month, day) is valid this year, YearPassed is the instant comparison. */
  lemma YearPassedMeans(now: Instant, z: Zone, t: Clock, day: int, mon: int)
    requires ValidCivil(Civil(CivilOf(now, z).year, mon, day))
    ensures YearPassed(now, z, t, day, mon)
      <==> now >= Date(CivilOf(now, z).year, mon, day, t.hour, t.minute, 0, z)
  {
    var c := CivilOf(now, z);
    var target := DaysFromCivil(c.year, mon, day);
    var dn := DaysFromCivil(c.year, c.month, c.day);
    DateAt(c.year, mon, day, t.hour, t.minute, z);
    AtDayCompare(now, z, t, target);
    if mon < c.month {
      SameYearOrder(c.year, mon, day, c.month, c.day);
    } else if c.month < mon {
      SameYearOrder(c.year, c.month, c.day, mon, day);
    }
  }

  /** time.Date on a day after now's day lies after now, whatever the clock. */
  lemma DateAfterDay(now: Instant, z: Zone, y: int, mon: int, day: int, t: Clock)
    requires 1 <= mon <= 12
    requires DaysFromCivil(y, mon, day) > DayIndex(now, z)
    ensures Date(y, mon, day, t.hour, t.minute, 0, z) > now
  {
    LaterDay(now, z, t.hour, t.minute, DaysFromCivil(y, mon, day));
    DateAt(y, mon, day, t.hour, t.minute, z);
  }

  /** Next year's (month, day) at t lies after now, given now's calendar date c. */
  lemma NextYearFrom(now: Instant, z: Zone, t: Clock, c: Civil, day: int, mon: int)
    requires 1 <= mon <= 12 && day >= 1
    requires ValidCivil(c) && DaysFromCivil(c.year, c.month, c.day) == DayIndex(now, z)
    ensures Date(c.year + 1, mon, day, t.hour, t.minute, 0, z) > now
  {
    NextYearLater(c.year, c.month, c.day, mon, day);
    DateAfterDay(now, z, c.year + 1, mon, day, t);
  }

  /** Next year's (month, day) at t lies after now. */
  lemma NextYearAfterNow(now: Instant, z: Zone, t: Clock, day: int, mon: int)
    requires 1 <= mon <= 12 && day >= 1
    ensures Date(CivilOf(now, z).year + 1, mon, day, t.hour, t.minute, 0, z) > now
  {
    var c := CivilOf(now, z);
    NextYearFrom(now, z, t, c, day, mon);
  }

  /** This year's (month, day) at t lies after now when the year has not passed it. */
  lemma ThisYearAfterNow(now: Instant, z: Zone, t: Clock, day: int, mon: int)
    requires 1 <= mon <= 12 && day >= 1 && !YearPassed(now, z, t, day, mon)
    ensures Date(CivilOf(now, z).year, mon, day, t.hour, t.minute, 0, z) > now
  {
    var c := CivilOf(now, z);
    DateAt(c.year, mon, day, t.hour, t.minute, z);
    if c.month < mon {
      SameYearOrder(c.year, c.month, c.day, mon, day);
    }
    AtDayCompare(now, z, t, DaysFromCivil(c.year, mon, day));
  }

  /** The year GetNextTimeYear picks: next year once this year's occurrence has passed. */
  function TargetYear(now: Instant, z: Zone, t: Clock, day: int, mon: int): int
  {
    if YearPassed(now, z, t, day, mon) then CivilOf(now, z).year + 1 else CivilOf(now, z).year
  }

  /** The yearly occurrence of (day, mon) at t that GetNextTimeYear picks. */
  function YearlyAt(now: Instant, z: Zone, t: Clock, day: int, mon: int): Instant
  {
    Date(TargetYear(now, z, t, day, mon), mon, day, t.hour, t.minute, 0, z)
  }

  /** The yearly occurrence GetNextTimeYear picks lies after now, for any valid month and positive day. */
  lemma YearlyAfterNow(now: Instant, z: Zone, t: Clock, day: int, mon: int)
    requires 1 <= mon <= 12 && day >= 1
    ensures YearlyAt(now, z, t, day, mon) > now
  {
    if YearPassed(now, z, t, day, mon) {
      NextYearAfterNow(now, z, t, day, mon);
      assert TargetYear(now, z, t, day, mon) == CivilOf(now, z).year + 1;
    } else {
      ThisYearAfterNow(now, z, t, day, mon);
      assert TargetYear(now, z, t, day, mon) == CivilOf(now, z).year;
    }
  }

  /**
   * GetNextTimeYear: the day and month of a "DD.MM" text at t, this year if
   * that is still ahead, otherwise next year. Go indexes the second part
   * unconditionally, so text without a '.' is outside the function's domain.
   */
  function GetNextTimeYear(now: Instant, z: Zone, t: Clock, date: string): (r: Instant)
    requires |Split(date, '.')| >= 2
    ensures var (day, mon) := YearDayMonth(date);
      1 <= mon <= 12 && day >= 1 ==> r > now
    ensures var (day, mon) := YearDayMonth(date); var y := CivilOf(now, z).year;
      ValidCivil(Civil(y, mon, day)) ==>
        (YearPassed(now, z, t, day, mon) <==> now >= Date(y, mon, day, t.hour, t.minute, 0, z))
  {
    var (day, mon) := YearDayMonth(date);
    assert 1 <= mon <= 12 && day >= 1 ==> YearlyAt(now, z, t, day, mon) > now by {
      if 1 <= mon <= 12 && day >= 1 {
        YearlyAfterNow(now, z, t, day, mon);
      }
    }
    assert var y := CivilOf(now, z).year; ValidCivil(Civil(y, mon, day)) ==>
      (YearPassed(now, z, t, day, mon) <==> now >= Date(y, mon, day, t.hour, t.minute, 0, z)) by {
      if ValidCivil(Civil(CivilOf(now, z).year, mon, day)) {
        YearPassedMeans(now, z, t, day, mon);
      }
    }
    YearlyAt(now, z, t, day, mon)
  }

  /**
   * GetNextTimeDate: the literal D.M.Y of a three-part text at t (Atoi values,
   * errors ignored), or the zero time for any other number of parts.
   */
  function GetNextTimeDate(t: Clock, date: string, z: Zone): (r: Instant)
    ensures |Split(date, '.')| != 3 ==> r == ZeroTime
    ensures var parts := Split(date, '.');
      |parts| == 3 && ValidCivil(Civil(Atoi(parts[2]).value, Atoi(parts[1]).value, Atoi(parts[0]).value)) ==>
        CivilOf(r, z) == Civil(Atoi(parts[2]).value, Atoi(parts[1]).value, Atoi(parts[0]).value) && HasClock(r, z, t)
  {
    var parts := Split(date, '.');
    if |parts| == 3 then
      var c := Civil(Atoi(parts[2]).value, Atoi(parts[1]).value, Atoi(parts[0]).value);
      var r := Date(c.year, c.month, c.day, t.hour, t.minute, 0, z);
      assert ValidCivil(c) ==> CivilOf(r, z) == c && HasClock(r, z, t) by {
        if ValidCivil(c) {
          DateFields(c, t.hour, t.minute, z);
        }
      }
      r
    else ZeroTime
  }

  /** GetNextTimeNDays: the start date at t plus `interval` days; now plays no part. */
  function GetNextTimeNDays(start: Instant, z: Zone, t: Clock, interval: int): (r: Instant)
    ensures r == TodayAt(start, z, t) + interval * 86400
    ensures DayIndex(r, z) == DayIndex(start, z) + interval && HasClock(r, z, t)
  {
    var first := TodayAt(start, z, t);
    AddDays(first, interval, z);
    AtClockFields(DayIndex(start, z) + interval, t.hour, t.minute, z);
    AddDate(first, 0, 0, interval, z)
  }
}
