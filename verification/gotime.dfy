/**
 * The part of Go's `time` package the bot uses, for fixed-offset locations:
 * an instant is a whole number of seconds since 1970-01-01T00:00:00Z, civil
 * fields come from the proleptic Gregorian calendar, and `time.Date`
 * normalises out-of-range months and days the way Go does.
 */
module GoTime {

  /** A fixed-offset location, in seconds east of UTC. */
  datatype Zone = Zone(offset: int)

  const UTC: Zone := Zone(0)

  /** Seconds since the Unix epoch. */
  type Instant = int

  type Hour = h: int | 0 <= h < 24
  type Minute = m: int | 0 <= m < 60

  /** The hour and minute of a time of day, as parsed with the layout "15:04". */
  datatype Clock = Clock(hour: Hour, minute: Minute)

  datatype Civil = Civil(year: int, month: int, day: int)

  predicate IsLeap(y: int)
  {
    y % 4 == 0 && (y % 100 != 0 || y % 400 == 0)
  }

  function DaysInMonth(y: int, m: int): (n: int)
    ensures 28 <= n <= 31
  {
    if m == 2 then (if IsLeap(y) then 29 else 28)
    else if m == 4 || m == 6 || m == 9 || m == 11 then 30
    else 31
  }

  predicate ValidCivil(c: Civil)
  {
    1 <= c.month <= 12 && 1 <= c.day <= DaysInMonth(c.year, c.month)
  }

  /** Days from 0000-03-01 to y-03-01. */
  function YearStart(y: int): int
  {
    365 * y + y / 4 - y / 100 + y / 400
  }

  /** Days from March 1 to the first day of the mp-th month counted from March. */
  function MonthOffset(mp: int): int
  {
    (153 * mp + 2) / 5
  }

  /** Days since 1970-01-01 of day d of month m of year y; d may lie outside the month. */
  function DaysFromCivil(y: int, m: int, d: int): int
    requires 1 <= m <= 12
  {
    var yy := if m <= 2 then y - 1 else y;
    var mp := if m > 2 then m - 3 else m + 9;
    YearStart(yy) + MonthOffset(mp) + d - 1 - 719468
  }

  function SplitEra(doe: int): (r: (int, int))
    requires 0 <= doe < 146097
    ensures 0 <= r.0 < 400 && 0 <= r.1
    ensures 365 * r.0 + r.0 / 4 - r.0 / 100 + r.1 == doe
    ensures r.1 < 365 + (if IsLeap(r.0 + 1) then 1 else 0)
  {
    var c := if doe / 36524 == 4 then 3 else doe / 36524;
    var r1 := doe - 36524 * c;
    var b := r1 / 1461;
    var r2 := r1 - 1461 * b;
    var a := if r2 / 365 == 4 then 3 else r2 / 365;
    var r3 := r2 - 365 * a;
    var yoe := 100 * c + 4 * b + a;
    DivUnique(yoe, 4, 25 * c + b, a);
    DivUnique(yoe, 100, c, 4 * b + a);
    assert r3 == 365 ==> IsLeap(yoe + 1) by {
      if r3 == 365 {
        assert a == 3 && r2 == 1460;
        DivUnique(yoe + 1, 4, 25 * c + b + 1, 0);
        if b == 24 {
          assert c == 3;
          DivUnique(yoe + 1, 400, 1, 0);
        } else {
          DivUnique(yoe + 1, 100, c, 4 * b + 4);
        }
      }
    }
    (yoe, r3)
  }

  function SplitYear(doy: int, leap: bool): (r: (int, int))
    requires 0 <= doy < 365 + (if leap then 1 else 0)
    ensures 0 <= r.0 <= 11 && 1 <= r.1
    ensures MonthOffset(r.0) + r.1 - 1 == doy
    ensures r.0 < 11 ==> r.1 <= MonthOffset(r.0 + 1) - MonthOffset(r.0)
    ensures r.0 == 11 ==> r.1 <= (if leap then 29 else 28)
  {
    var mp := (5 * doy + 2) / 153;
    (mp, doy - MonthOffset(mp) + 1)
  }

  lemma YearStartEra(era: int, yoe: int)
    requires 0 <= yoe < 400
    ensures YearStart(400 * era + yoe) == 146097 * era + 365 * yoe + yoe / 4 - yoe / 100
  {
    var y := 400 * era + yoe;
    DivUnique(y, 4, 100 * era + yoe / 4, yoe % 4);
    DivUnique(y, 100, 4 * era + yoe / 100, yoe % 100);
    DivUnique(y, 400, era, yoe);
  }

  lemma LeapEra(era: int, yoe: int)
    requires 0 <= yoe < 400
    ensures IsLeap(400 * era + yoe + 1) == IsLeap(yoe + 1)
  {
    var y := 400 * era + yoe + 1;
    var w := yoe + 1;
    DivUnique(y, 4, 100 * era + w / 4, w % 4);
    DivUnique(y, 100, 4 * era + w / 100, w % 100);
    DivUnique(y, 400, era + w / 400, w % 400);
  }

  /** The civil date of a day number: a valid date that maps back to the same day. */
  function CivilFromDays(z: int): (r: Civil)
    ensures ValidCivil(r)
    ensures DaysFromCivil(r.year, r.month, r.day) == z
  {
    var s := z + 719468;
    var era := s / 146097;
    var (yoe, doy) := SplitEra(s % 146097);
    var yy := 400 * era + yoe;
    YearStartEra(era, yoe);
    LeapEra(era, yoe);
    var (mp, d) := SplitYear(doy, IsLeap(yy + 1));
    var m := if mp < 10 then mp + 3 else mp - 9;
    MarchYearCivil(yy, mp, d);
    assert YearStart(yy) + doy == s;
    Civil(if m <= 2 then yy + 1 else yy, m, d)
  }

  /** Day d of the mp-th month counted from March of year yy, as a civil date. */
  lemma MarchYearCivil(yy: int, mp: int, d: int)
    requires 0 <= mp <= 11 && 1 <= d
    requires mp < 11 ==> d <= MonthOffset(mp + 1) - MonthOffset(mp)
    requires mp == 11 ==> d <= (if IsLeap(yy + 1) then 29 else 28)
    ensures var m := if mp < 10 then mp + 3 else mp - 9;
      var c := Civil(if m <= 2 then yy + 1 else yy, m, d);
      ValidCivil(c) && DaysFromCivil(c.year, c.month, c.day) == YearStart(yy) + MonthOffset(mp) + d - 1 - 719468
  {
  }

  lemma DivUnique(a: int, n: int, q: int, r: int)
    requires n > 0 && a == q * n + r && 0 <= r < n
    ensures a / n == q && a % n == r
  {
    var q0, r0 := a / n, a % n;
    var k := q0 - q;
    assert k * n == r - r0 by {
      assert q0 * n + r0 == q * n + r;
      assert k * n == q0 * n - q * n;
    }
  }

  lemma DivBump(y: int, n: int)
    requires n > 0
    ensures y / n - (y - 1) / n == (if y % n == 0 then 1 else 0)
  {
    var q, r := (y - 1) / n, (y - 1) % n;
    if r == n - 1 {
      DivUnique(y, n, q + 1, 0);
    } else {
      DivUnique(y, n, q, r + 1);
    }
  }

  /** A year from March to March has 365 days, 366 when it ends in a leap February. */
  lemma YearStartStep(y: int)
    ensures YearStart(y) - YearStart(y - 1) == 365 + (if IsLeap(y) then 1 else 0)
  {
    DivBump(y, 4);
    DivBump(y, 100);
    DivBump(y, 400);
    if y % 400 == 0 {
      DivUnique(y, 100, (y / 400) * 4, 0);
      DivUnique(y, 4, (y / 400) * 100, 0);
    } else if y % 100 == 0 {
      DivUnique(y, 4, (y / 100) * 25, 0);
    }
  }

  /** The first day of the month after (y, m) comes DaysInMonth(y, m) days after its first day. */
  lemma MonthStep(y: int, m: int)
    requires 1 <= m <= 12
    ensures m < 12 ==> DaysFromCivil(y, m + 1, 1) == DaysFromCivil(y, m, 1) + DaysInMonth(y, m)
    ensures m == 12 ==> DaysFromCivil(y + 1, 1, 1) == DaysFromCivil(y, m, 1) + DaysInMonth(y, m)
  {
    if m == 2 {
      YearStartStep(y);
    }
  }

  /** The same month of the next year starts 365 or 366 days later. */
  lemma YearStep(y: int, m: int)
    requires 1 <= m <= 12
    ensures 365 <= DaysFromCivil(y + 1, m, 1) - DaysFromCivil(y, m, 1) <= 366
  {
    if m <= 2 {
      YearStartStep(y);
    } else {
      YearStartStep(y + 1);
    }
  }

  /** Month starts are ordered within a year: each later month starts after the earlier one ends. */
  lemma {:induction false} MonthStartOrder(y: int, m1: int, m2: int)
    requires 1 <= m1 < m2 <= 12
    ensures DaysFromCivil(y, m2, 1) >= DaysFromCivil(y, m1, 1) + DaysInMonth(y, m1)
    decreases m2 - m1
  {
    MonthStep(y, m1);
    if m1 + 1 < m2 {
      MonthStartOrder(y, m1 + 1, m2);
    }
  }

  /** Every day of year y comes before January 1 of year y + 1. */
  lemma YearEnd(y: int, m: int)
    requires 1 <= m <= 12
    ensures DaysFromCivil(y + 1, 1, 1) >= DaysFromCivil(y, m, 1) + DaysInMonth(y, m)
  {
    MonthStep(y, 12);
    if m < 12 {
      MonthStartOrder(y, m, 12);
    }
  }

  /** January 1 of a later year comes after every day of an earlier year. */
  lemma {:induction false} YearOrder(y1: int, y2: int, m: int)
    requires y1 < y2 && 1 <= m <= 12
    ensures DaysFromCivil(y2, 1, 1) >= DaysFromCivil(y1, m, 1) + DaysInMonth(y1, m)
    decreases y2 - y1
  {
    YearEnd(y1, m);
    if y1 + 1 < y2 {
      YearOrder(y1 + 1, y2, 1);
    }
  }

  predicate CivilBefore(a: Civil, b: Civil)
  {
    a.year < b.year || (a.year == b.year && (a.month < b.month || (a.month == b.month && a.day < b.day)))
  }

  /** Day numbers follow calendar order on valid dates. */
  lemma CivilOrder(a: Civil, b: Civil)
    requires ValidCivil(a) && ValidCivil(b) && CivilBefore(a, b)
    ensures DaysFromCivil(a.year, a.month, a.day) < DaysFromCivil(b.year, b.month, b.day)
  {
    if a.year < b.year {
      YearOrder(a.year, b.year, a.month);
      if b.month > 1 {
        MonthStartOrder(b.year, 1, b.month);
      }
    } else if a.month < b.month {
      MonthStartOrder(a.year, a.month, b.month);
    }
  }

  /** Round trip: a valid date's day number converts back to that date. */
  lemma CivilRoundTrip(c: Civil)
    requires ValidCivil(c)
    ensures CivilFromDays(DaysFromCivil(c.year, c.month, c.day)) == c
  {
    var c2 := CivilFromDays(DaysFromCivil(c.year, c.month, c.day));
    if CivilBefore(c, c2) {
      CivilOrder(c, c2);
    } else if CivilBefore(c2, c) {
      CivilOrder(c2, c);
    }
  }

  /** time.Date(y, m, d, h, mi, s, 0, z): months normalise into years, and days, hours and minutes roll over linearly. */
  function Date(y: int, m: int, d: int, h: int, mi: int, s: int, z: Zone): Instant
  {
    var yy := y + (m - 1) / 12;
    var mm := (m - 1) % 12 + 1;
    (DaysFromCivil(yy, mm, 1) + d - 1) * 86400 + h * 3600 + mi * 60 + s - z.offset
  }

  /** time.Time{}: January 1 of year 1, 00:00:00 UTC. */
  const ZeroTime: Instant := -62135596800

  lemma ZeroTimeIsYearOne()
    ensures Date(1, 1, 1, 0, 0, 0, UTC) == ZeroTime
  {
  }

  /** The day number, in zone z, of the calendar day holding t. */
  function DayIndex(t: Instant, z: Zone): int
  {
    (t + z.offset) / 86400
  }

  function SecondOfDay(t: Instant, z: Zone): (r: int)
    ensures 0 <= r < 86400
  {
    (t + z.offset) % 86400
  }

  function HourOf(t: Instant, z: Zone): Hour
  {
    SecondOfDay(t, z) / 3600
  }

  function MinuteOf(t: Instant, z: Zone): Minute
  {
    SecondOfDay(t, z) % 3600 / 60
  }

  function SecondOf(t: Instant, z: Zone): int
  {
    SecondOfDay(t, z) % 60
  }

  /**
   * The calendar date of t in zone z: the one valid date whose day number is
   * t's (CivilFromDays computes it; CivilUnique shows there is no other).
   */
  function CivilOf(t: Instant, z: Zone): (c: Civil)
    ensures ValidCivil(c) && DaysFromCivil(c.year, c.month, c.day) == DayIndex(t, z)
  {
    CivilUnique(DayIndex(t, z));
    var c :| ValidCivil(c) && DaysFromCivil(c.year, c.month, c.day) == DayIndex(t, z);
    c
  }

  /** Exactly one valid date has a given day number. */
  lemma CivilUnique(n: int)
    ensures var c := CivilFromDays(n); ValidCivil(c) && DaysFromCivil(c.year, c.month, c.day) == n
    ensures forall a: Civil, b: Civil ::
      ValidCivil(a) && ValidCivil(b) && DaysFromCivil(a.year, a.month, a.day) == n && DaysFromCivil(b.year, b.month, b.day) == n
      ==> a == b
  {
    forall a: Civil, b: Civil |
      ValidCivil(a) && ValidCivil(b) && DaysFromCivil(a.year, a.month, a.day) == n && DaysFromCivil(b.year, b.month, b.day) == n
      ensures a == b
    {
      CivilRoundTrip(a);
      CivilRoundTrip(b);
    }
  }

  /** time.Weekday: 0 is Sunday; 1970-01-01 was a Thursday. */
  function WeekdayOf(t: Instant, z: Zone): (w: int)
    ensures 0 <= w < 7
  {
    (DayIndex(t, z) + 4) % 7
  }

  /** The instant of day number `day` at h:mi:00 in zone z. */
  function AtClock(day: int, h: int, mi: int, z: Zone): Instant
  {
    day * 86400 + h * 3600 + mi * 60 - z.offset
  }

  /**
   * t.AddDate(years, months, days) in zone z: add to the civil fields, then
   * normalise through time.Date; the hour, minute and second are t's own,
   * i.e. t's second of the day is kept.
   */
  function AddDate(t: Instant, years: int, months: int, days: int, z: Zone): Instant
  {
    var c := CivilOf(t, z);
    Date(c.year + years, c.month + months, c.day + days, 0, 0, 0, z) + SecondOfDay(t, z)
  }

  /** AddDate keeps the time of day: the result has t's second of the day in z. */
  lemma AddDateKeepsClock(t: Instant, years: int, months: int, days: int, z: Zone)
    ensures SecondOfDay(AddDate(t, years, months, days, z), z) == SecondOfDay(t, z)
  {
    var c := CivilOf(t, z);
    var yy := c.year + years + (c.month + months - 1) / 12;
    var mm := (c.month + months - 1) % 12 + 1;
    var k := DaysFromCivil(yy, mm, 1) + c.day + days - 1;
    DivUnique(AddDate(t, years, months, days, z) + z.offset, 86400, k, SecondOfDay(t, z));
  }

  /** time.Date on an in-range month is the date's day number plus the clock. */
  lemma DateInRange(y: int, m: int, d: int, h: int, mi: int, s: int, z: Zone)
    requires 1 <= m <= 12
    ensures Date(y, m, d, h, mi, s, z) == DaysFromCivil(y, m, d) * 86400 + h * 3600 + mi * 60 + s - z.offset
  {
    assert (m - 1) / 12 == 0 && (m - 1) % 12 == m - 1;
  }

  /** An instant splits into its day number and the seconds into that day. */
  lemma SplitInstant(t: Instant, z: Zone)
    ensures t == DayIndex(t, z) * 86400 + SecondOfDay(t, z) - z.offset
    ensures SecondOfDay(t, z) == HourOf(t, z) * 3600 + MinuteOf(t, z) * 60 + SecondOf(t, z)
  {
  }

  /** Building a date from t's own calendar day and a clock gives that day at that clock. */
  lemma SameDayAt(t: Instant, z: Zone, h: int, mi: int)
    ensures
      var c := CivilOf(t, z);
      Date(c.year, c.month, c.day, h, mi, 0, z) == AtClock(DayIndex(t, z), h, mi, z)
  {
    var c := CivilOf(t, z);
    DateInRange(c.year, c.month, c.day, h, mi, 0, z);
  }

  /** The fields of `day` at h:mi are exactly that day, hour and minute, with zero seconds. */
  lemma AtClockFields(day: int, h: int, mi: int, z: Zone)
    requires 0 <= h < 24 && 0 <= mi < 60
    ensures DayIndex(AtClock(day, h, mi, z), z) == day
    ensures HourOf(AtClock(day, h, mi, z), z) == h
    ensures MinuteOf(AtClock(day, h, mi, z), z) == mi
    ensures SecondOf(AtClock(day, h, mi, z), z) == 0
  {
    var t := AtClock(day, h, mi, z);
    DivUnique(t + z.offset, 86400, day, h * 3600 + mi * 60);
    DivUnique(h * 3600 + mi * 60, 3600, h, mi * 60);
    DivUnique(mi * 60, 60, mi, 0);
    DivUnique(h * 3600 + mi * 60, 60, h * 60 + mi, 0);
  }

  /** An instant lies within its own calendar day. */
  lemma WithinDay(t: Instant, z: Zone)
    ensures AtClock(DayIndex(t, z), 0, 0, z) <= t < AtClock(DayIndex(t, z) + 1, 0, 0, z)
  {
  }

  /** The clock of t is at or after h:mi exactly when t is at or after its day at h:mi. */
  lemma ClockOrder(t: Instant, z: Zone, h: int, mi: int)
    requires 0 <= h < 24 && 0 <= mi < 60
    ensures (HourOf(t, z) > h || (HourOf(t, z) == h && MinuteOf(t, z) >= mi))
        <==> t >= AtClock(DayIndex(t, z), h, mi, z)
  {
    SplitInstant(t, z);
  }

  /** AddDate(0, 0, n) moves by exactly n days of 86400 seconds in a fixed-offset zone. */
  lemma AddDays(t: Instant, n: int, z: Zone)
    ensures AddDate(t, 0, 0, n, z) == t + n * 86400
  {
    var c := CivilOf(t, z);
    DateInRange(c.year, c.month, c.day + n, 0, 0, 0, z);
    SplitInstant(t, z);
  }

  /** AddDate(0, 1, 0) moves by the length of t's month, December rolling into January. */
  lemma AddMonth(t: Instant, z: Zone)
    ensures AddDate(t, 0, 1, 0, z) == t + DaysInMonth(CivilOf(t, z).year, CivilOf(t, z).month) * 86400
  {
    var c := CivilOf(t, z);
    SplitInstant(t, z);
    NowDay(t, z);
    MonthStep(c.year, c.month);
    if c.month < 12 {
      DateInRange(c.year, c.month + 1, c.day, 0, 0, 0, z);
    } else {
      assert Date(c.year, 13, c.day, 0, 0, 0, z) == (DaysFromCivil(c.year + 1, 1, 1) + c.day - 1) * 86400 - z.offset;
    }
  }

  /** AddDate(1, 0, 0) moves by 365 or 366 days. */
  lemma AddYear(t: Instant, z: Zone)
    ensures 365 * 86400 <= AddDate(t, 1, 0, 0, z) - t <= 366 * 86400
  {
    var c := CivilOf(t, z);
    var next := DaysFromCivil(c.year + 1, c.month, c.day);
    var today := DaysFromCivil(c.year, c.month, c.day);
    assert AddDate(t, 1, 0, 0, z) == next * 86400 - z.offset + SecondOfDay(t, z) by {
      DateInRange(c.year + 1, c.month, c.day, 0, 0, 0, z);
    }
    assert t == today * 86400 + SecondOfDay(t, z) - z.offset by {
      SplitInstant(t, z);
      NowDay(t, z);
    }
    YearGap(c.year, c.month, c.day);
  }

  /** The same day and month one year on is 365 or 366 days later. */
  lemma YearGap(y: int, m: int, d: int)
    requires 1 <= m <= 12
    ensures 365 <= DaysFromCivil(y + 1, m, d) - DaysFromCivil(y, m, d) <= 366
  {
    YearStep(y, m);
  }

  /** A date with valid fields reads back the fields it was built from. */
  lemma DateFields(c: Civil, h: int, mi: int, z: Zone)
    requires ValidCivil(c) && 0 <= h < 24 && 0 <= mi < 60
    ensures
      var t := Date(c.year, c.month, c.day, h, mi, 0, z);
      CivilOf(t, z) == c && HourOf(t, z) == h && MinuteOf(t, z) == mi && SecondOf(t, z) == 0
  {
    var day := DaysFromCivil(c.year, c.month, c.day);
    DateInRange(c.year, c.month, c.day, h, mi, 0, z);
    AtClockFields(day, h, mi, z);
    CivilUnique(day);
  }

  /** Moving a clock instant by k whole days, compared with an instant less than a day away. */
  lemma ShiftCompare(now: Instant, today: Instant, k: int)
    requires -86400 < now - today < 86400
    ensures now >= today + k * 86400 <==> k < 0 || (k == 0 && today <= now)
  {
    if k >= 1 {
      assert today + k * 86400 >= today + 86400;
    } else if k <= -1 {
      assert today + k * 86400 <= today - 86400;
    }
  }

  /** t is at or past day d at h:mi exactly when d is an earlier day, or t's own day with h:mi reached. */
  lemma DayClockCompare(t: Instant, z: Zone, h: int, mi: int, d: int)
    requires 0 <= h < 24 && 0 <= mi < 60
    ensures t >= AtClock(d, h, mi, z)
      <==> d < DayIndex(t, z) || (d == DayIndex(t, z) && (HourOf(t, z) > h || (HourOf(t, z) == h && MinuteOf(t, z) >= mi)))
  {
    var dn := DayIndex(t, z);
    var today := AtClock(dn, h, mi, z);
    SplitInstant(t, z);
    ClockOrder(t, z, h, mi);
    assert AtClock(d, h, mi, z) == today + (d - dn) * 86400;
    ShiftCompare(t, today, d - dn);
  }

  /** Any later day at h:mi lies after t. */
  lemma LaterDay(t: Instant, z: Zone, h: int, mi: int, d: int)
    requires 0 <= h < 24 && 0 <= mi < 60
    requires d > DayIndex(t, z)
    ensures AtClock(d, h, mi, z) > t
  {
    DayClockCompare(t, z, h, mi, d);
  }

  /** time.Date of an in-range month at h:mi:00 is the day number of that date at h:mi. */
  lemma DateAt(y: int, m: int, d: int, h: int, mi: int, z: Zone)
    requires 1 <= m <= 12
    ensures Date(y, m, d, h, mi, 0, z) == AtClock(DaysFromCivil(y, m, d), h, mi, z)
  {
    DateInRange(y, m, d, h, mi, 0, z);
  }

  /** The day number of t, read back from its own calendar date. */
  lemma NowDay(t: Instant, z: Zone)
    ensures var c := CivilOf(t, z);
      DayIndex(t, z) == DaysFromCivil(c.year, c.month, 1) + c.day - 1
    ensures var c := CivilOf(t, z);
      DayIndex(t, z) == DaysFromCivil(c.year, c.month, c.day)
  {
  }

  /** Within one year, a later (month, day) has a later day number. */
  lemma SameYearOrder(y: int, m1: int, d1: int, m2: int, d2: int)
    requires 1 <= m1 < m2 <= 12 && 1 <= d1 <= DaysInMonth(y, m1) && d2 >= 1
    ensures DaysFromCivil(y, m1, d1) < DaysFromCivil(y, m2, d2)
  {
    MonthStartOrder(y, m1, m2);
  }

  /** Every day of a year comes before any day from January 1 of the next. */
  lemma NextYearLater(y: int, m1: int, d1: int, m2: int, d2: int)
    requires 1 <= m1 <= 12 && 1 <= m2 <= 12 && 1 <= d1 <= DaysInMonth(y, m1) && d2 >= 1
    ensures DaysFromCivil(y, m1, d1) < DaysFromCivil(y + 1, m2, d2)
  {
    YearEnd(y, m1);
    DayShift(y, m1, d1);
    DayShift(y + 1, m2, d2);
    if m2 > 1 {
      MonthStartOrder(y + 1, 1, m2);
    }
  }

  /** Day d of a month lies d - 1 days after its first. */
  lemma DayShift(y: int, m: int, d: int)
    requires 1 <= m <= 12
    ensures DaysFromCivil(y, m, d) == DaysFromCivil(y, m, 1) + d - 1
  {
  }
}
