/** The input checks of package validator (pkg/validator/time.go and date.go). */
module Validator {
  import opened Wrappers
  import opened GoStrings
  import opened GoStrconv
  import opened GoTime
  import opened GoTimeParse

  /** The regular expression `^\d{2}:\d{2}$`: the two-digit hour and minute fields time.Parse reads. */
  function MatchesHHMM(s: string): (ok: bool)
    ensures ok ==> |s| == 5 && Split(s, ':') == [s[..2], s[3..]]
  {
    if |s| == 5 && IsDigit(s[0]) && IsDigit(s[1]) && s[2] == ':' && IsDigit(s[3]) && IsDigit(s[4]) then
      TwoFields(s, ':');
      true
    else false
  }

  /** Five characters with the separator in the middle and digits around it split into the two digit pairs. */
  lemma TwoFields(s: string, sep: char)
    requires |s| == 5 && IsDigit(s[0]) && IsDigit(s[1]) && s[2] == sep && IsDigit(s[3]) && IsDigit(s[4])
    requires !IsDigit(sep)
    ensures Split(s, sep) == [s[..2], s[3..]]
  {
    assert s == s[..2] + [sep] + s[3..];
    SplitAfter(s[..2], sep, s[3..]);
    SplitWhole(s[3..], sep);
  }

  /** IsTime: the text matches `^\d{2}:\d{2}$` and also parses with layout "15:04". */
  function IsTime(s: string): (ok: bool)
    ensures ok <==> MatchesHHMM(s) && TwoDigits(s[0], s[1]) <= 23 && TwoDigits(s[3], s[4]) <= 59
  {
    MatchesHHMM(s) && ParseClock(s).Some?
  }

  /** A valid time is the zero-padded text of the clock it parses to. */
  lemma IsTimeText(s: string)
    requires IsTime(s)
    ensures ParseClock(s).Some? && ClockText(ParseClock(s).value) == s
  {
  }

  /** Every zero-padded clock text is a valid time, so IsTime accepts exactly those texts. */
  lemma ClockTextIsTime(c: Clock)
    ensures IsTime(ClockText(c))
  {
    ParseClockText(c);
  }

  /** Single-digit hours and hours past 23 are refused although "9:00" parses. */
  lemma IsTimeRejects()
    ensures !IsTime("9:00") && ParseClock("9:00") == Some(Clock(9, 0))
    ensures !IsTime("25:00") && !IsTime("12:60") && IsTime("23:59")
  {
    assert "9:00"[1..] == ":00";
  }

  /**
   * NextTimeFromString: unparsable text leaves `base` as it is; otherwise the
   * first instant at or after `base` whose clock reads h:m:00 in base's zone.
   */
  function NextTimeFromString(s: string, base: Instant, z: Zone): (r: Instant)
    ensures ParseClock(s).None? ==> r == base
    ensures ParseClock(s).Some? ==>
      var c := ParseClock(s).value;
      base <= r < base + 86400
      && HourOf(r, z) == c.hour && MinuteOf(r, z) == c.minute && SecondOf(r, z) == 0
  {
    match ParseClock(s)
    case None => base
    case Some(c) =>
      var b := CivilOf(base, z);
      var candidate := Date(b.year, b.month, b.day, c.hour, c.minute, 0, z);
      SameDayAt(base, z, c.hour, c.minute);
      WithinDay(base, z);
      AtClockFields(DayIndex(base, z), c.hour, c.minute, z);
      AtClockFields(DayIndex(base, z) + 1, c.hour, c.minute, z);
      if candidate < base then candidate + 86400 else candidate
  }

  /**
   * IsDateDDMM: the regular expression `^\d{2}\.\d{2}$`, with no range check.
   * An accepted text splits on '.' into the day and month GetNextTimeYear reads.
   */
  function IsDateDDMM(s: string): (ok: bool)
    ensures ok ==> |s| == 5 && Split(s, '.') == [s[..2], s[3..]]
  {
    if |s| == 5 && IsDigit(s[0]) && IsDigit(s[1]) && s[2] == '.' && IsDigit(s[3]) && IsDigit(s[4]) then
      TwoFields(s, '.');
      true
    else false
  }

  /**
   * IsDateDDMMYYYY: the regular expression `^\d{2}\.\d{2}\.\d{4}$`, with no
   * range check. An accepted text splits on '.' into the three parts
   * GetNextTimeDate reads.
   */
  function IsDateDDMMYYYY(s: string): (ok: bool)
    ensures ok ==> |s| == 10 && Split(s, '.') == [s[..2], s[3..5], s[6..]]
  {
    if |s| == 10 && IsDigit(s[0]) && IsDigit(s[1]) && s[2] == '.' && IsDigit(s[3]) && IsDigit(s[4])
       && s[5] == '.' && IsDigit(s[6]) && IsDigit(s[7]) && IsDigit(s[8]) && IsDigit(s[9]) then
      ThreeFields(s);
      true
    else false
  }

  /** A DD.MM.YYYY shape splits into its day, month and year digits. */
  lemma ThreeFields(s: string)
    requires |s| == 10 && IsDigit(s[0]) && IsDigit(s[1]) && s[2] == '.' && IsDigit(s[3]) && IsDigit(s[4])
    requires s[5] == '.' && IsDigit(s[6]) && IsDigit(s[7]) && IsDigit(s[8]) && IsDigit(s[9])
    ensures Split(s, '.') == [s[..2], s[3..5], s[6..]]
  {
    assert s == s[..2] + ['.'] + (s[3..5] + ['.'] + s[6..]);
    assert s[3..] == s[3..5] + ['.'] + s[6..];
    SplitAfter(s[..2], '.', s[3..]);
    SplitAfter(s[3..5], '.', s[6..]);
    SplitWhole(s[6..], '.');
  }

  /** Every date that time.Parse accepts has the DD.MM.YYYY shape, but not the other way round. */
  lemma DateShapes()
    ensures forall s :: ParseDate(s).Some? ==> IsDateDDMMYYYY(s)
    ensures IsDateDDMM("32.13") && IsDateDDMMYYYY("32.13.2024") && ParseDate("32.13.2024").None?
    ensures ParseDate("29.02.2023").None? && ParseDate("29.02.2024") == Some(Civil(2024, 2, 29))
  {
  }

  /** IsInterval: the text is an Atoi integer greater than zero. */
  function IsInterval(s: string): (ok: bool)
    ensures ok ==> 0 < Atoi(s).value <= MaxInt64 && |s| > 0 && s[0] != '-'
  {
    var a := Atoi(s);
    a.ok && a.value > 0
  }

  /** The decimal text of an int64 is an interval exactly when the number is positive. */
  lemma IntervalOfNumber(n: int)
    requires IsInt64(n)
    ensures IsInterval(Itoa(n)) <==> n > 0
  {
    AtoiItoa(n);
  }

  /** IsNotEmpty: the text has at least one character. */
  function IsNotEmpty(s: string): (ok: bool)
    ensures ok <==> s != ""
  {
    |s| > 0
  }
}
