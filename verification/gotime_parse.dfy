/**
 * time.Parse / time.ParseInLocation for the two layouts the bot uses:
 * "15:04" (hour of one or two digits, below 24; minute of exactly two digits,
 * below 60) and "02.01.2006" (two-digit day and month, four-digit year, and the
 * day must exist in that month). Any other text, or trailing text, is an error.
 */
module GoTimeParse {
  import opened Wrappers
  import opened GoStrconv
  import opened GoTime

  function TwoDigits(a: char, b: char): (n: int)
    requires IsDigit(a) && IsDigit(b)
    ensures 0 <= n < 100
  {
    DigitValue(a) * 10 + DigitValue(b)
  }

  /** time.Parse("15:04", s), keeping the hour and minute of the result. */
  function ParseClock(s: string): (r: Option<Clock>)
  {
    if |s| == 0 || !IsDigit(s[0]) then None
    else
      var two := |s| > 1 && IsDigit(s[1]);
      var h := if two then TwoDigits(s[0], s[1]) else DigitValue(s[0]);
      var rest := if two then s[2..] else s[1..];
      if |rest| != 3 || rest[0] != ':' || !IsDigit(rest[1]) || !IsDigit(rest[2]) then None
      else
        var m := TwoDigits(rest[1], rest[2]);
        if h >= 24 || m >= 60 then None else Some(Clock(h, m))
  }

  /** The zero-padded "HH:MM" text of a clock. */
  function ClockText(c: Clock): (s: string)
    ensures |s| == 5 && s[2] == ':'
  {
    [DigitChar(c.hour / 10), DigitChar(c.hour % 10), ':', DigitChar(c.minute / 10), DigitChar(c.minute % 10)]
  }

  /** Round trip: the zero-padded text of every clock parses back to it. */
  lemma ParseClockText(c: Clock)
    ensures ParseClock(ClockText(c)) == Some(c)
  {
    var s := ClockText(c);
    assert s[2..] == [':', s[3], s[4]];
  }

  /** The one-digit-hour form is accepted too, so "9:00" parses as 09:00. */
  lemma ParseClockShortHour(h: int, c: Clock)
    requires 0 <= h < 10 && c.hour == h
    ensures ParseClock([DigitChar(h)] + ClockText(c)[2..]) == Some(c)
  {
    var s := [DigitChar(h)] + ClockText(c)[2..];
    assert s[1..] == ClockText(c)[2..];
  }

  /** time.ParseInLocation("02.01.2006", s, loc), keeping the calendar date. */
  function ParseDate(s: string): (r: Option<Civil>)
    ensures r.Some? ==> ValidCivil(r.value)
  {
    if |s| != 10 || s[2] != '.' || s[5] != '.' then None
    else if !(IsDigit(s[0]) && IsDigit(s[1]) && IsDigit(s[3]) && IsDigit(s[4])) then None
    else if !(IsDigit(s[6]) && IsDigit(s[7]) && IsDigit(s[8]) && IsDigit(s[9])) then None
    else
      var d := TwoDigits(s[0], s[1]);
      var m := TwoDigits(s[3], s[4]);
      var y := TwoDigits(s[6], s[7]) * 100 + TwoDigits(s[8], s[9]);
      if m < 1 || m > 12 then None
      else if d < 1 || d > DaysInMonth(y, m) then None
      else Some(Civil(y, m, d))
  }

  /** The zero-padded "DD.MM.YYYY" text of a date in years 0..9999. */
  function DateText(c: Civil): (s: string)
    requires ValidCivil(c) && 0 <= c.year < 10000
    ensures |s| == 10
  {
    [DigitChar(c.day / 10), DigitChar(c.day % 10), '.',
     DigitChar(c.month / 10), DigitChar(c.month % 10), '.',
     DigitChar(c.year / 1000), DigitChar(c.year / 100 % 10), DigitChar(c.year / 10 % 10), DigitChar(c.year % 10)]
  }

  /** Round trip: the text of every valid four-digit-year date parses back to it. */
  lemma ParseDateText(c: Civil)
    requires ValidCivil(c) && 0 <= c.year < 10000
    ensures ParseDate(DateText(c)) == Some(c)
  {
    var s := DateText(c);
    assert TwoDigits(s[0], s[1]) == c.day;
    assert TwoDigits(s[3], s[4]) == c.month;
    FourDigits(c.year);
    assert TwoDigits(s[6], s[7]) * 100 + TwoDigits(s[8], s[9]) == c.year;
  }

  lemma FourDigits(y: int)
    requires 0 <= y < 10000
    ensures (y / 1000 * 10 + y / 100 % 10) * 100 + (y / 10 % 10 * 10 + y % 10) == y
  {
    assert y / 1000 * 10 + y / 100 % 10 == y / 100;
    assert y / 10 % 10 * 10 + y % 10 == y % 100;
  }
}
