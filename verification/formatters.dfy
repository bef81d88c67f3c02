/**
 * The display helpers of handler/ui/formatters.go: how a reminder's repeat
 * rule, its paused state and a weekday number are shown in the /list output.
 */
module Formatters {
  import opened GoStrings
  import opened GoStrconv
  import opened GoTime
  import opened Domain

  const RepeatOnce: string := "разово"
  const RepeatDaily: string := "ежедневно"
  const RepeatWeekly: string := "еженедельно"
  const RepeatMonthly: string := "ежемесячно"
  const RepeatYearly: string := "ежегодно"
  const UnknownWeekday: string := "неизвестно"

  /** The seven weekday names, Sunday first, as time.Weekday numbers them. */
  const WeekdayNames: seq<string> :=
    ["воскресенье", "понедельник", "вторник", "среда", "четверг", "пятница", "суббота"]

  /** getWeekdayName: the Russian name of weekday 0..6 (0 = Sunday), "неизвестно" for any other number. */
  function WeekdayName(weekday: int): (name: string)
    ensures 0 <= weekday < 7 <==> name != UnknownWeekday
    ensures 0 <= weekday < 7 ==> name == WeekdayNames[weekday]
  {
    if 0 <= weekday < 7 then WeekdayNames[weekday] else UnknownWeekday
  }

  /** Every letter of a weekday name is a lower-case Cyrillic letter (а..я). */
  predicate LowerCyrillic(s: string)
  {
    forall k :: 0 <= k < |s| ==> '\U{0430}' <= s[k] <= '\U{044F}'
  }

  /** The names are non-empty lower-case Cyrillic words. */
  lemma WeekdayNamesShape(d: int)
    requires 0 <= d < 7
    ensures |WeekdayName(d)| > 0 && LowerCyrillic(WeekdayName(d))
  {
  }

  /** No two weekdays share a name, so the name tells the weekday. */
  lemma WeekdayNameInjective(a: int, b: int)
    requires 0 <= a < 7 && 0 <= b < 7 && WeekdayName(a) == WeekdayName(b)
    ensures a == b
  {
    var na, nb := WeekdayName(a), WeekdayName(b);
    assert |na| == |nb| && na[0] == nb[0] && na[1] == nb[1];
  }

  /**
   * FormatRepeat: the repeat rule in words; weekly and monthly rules name
   * their first repeat day, every-N-days rules their step.
   */
  function FormatRepeat(r: Reminder): (s: string)
    ensures |s| >= 4
  {
    match r.repeat
    case RepeatNone => RepeatOnce
    case RepeatEveryDay => RepeatDaily
    case RepeatEveryWeek =>
      if |r.repeatDays| > 0 then RepeatWeekly + " (" + WeekdayName(r.repeatDays[0]) + ")" else RepeatWeekly
    case RepeatEveryMonth =>
      if |r.repeatDays| > 0 then RepeatMonthly + " (" + Itoa(r.repeatDays[0]) + "-го числа)" else RepeatMonthly
    case RepeatEveryYear => RepeatYearly
    case RepeatEveryNDays => "каждые " + Itoa(r.repeatEvery) + " дней"
  }

  /** FormatRepeatWithDetails: the zone argument is ignored and the text is FormatRepeat's. */
  function FormatRepeatWithDetails(r: Reminder, z: Zone): (s: string)
    ensures s == FormatRepeat(r)
  {
    FormatRepeat(r)
  }

  /** The first and fourth letters of a repeat text, which differ from kind to kind. */
  function KindMark(s: string): (char, char)
    requires |s| >= 4
  {
    (s[0], s[3])
  }

  /** The repeat kind can be read off its text: different kinds are never shown alike. */
  lemma FormatRepeatKind(a: Reminder, b: Reminder)
    requires FormatRepeat(a) == FormatRepeat(b)
    ensures a.repeat == b.repeat
  {
    assert KindMark(FormatRepeat(a)) == KindMark(FormatRepeat(b));
  }

  /** A decimal has no white space in it. */
  lemma ItoaNoSpace(n: int)
    ensures NoSpace(Itoa(n))
  {
    var s := Itoa(n);
    forall k | 0 <= k < |s|
      ensures !IsSpace(s[k])
    {
      assert IsDigit(s[k]) || s[k] == '-';
    }
  }

  /** Regrouping the five pieces of "a s b s c" around the first word. */
  lemma Regroup(a: string, sp: string, b: string, c: string)
    ensures a + sp + b + sp + c == a + (sp + (b + sp + c))
  {
  }

  /** Three words joined by single spaces are exactly the three fields. */
  lemma ThreeFields(a: string, b: string, c: string)
    requires |a| > 0 && |b| > 0 && |c| > 0 && NoSpace(a) && NoSpace(b) && NoSpace(c)
    ensures Fields(a + " " + b + " " + c) == [a, b, c]
  {
    assert AllSpace(" ");
    var rest := b + " " + c;
    FieldsOfTwo(b, " ", c);
    var t := " " + rest;
    assert t[0] == ' ';
    Regroup(a, " ", b, c);
    FieldsStep(a, t);
    FieldsSkip(" ", rest);
    assert Fields(a + t) == [a] + [b, c];
  }

  /** The step of an every-N-days reminder is the second word of its text and reads back with Atoi. */
  lemma NDaysStepReadsBack(r: Reminder)
    requires r.repeat == RepeatEveryNDays && IsInt64(r.repeatEvery)
    ensures Fields(FormatRepeat(r)) == ["каждые", Itoa(r.repeatEvery), "дней"]
    ensures Atoi(Fields(FormatRepeat(r))[1]) == AtoiResult(r.repeatEvery, true)
  {
    ItoaNoSpace(r.repeatEvery);
    assert FormatRepeat(r) == "каждые" + " " + Itoa(r.repeatEvery) + " " + "дней";
    ThreeFields("каждые", Itoa(r.repeatEvery), "дней");
    AtoiItoa(r.repeatEvery);
  }

  /** A weekly reminder's text names its first repeat day (and "неизвестно" for a number outside 0..6). */
  lemma WeeklyNamesDay(r: Reminder)
    requires r.repeat == RepeatEveryWeek && |r.repeatDays| > 0
    ensures var s := FormatRepeat(r); var name := WeekdayName(r.repeatDays[0]);
      |s| == |RepeatWeekly| + 3 + |name| && s[|RepeatWeekly| + 2..|s| - 1] == name
  {
  }

  /** FormatStatus: a marker for paused reminders and nothing for active ones. */
  function FormatStatus(paused: bool): (s: string)
    ensures s != "" <==> paused
  {
    if paused then "🔴 Приостановлено" else ""
  }
}
