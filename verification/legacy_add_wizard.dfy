/**
 * The older add-reminder wizard of handler/add_wizard.go, modelled where it
 * differs from handler/wizards/add_reminder.go: it knows a "multiday" type,
 * has no date step for the "date" type, reads input only trimmed, ignores an
 * unparsable time and computes the every-N-days start from now.
 */
module LegacyAddWizard {
  import opened Wrappers
  import opened GoStrings
  import opened GoStrconv
  import opened GoTime
  import opened GoTimeParse
  import opened Validator
  import opened TimeCalculator
  import opened Domain
  import opened Session
  import opened Messages
  import opened AddReminderWizard
  import Router

  const TypeMultiDay: string := "multiday"

  /** getAddReminderMessage of the older wizard: the current one plus the multiday prompt. */
  function LegacyAddReminderMessage(typ: string): (p: Prompt)
    ensures typ == TypeMultiDay ==> p == PromptMultiDay
    ensures typ != TypeMultiDay ==> p == AddReminderMessage(typ)
  {
    if typ == TypeMultiDay then PromptMultiDay else AddReminderMessage(typ)
  }

  /** The older type callback: week, month and year ask for the interval, ndays for the date, all else for the time. */
  function LegacyTypeStep(typ: string): (step: Step)
    ensures step == StepInterval <==> typ in {TypeWeek, TypeMonth, TypeYear}
    ensures step == StepDate <==> typ == TypeNDays
    ensures step == StepTime <==> typ !in {TypeWeek, TypeMonth, TypeYear, TypeNDays}
  {
    if typ == TypeWeek || typ == TypeMonth || typ == TypeYear then StepInterval
    else if typ == TypeNDays then StepDate
    else StepTime
  }

  /** The older HandleAddTypeCallback on a session. */
  function LegacyTypeChosen(s: AddReminderSession, typ: string): (r: AddReminderSession)
    ensures r.kind == typ && r.step == LegacyTypeStep(typ)
    ensures r == s.(kind := typ, step := r.step)
  {
    s.(kind := typ, step := LegacyTypeStep(typ))
  }

  /** The two generations choose the same step for every type except "date", which the older one sends to the time step. */
  lemma TypeStepsAgree(s: AddReminderSession, typ: string)
    ensures typ != TypeDate ==> LegacyTypeChosen(s, typ) == TypeChosen(s, typ)
    ensures LegacyTypeChosen(s, TypeDate).step == StepTime && TypeChosen(s, TypeDate).step == StepDate
  {
  }

  /** The older StepTime: "multiday" takes any text as its list of times. */
  function LegacyTimeStep(s: AddReminderSession, text: string): (o: Outcome)
    ensures o.Save? <==> IsTime(text) || s.kind == TypeMultiDay
    ensures o.Save? ==> o.sess == s.(time := text, step := StepText)
    ensures !o.Confirm?
  {
    if !IsTime(text) && s.kind != TypeMultiDay then Keep(Say(ValidateEnterTime))
    else Save(s.(time := text, step := StepText), Say(ValidateEnterText))
  }

  /** The older StepDate serves every-N-days sessions only. */
  function LegacyDateStep(s: AddReminderSession, text: string): (o: Outcome)
    ensures s.kind == TypeNDays ==> o == DateStep(s, text)
    ensures s.kind != TypeNDays ==> o == Keep(Quiet)
  {
    if s.kind == TypeNDays then DateStep(s, text) else Keep(Quiet)
  }

  /** The older HandleAddWizardText: the input is only trimmed, then dispatched on the step. */
  function LegacyTextOutcome(s: AddReminderSession, input: string): (o: Outcome)
    ensures s.step == StepDate ==> o == LegacyDateStep(s, TrimSpace(input))
    ensures s.step !in {StepTime, StepInterval, StepText, StepDate} ==> o == Keep(Quiet)
  {
    var text := TrimSpace(input);
    match s.step
    case StepTime => LegacyTimeStep(s, text)
    case StepInterval => IntervalStep(s, text)
    case StepText => TextStep(s, text)
    case StepDate => LegacyDateStep(s, text)
    case _ => Keep(Quiet)
  }

  /**
   * On input without '@', for every type both generations share, the older
   * wizard takes exactly the current wizard's step.
   */
  lemma TextStepsAgree(s: AddReminderSession, input: string, botName: string)
    requires '@' !in input && s.kind != TypeDate && s.kind != TypeMultiDay
    ensures LegacyTextOutcome(s, input) == TextOutcome(s, StripMention(input, botName))
  {
    StripNoMention(input, botName);
  }

  /** time.Parse("15:04", s) with its error ignored: an unparsable time reads as 00:00. */
  function LegacyClock(s: string): (t: Clock)
    ensures ParseClock(s).Some? ==> t == ParseClock(s).value
    ensures ParseClock(s).None? ==> t == Clock(0, 0)
  {
    match ParseClock(s)
    case Some(t) => t
    case None => Clock(0, 0)
  }

  /** Nanoseconds in an hour and in a second, as time.Hour and time.Second count them. */
  const NanosPerHour: int := 3_600_000_000_000
  const NanosPerSecond: int := 1_000_000_000

  /**
   * time.Duration(interval) * 24 * time.Hour: two int64 multiplications,
   * each wrapping around.
   */
  function DaysDuration(interval: Int64): (d: Int64)
  {
    Wrap64(Wrap64(interval * 24) * NanosPerHour)
  }

  /**
   * The older getNextTimeNDays: today at t, or that moved by the duration of
   * interval days when it is already past. Time.Add moves by the duration's
   * whole seconds, rounded down; the sub-second rest is dropped.
   */
  function LegacyNDays(now: Instant, z: Zone, t: Clock, interval: Int64): (r: Instant)
    ensures TodayAt(now, z, t) >= now ==> r == TodayAt(now, z, t)
    ensures TodayAt(now, z, t) < now && 0 <= interval <= MaxDurationDays ==>
      r == TodayAt(now, z, t) + interval * 86400
  {
    DaysDurationExact(interval);
    var today := TodayAt(now, z, t);
    if today < now then today + DaysDuration(interval) / NanosPerSecond else today
  }

  /** The largest interval whose duration in nanoseconds fits an int64. */
  const MaxDurationDays: int := 106751

  /** Up to MaxDurationDays, the duration is exactly interval days. */
  lemma DaysDurationExact(interval: Int64)
    ensures 0 <= interval <= MaxDurationDays ==> DaysDuration(interval) / NanosPerSecond == interval * 86400
  {
    if 0 <= interval <= MaxDurationDays {
      assert interval * 24 * NanosPerHour == (interval * 86400) * NanosPerSecond;
    }
  }

  /** Today at t is less than a day before now. */
  lemma TodayAtWithinDay(now: Instant, z: Zone, t: Clock)
    ensures now - 86400 < TodayAt(now, z, t) < now + 86400
  {
    WithinDay(now, z);
  }

  /**
   * The older every-N-days start is never before now for a positive interval
   * whose duration fits an int64, and with interval 1 it is exactly
   * GetNextTimeToday; unlike the current GetNextTimeNDays it never lies more
   * than interval days after now.
   */
  lemma LegacyNDaysNotPast(now: Instant, z: Zone, t: Clock, interval: Int64)
    requires 1 <= interval <= MaxDurationDays
    ensures now <= LegacyNDays(now, z, t, interval) < now + interval * 86400
    ensures interval == 1 ==> LegacyNDays(now, z, t, interval) == GetNextTimeToday(now, z, t)
  {
    TodayAtWithinDay(now, z, t);
    DaysDurationExact(interval);
  }

  /**
   * One day more and the duration wraps: an interval of 106752, which
   * IsInterval accepts, moves a time already past today back by about 292
   * years instead of forward.
   */
  lemma LegacyNDaysWraps(now: Instant, z: Zone, t: Clock)
    requires TodayAt(now, z, t) < now
    ensures DaysDuration(MaxDurationDays + 1) == 106752 * 86400 * NanosPerSecond - 0x1_0000_0000_0000_0000
    ensures LegacyNDays(now, z, t, MaxDurationDays + 1) == TodayAt(now, z, t) - 9223371274
    ensures LegacyNDays(now, z, t, MaxDurationDays + 1) < now - 292 * 365 * 86400
  {
    WrapOnce(106752 * 24 * NanosPerHour);
  }

  /** The clock of one entry of a multiday list: trimmed, parsed, 00:00 when it does not parse. */
  function EntryClock(entry: string): Clock
  {
    LegacyClock(TrimSpace(entry))
  }

  /** Today at an entry's clock. */
  function Candidate(now: Instant, z: Zone, entry: string): Instant
  {
    TodayAt(now, z, EntryClock(entry))
  }

  /** Every entry's time today lies within now's day. */
  lemma CandidateInDay(now: Instant, z: Zone, entry: string)
    ensures AtClock(DayIndex(now, z), 0, 0, z) <= Candidate(now, z, entry) < AtClock(DayIndex(now, z), 0, 0, z) + 86400
  {
  }

  /** Today at each entry's clock, in the order of the list. */
  function Candidates(now: Instant, z: Zone, times: seq<string>): (cs: seq<Instant>)
    ensures |cs| == |times|
  {
    seq(|times|, i requires 0 <= i < |times| => Candidate(now, z, times[i]))
  }

  /** The i-th of the candidates belongs to the i-th entry. */
  lemma CandidateAt(now: Instant, z: Zone, times: seq<string>, i: int)
    requires 0 <= i < |times|
    ensures Candidates(now, z, times)[i] == Candidate(now, z, times[i])
  {
  }

  /** The earliest of the instants strictly after now, if any. */
  function EarliestAfter(now: Instant, cs: seq<Instant>): (r: Option<Instant>)
    ensures r.Some? ==> r.value > now && r.value in cs
    ensures r.Some? ==> forall i :: 0 <= i < |cs| && cs[i] > now ==> r.value <= cs[i]
    ensures r.None? <==> forall i :: 0 <= i < |cs| ==> cs[i] <= now
    decreases |cs|
  {
    if |cs| == 0 then None
    else
      var c := cs[|cs| - 1];
      var rest := EarliestAfter(now, cs[..|cs| - 1]);
      assert forall i :: 0 <= i < |cs| - 1 ==> cs[..|cs| - 1][i] == cs[i];
      if c <= now then rest
      else if rest.None? || c < rest.value then Some(c)
      else rest
  }

  /** The earliest instant after now, or else the first one a day later. */
  function NextOrTomorrow(now: Instant, cs: seq<Instant>): Instant
    requires |cs| > 0
  {
    match EarliestAfter(now, cs)
    case Some(v) => v
    case None => cs[0] + 86400
  }

  /**
   * When all instants and now fall within one day, the choice is after now,
   * no later than the first instant a day later, and no later than any
   * instant still to come.
   */
  lemma NextOrTomorrowBounds(now: Instant, cs: seq<Instant>, lo: Instant)
    requires |cs| > 0 && lo <= now < lo + 86400
    requires forall i :: 0 <= i < |cs| ==> lo <= cs[i] < lo + 86400
    ensures now < NextOrTomorrow(now, cs) <= cs[0] + 86400
    ensures forall i :: 0 <= i < |cs| && cs[i] > now ==> NextOrTomorrow(now, cs) <= cs[i]
  {
  }

  /** What getNextTimeMultiDay computes: the earliest time still to come today, else the first entry tomorrow. */
  function MultiDayNext(now: Instant, z: Zone, times: seq<string>): (r: Instant)
    requires |times| > 0
    ensures r in Candidates(now, z, times) || r == Candidates(now, z, times)[0] + 86400
  {
    NextOrTomorrow(now, Candidates(now, z, times))
  }

  /**
   * The multiday time is after now, no later than the first entry's time
   * tomorrow, and no entry's time today falls strictly between now and it.
   */
  lemma MultiDayNextAfterNow(now: Instant, z: Zone, times: seq<string>)
    requires |times| > 0
    ensures now < MultiDayNext(now, z, times) <= Candidate(now, z, times[0]) + 86400
    ensures forall i :: 0 <= i < |times| && Candidate(now, z, times[i]) > now ==>
      MultiDayNext(now, z, times) <= Candidate(now, z, times[i])
  {
    var cs := Candidates(now, z, times);
    var lo := AtClock(DayIndex(now, z), 0, 0, z);
    WithinDay(now, z);
    forall i | 0 <= i < |cs|
      ensures lo <= cs[i] < lo + 86400
    {
      CandidateAt(now, z, times, i);
      CandidateInDay(now, z, times[i]);
    }
    NextOrTomorrowBounds(now, cs, lo);
    CandidateAt(now, z, times, 0);
    forall i | 0 <= i < |times| && Candidate(now, z, times[i]) > now
      ensures MultiDayNext(now, z, times) <= Candidate(now, z, times[i])
    {
      CandidateAt(now, z, times, i);
    }
  }

  /** The zero time stands for "nothing found". */
  function OrZero(o: Option<Instant>): Instant
  {
    match o
    case Some(v) => v
    case None => ZeroTime
  }

  /**
   * One turn of getNextTimeMultiDay's loop: with the zero time as "nothing
   * found yet", taking c when it is after now and earlier than what was found
   * gives the earliest instant after now among those scanned so far.
   */
  lemma ScanStep(now: Instant, cs: seq<Instant>, i: int, next: Instant)
    requires 0 <= i < |cs|
    requires now >= ZeroTime && next == OrZero(EarliestAfter(now, cs[..i]))
    ensures (if cs[i] > now && (next == ZeroTime || cs[i] < next) then cs[i] else next)
            == OrZero(EarliestAfter(now, cs[..i + 1]))
  {
    assert cs[..i + 1][..i] == cs[..i];
  }

  /**
   * getNextTimeMultiDay, with the zero time as "nothing found yet" as in the
   * source; the first entry is read again when no entry is left today.
   */
  method NextTimeMultiDay(now: Instant, z: Zone, times: seq<string>) returns (next: Instant)
    requires |times| > 0
    ensures now >= ZeroTime ==> next == MultiDayNext(now, z, times)
  {
    ghost var cs := Candidates(now, z, times);
    next := ZeroTime;
    var i := 0;
    while i < |times|
      invariant 0 <= i <= |times|
      invariant now >= ZeroTime ==> next == OrZero(EarliestAfter(now, cs[..i]))
    {
      var candidate := Candidate(now, z, times[i]);
      CandidateAt(now, z, times, i);
      if now >= ZeroTime {
        ScanStep(now, cs, i, next);
      }
      if candidate > now && (next == ZeroTime || candidate < next) {
        next := candidate;
      }
      i := i + 1;
    }
    assert cs[..|times|] == cs;
    CandidateAt(now, z, times, 0);
    if next == ZeroTime {
      next := Candidate(now, z, times[0]) + 86400;
    }
  }

  /** The older first fire time, in the server's zone z; an unknown type gets the zero time. */
  function LegacyFirstTime(s: AddReminderSession, now: Instant, z: Zone, t: Clock): (r: Instant)
    requires s.kind == TypeYear ==> |Split(s.date, '.')| >= 2
    ensures s.kind == TypeNDays ==> r == LegacyNDays(now, z, t, s.interval)
    ensures s.kind == TypeMultiDay ==> r == MultiDayNext(now, z, Split(s.time, ','))
    ensures s.kind != TypeNDays && s.kind != TypeMultiDay ==> FirstTime(s, now, z, t) == Ok(r)
  {
    if s.kind == TypeToday then GetNextTimeToday(now, z, t)
    else if s.kind == TypeTomorrow then GetNextTimeTomorrow(now, z, t)
    else if s.kind == TypeEveryDay then GetNextTimeToday(now, z, t)
    else if s.kind == TypeWeek then GetNextTimeWeek(now, z, t, s.interval)
    else if s.kind == TypeMonth then GetNextTimeMonth(now, z, t, s.interval)
    else if s.kind == TypeYear then GetNextTimeYear(now, z, t, s.date)
    else if s.kind == TypeDate then GetNextTimeDate(t, s.date, z)
    else if s.kind == TypeNDays then LegacyNDays(now, z, t, s.interval)
    else if s.kind == TypeMultiDay then MultiDayNext(now, z, Split(s.time, ','))
    else ZeroTime
  }

  /** The older repeat mapping: the current one, with multiday stored as a daily reminder. */
  function LegacyRepeatOfType(typ: string): (r: RepeatType)
    ensures typ == TypeMultiDay ==> r == RepeatEveryDay
    ensures typ != TypeMultiDay ==> r == RepeatOfType(typ)
  {
    if typ == TypeMultiDay then RepeatEveryDay else RepeatOfType(typ)
  }

  /** The older createReminderFromSession up to AddReminder; it has no error path of its own. */
  function LegacyDraft(s: AddReminderSession, now: Instant, z: Zone): (rem: Reminder)
    requires s.kind == TypeYear ==> |Split(s.date, '.')| >= 2
    ensures rem.chatId == s.chatId && rem.userId == s.userId && rem.text == s.text
    ensures rem.nextTime == LegacyFirstTime(s, now, z, LegacyClock(s.time))
    ensures rem.repeat == LegacyRepeatOfType(s.kind) && rem.repeatDays == RepeatDaysOfType(s.kind, s.interval)
    ensures rem.repeatEvery == s.interval && !rem.paused && rem.createdAt == now && rem.updatedAt == now
  {
    var t := LegacyClock(s.time);
    Reminder(0, s.chatId, s.userId, s.text, LegacyFirstTime(s, now, z, t), LegacyRepeatOfType(s.kind),
             RepeatDaysOfType(s.kind, s.interval), s.interval, false, now, now)
  }

  /**
   * As written, the older router never passes a StepDate session to the
   * wizard, and StepDate is exactly where the older type callback leaves an
   * every-N-days session: the start date the user types is dropped, and the
   * session never advances. The current router passes the same message on.
   */
  lemma LegacyNDaysStuck(s: AddReminderSession, input: string, botName: string)
    ensures LegacyTypeChosen(s, TypeNDays).step == StepDate
    ensures Router.LegacyRouteText(Some(LegacyTypeChosen(s, TypeNDays))) == Router.Ignored
    ensures Router.RouteText("private", false, input, botName, Some(LegacyTypeChosen(s, TypeNDays))) == Router.ToAddWizard
  {
  }

  /**
   * Routed as the current router does, the same session reaches the older
   * date step, which accepts a DD.MM.YYYY start date and moves on to the
   * interval.
   */
  lemma RoutedNDaysAdvances(s: AddReminderSession, input: string)
    requires IsDateDDMMYYYY(TrimSpace(input))
    requires !(s.date != "" && s.interval == 0)
    ensures LegacyTextOutcome(LegacyTypeChosen(s, TypeNDays), input).Save?
    ensures LegacyTextOutcome(LegacyTypeChosen(s, TypeNDays), input).sess.step == StepInterval
  {
    var n := LegacyTypeChosen(s, TypeNDays);
    assert n.step == StepDate && n.kind == TypeNDays;
    var text := TrimSpace(input);
    assert LegacyTextOutcome(n, input) == LegacyDateStep(n, text);
    var o := DateStep(n, text);
    assert o.Save? && o.sess.step == StepInterval;
  }
}
