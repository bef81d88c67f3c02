/**
 * The add-reminder wizard of handler/wizards/add_reminder.go: a session per
 * (chat, user) walks from the reminder type through its interval or date, the
 * time of day and the text, and the reminder is created and the session
 * deleted at the end. Each handler is a pure step on the session value,
 * stored by the wizard class through the session manager.
 */
module AddReminderWizard {
  import opened Wrappers
  import opened GoStrings
  import opened GoStrconv
  import opened GoTime
  import opened GoTimeParse
  import opened Validator
  import opened TimeCalculator
  import opened Domain
  import opened ReminderRepository
  import opened ReminderUsecase
  import opened Session
  import opened Messages
  import opened Formatters
  import opened Scheduler

  const TypeToday: string := "today"
  const TypeTomorrow: string := "tomorrow"
  const TypeEveryDay: string := "everyday"
  const TypeWeek: string := "week"
  const TypeNDays: string := "ndays"
  const TypeMonth: string := "month"
  const TypeYear: string := "year"
  const TypeDate: string := "date"

  /** The eight reminder types the type buttons send. */
  predicate KnownType(typ: string)
  {
    typ in {TypeToday, TypeTomorrow, TypeEveryDay, TypeWeek, TypeNDays, TypeMonth, TypeYear, TypeDate}
  }

  /** getAddReminderMessage: the prompt that asks for the time of a type's first reminder. */
  function AddReminderMessage(typ: string): (p: Prompt)
    ensures p == PromptUnknown <==> !KnownType(typ)
  {
    if typ == TypeToday then PromptToday
    else if typ == TypeTomorrow then PromptTomorrow
    else if typ == TypeEveryDay then PromptEveryDay
    else if typ == TypeWeek then PromptWeek
    else if typ == TypeNDays then PromptNDays
    else if typ == TypeMonth then PromptMonth
    else if typ == TypeYear then PromptYear
    else if typ == TypeDate then PromptDate
    else PromptUnknown
  }

  /** The weekdays map of parseWeekday: a lower-case weekday name to its number. */
  function WeekdayOfName(key: string): (r: Option<int>)
    ensures r.Some? ==> 0 <= r.value < 7 && WeekdayNames[r.value] == key
    ensures r.None? <==> key !in WeekdayNames
  {
    if key == WeekdayNames[0] then Some(0)
    else if key == WeekdayNames[1] then Some(1)
    else if key == WeekdayNames[2] then Some(2)
    else if key == WeekdayNames[3] then Some(3)
    else if key == WeekdayNames[4] then Some(4)
    else if key == WeekdayNames[5] then Some(5)
    else if key == WeekdayNames[6] then Some(6)
    else None
  }

  /** parseWeekday: the weekday number of a Russian weekday name, ignoring case and surrounding white space. */
  function ParseWeekday(s: string): (r: Option<int>)
    ensures r.Some? ==> 0 <= r.value < 7 && WeekdayName(r.value) == ToLower(TrimSpace(s))
    ensures r.None? <==> ToLower(TrimSpace(s)) !in WeekdayNames
  {
    WeekdayOfName(ToLower(TrimSpace(s)))
  }

  /** A lower-case Cyrillic word is its own lower case. */
  lemma ToLowerCyrillic(s: string)
    requires LowerCyrillic(s)
    ensures ToLower(s) == s
  {
    forall k | 0 <= k < |s|
      ensures ToLower(s)[k] == s[k]
    {
      assert '\U{0430}' <= s[k] <= '\U{044F}';
    }
  }

  /** Round trip: every name getWeekdayName shows parses back to its weekday. */
  lemma ParseWeekdayName(d: int)
    requires 0 <= d < 7
    ensures ParseWeekday(WeekdayName(d)) == Some(d)
  {
    var name := WeekdayName(d);
    WeekdayNamesShape(d);
    CleanKey(name);
    NameIndex(d);
  }

  /** A trimmed lower-case word is its own lookup key. */
  lemma CleanKey(name: string)
    requires |name| > 0 && LowerCyrillic(name)
    ensures ToLower(TrimSpace(name)) == name
  {
    assert Trimmed(name);
    TrimSpaceClean(name);
    ToLowerCyrillic(name);
  }

  /** The lookup finds each name at its own index. */
  lemma NameIndex(d: int)
    requires 0 <= d < 7
    ensures WeekdayOfName(WeekdayNames[d]) == Some(d)
  {
    var r := WeekdayOfName(WeekdayNames[d]);
    assert WeekdayNames[d] in WeekdayNames;
    WeekdayNameInjective(r.value, d);
  }

  /** Case and surrounding white space do not matter to parseWeekday. */
  lemma ParseWeekdayIgnoresCase(s: string)
    ensures ParseWeekday(ToLower(s)) == ParseWeekday(s)
  {
    ToLowerTrimSpace(s);
    ToLowerTwice(TrimSpace(s));
  }

  /** What a handler does with the stored sessions. */
  datatype Outcome =
    | Keep(reply: Reply)
    | Save(sess: AddReminderSession, reply: Reply)
    | Confirm(sess: AddReminderSession)

  /** The session an outcome stores, if any. */
  function Saved(o: Outcome): Option<AddReminderSession>
  {
    match o
    case Keep(_) => None
    case Save(s, _) => Some(s)
    case Confirm(s) => Some(s)
  }

  /** getSession: the stored session of (chat, user), or a fresh one at StepType that is not stored. */
  function Current(m: Sessions, chatId: int, userId: int): (s: AddReminderSession)
    requires Keyed(m)
    ensures s.chatId == chatId && s.userId == userId
    ensures Lookup(m, chatId, userId).Some? ==> s == Lookup(m, chatId, userId).value
    ensures Lookup(m, chatId, userId).None? ==> s == Fresh(chatId, userId, StepType)
  {
    KeyedLookup(m, chatId, userId);
    match Lookup(m, chatId, userId)
    case Some(s) => s
    case None => Fresh(chatId, userId, StepType)
  }

  /** The step the type callback moves to. */
  function TypeStep(typ: string): (step: Step)
    ensures step == StepInterval <==> typ in {TypeWeek, TypeMonth, TypeYear}
    ensures step == StepDate <==> typ in {TypeNDays, TypeDate}
    ensures step == StepTime <==> typ !in {TypeWeek, TypeMonth, TypeYear, TypeNDays, TypeDate}
  {
    if typ == TypeWeek || typ == TypeMonth || typ == TypeYear then StepInterval
    else if typ == TypeNDays || typ == TypeDate then StepDate
    else StepTime
  }

  /** The question the type callback asks next. */
  function TypePrompt(typ: string): (p: Prompt)
    ensures p == PromptUnknown <==> !KnownType(typ)
    ensures TypeStep(typ) == StepTime ==> p == AddReminderMessage(typ)
  {
    if typ == TypeWeek then PromptWeek
    else if typ == TypeMonth then ValidateEnterMonth
    else if typ == TypeYear then ValidateEnterDateDDMM
    else if typ == TypeNDays then ValidateEnterDate
    else if typ == TypeDate then EnterDateAndTime
    else AddReminderMessage(typ)
  }

  /** HandleAddTypeCallback on a session: the type is recorded and the next step chosen; other fields stay. */
  function TypeChosen(s: AddReminderSession, typ: string): (r: AddReminderSession)
    ensures r.kind == typ && r.step == TypeStep(typ)
    ensures r == s.(kind := typ, step := r.step)
  {
    s.(kind := typ, step := TypeStep(typ))
  }

  /** StepTime: a valid "HH:MM" is kept and the text is asked for. */
  function TimeStep(s: AddReminderSession, text: string): (o: Outcome)
    ensures o.Save? <==> IsTime(text)
    ensures o.Save? ==> o.sess == s.(time := text, step := StepText)
  {
    if !IsTime(text) then Keep(Say(ValidateEnterTime))
    else Save(s.(time := text, step := StepText), Say(ValidateEnterText))
  }

  /**
   * StepInterval: a weekday name for weekly reminders, a positive integer for
   * monthly and every-N-days ones (no upper bound), a "DD.MM" for yearly ones.
   */
  function IntervalStep(s: AddReminderSession, text: string): (o: Outcome)
    ensures o.Save? ==> o.sess.step == StepTime && o.sess.chatId == s.chatId && o.sess.userId == s.userId
    ensures s.kind == TypeWeek ==> (o.Save? <==> ParseWeekday(text).Some?)
    ensures (s.kind == TypeMonth || s.kind == TypeNDays) ==> (o.Save? <==> IsInterval(text))
    ensures s.kind == TypeYear ==> (o.Save? <==> IsDateDDMM(text))
    ensures s.kind == TypeWeek && o.Save? ==> o.sess == s.(interval := ParseWeekday(text).value, step := StepTime)
    ensures (s.kind == TypeMonth || s.kind == TypeNDays) && o.Save? ==>
      o.sess == s.(interval := Atoi(text).value, step := StepTime)
    ensures s.kind == TypeYear && o.Save? ==> o.sess == s.(date := text, step := StepTime)
    ensures !o.Confirm?
  {
    if s.kind == TypeWeek then
      match ParseWeekday(text)
      case None => Keep(Say(ValidateEnterWeekday))
      case Some(d) => Save(s.(interval := d, step := StepTime), Say(PromptEveryDay))
    else if s.kind == TypeMonth then
      if !IsInterval(text) then Keep(Say(ValidateEnterMonth))
      else Save(s.(interval := Atoi(text).value, step := StepTime), Say(PromptEveryDay))
    else if s.kind == TypeYear then
      if !IsDateDDMM(text) then Keep(Say(ValidateEnterDateDDMM))
      else Save(s.(date := text, step := StepTime), Say(PromptEveryDay))
    else if s.kind == TypeNDays then
      if !IsInterval(text) then Keep(Say(ValidateEnterInterval))
      else Save(s.(interval := Atoi(text).value, step := StepTime), Say(PromptEveryDay))
    else Keep(Quiet)
  }

  /** StepText: a non-empty text completes the session, which then goes to confirmation. */
  function TextStep(s: AddReminderSession, text: string): (o: Outcome)
    ensures o.Confirm? <==> text != ""
    ensures o.Confirm? ==> o.sess == s.(text := text, step := StepConfirm)
    ensures !o.Save?
  {
    if !IsNotEmpty(text) then Keep(Say(ValidateEnterText))
    else Confirm(s.(text := text, step := StepConfirm))
  }

  /**
   * StepDate. Every-N-days: once a date is known and no interval yet, a
   * positive integer; otherwise a "DD.MM.YYYY" start date. Date type: exactly
   * two fields, a "DD.MM.YYYY" and a valid "HH:MM".
   */
  function DateStep(s: AddReminderSession, text: string): (o: Outcome)
    ensures !o.Confirm?
    ensures o.Save? ==> o.sess.chatId == s.chatId && o.sess.userId == s.userId
    ensures s.kind == TypeNDays && s.date != "" && s.interval == 0 ==>
      (o.Save? <==> IsInterval(text)) && (o.Save? ==> o.sess == s.(interval := Atoi(text).value, step := StepTime))
    ensures s.kind == TypeNDays && !(s.date != "" && s.interval == 0) ==>
      (o.Save? <==> IsDateDDMMYYYY(text)) && (o.Save? ==> o.sess == s.(date := text, step := StepInterval))
    ensures s.kind == TypeDate ==>
      (o.Save? <==> |Fields(text)| == 2 && IsDateDDMMYYYY(Fields(text)[0]) && IsTime(Fields(text)[1]))
      && (o.Save? ==> o.sess == s.(date := Fields(text)[0], time := Fields(text)[1], step := StepText))
    ensures s.kind != TypeNDays && s.kind != TypeDate ==> o == Keep(Quiet)
  {
    if s.kind == TypeNDays then
      if s.date != "" && s.interval == 0 then
        if !IsInterval(text) then Keep(Say(ValidateEnterInterval))
        else Save(s.(interval := Atoi(text).value, step := StepTime), Say(PromptEveryDay))
      else if !IsDateDDMMYYYY(text) then Keep(Say(ValidateEnterDate))
      else Save(s.(date := text, step := StepInterval), Say(ValidateEnterInterval))
    else if s.kind == TypeDate then
      var parts := Fields(text);
      if |parts| != 2 || !IsDateDDMMYYYY(parts[0]) || !IsTime(parts[1]) then Keep(Say(EnterDateAndTime))
      else Save(s.(date := parts[0], time := parts[1], step := StepText), Say(ValidateEnterText))
    else Keep(Quiet)
  }

  /** HandleAddWizardText's dispatch on the step; any other step ignores the text. */
  function TextOutcome(s: AddReminderSession, text: string): (o: Outcome)
    ensures s.step !in {StepTime, StepInterval, StepText, StepDate} ==> o == Keep(Quiet)
    ensures o.Confirm? ==> s.step == StepText
  {
    match s.step
    case StepTime => TimeStep(s, text)
    case StepInterval => IntervalStep(s, text)
    case StepText => TextStep(s, text)
    case StepDate => DateStep(s, text)
    case _ => Keep(Quiet)
  }

  /** HandleWeekdayCallback: "weekday_0".."weekday_6", accepted only for a weekly session at StepInterval. */
  function WeekdayCallback(s: AddReminderSession, data: string): (o: Outcome)
    ensures !o.Confirm?
    ensures o.Save? <==> (s.kind == TypeWeek && s.step == StepInterval && HasPrefix(TrimSpace(data), "weekday_")
                          && Atoi(TrimSpace(TrimPrefix(TrimSpace(data), "weekday_"))).ok
                          && 0 <= Atoi(TrimSpace(TrimPrefix(TrimSpace(data), "weekday_"))).value <= 6)
    ensures o.Save? ==> o.sess == s.(interval := o.sess.interval, step := StepTime) && 0 <= o.sess.interval <= 6
    ensures o.Save? ==> o.sess.interval == Atoi(TrimSpace(TrimPrefix(TrimSpace(data), "weekday_"))).value
  {
    var d := TrimSpace(data);
    if s.kind != TypeWeek || s.step != StepInterval then Keep(Say(ErrUnknownDay))
    else if !HasPrefix(d, "weekday_") then Keep(Say(ErrUnknownDay))
    else
      var a := Atoi(TrimSpace(TrimPrefix(d, "weekday_")));
      if !a.ok || a.value < 0 || a.value > 6 then Keep(Say(ErrUnknownDay))
      else Save(s.(interval := a.value, step := StepTime), Say(PromptEveryDay))
  }

  /** HandleMonthCallback: "month_1".."month_12" for a monthly session at StepInterval, going straight to StepText. */
  function MonthCallback(s: AddReminderSession, data: string): (o: Outcome)
    ensures !o.Confirm?
    ensures o.Save? <==> (s.kind == TypeMonth && s.step == StepInterval && HasPrefix(TrimSpace(data), "month_")
                          && Atoi(TrimSpace(TrimPrefix(TrimSpace(data), "month_"))).ok
                          && 1 <= Atoi(TrimSpace(TrimPrefix(TrimSpace(data), "month_"))).value <= 12)
    ensures o.Save? ==> o.sess == s.(interval := o.sess.interval, step := StepText) && 1 <= o.sess.interval <= 12
    ensures o.Save? ==> o.sess.interval == Atoi(TrimSpace(TrimPrefix(TrimSpace(data), "month_"))).value
  {
    var d := TrimSpace(data);
    if s.kind != TypeMonth || s.step != StepInterval then Keep(Say(ErrUnknownMonth))
    else if !HasPrefix(d, "month_") then Keep(Say(ErrUnknownMonth))
    else
      var a := Atoi(TrimSpace(TrimPrefix(d, "month_")));
      if !a.ok || a.value < 1 || a.value > 12 then Keep(Say(ErrUnknownMonth))
      else Save(s.(interval := a.value, step := StepText), Say(ValidateEnterText))
  }

  /** The steps after the interval or date questions, where those answers are settled. */
  predicate Settled(step: Step)
  {
    step == StepTime || step == StepText || step == StepConfirm
  }

  /**
   * What every stored session satisfies: the answers each type needs before
   * the time step have been given and validated, and a session past the time
   * step has a valid time, except a monthly one that came through the month
   * buttons.
   */
  predicate Reachable(s: AddReminderSession)
  {
    && (s.kind == TypeYear && Settled(s.step) ==> IsDateDDMM(s.date))
    && (s.kind == TypeWeek && Settled(s.step) ==> 0 <= s.interval <= 6)
    && ((s.kind == TypeMonth || s.kind == TypeNDays) && Settled(s.step) ==> s.interval > 0)
    && (s.kind == TypeDate ==> s.step != StepTime)
    && (s.kind == TypeDate && (s.step == StepText || s.step == StepConfirm) ==> IsDateDDMMYYYY(s.date))
    && (s.kind != TypeMonth && (s.step == StepText || s.step == StepConfirm) ==> IsTime(s.time))
    && (s.step == StepConfirm ==> s.text != "")
  }

  /** Every session of the map is reachable. */
  predicate AllReachable(m: Sessions)
  {
    forall k :: k in m ==> Reachable(m[k])
  }

  /** The fresh sessions getSession and OnTimezone make are reachable. */
  lemma FreshReachable(chatId: int, userId: int, step: Step)
    requires step != StepText && step != StepConfirm
    ensures Reachable(Fresh(chatId, userId, step))
  {
  }

  /** Choosing a type keeps a session reachable, whatever it held before. */
  lemma TypeChosenReachable(s: AddReminderSession, typ: string)
    ensures Reachable(TypeChosen(s, typ))
  {
  }

  /** Every text step keeps a reachable session reachable. */
  lemma StepsKeepReachable(s: AddReminderSession, text: string)
    requires Reachable(s)
    ensures Saved(TextOutcome(s, text)).Some? ==> Reachable(Saved(TextOutcome(s, text)).value)
  {
    match s.step {
      case StepTime =>
      case StepInterval =>
        var o := IntervalStep(s, text);
        if o.Save? && s.kind == TypeWeek {
          assert 0 <= ParseWeekday(text).value < 7;
        }
        if o.Save? && (s.kind == TypeMonth || s.kind == TypeNDays) {
          assert Atoi(text).value > 0;
        }
      case StepText =>
      case StepDate =>
      case _ =>
    }
  }

  /** The weekday buttons keep a reachable session reachable. */
  lemma WeekdayKeepsReachable(s: AddReminderSession, data: string)
    requires Reachable(s)
    ensures WeekdayCallback(s, data).Save? ==> Reachable(WeekdayCallback(s, data).sess)
  {
  }

  /** The month buttons keep a reachable session reachable: they skip the time, which a monthly session may lack. */
  lemma MonthKeepsReachable(s: AddReminderSession, data: string)
    requires Reachable(s)
    ensures MonthCallback(s, data).Save? ==> Reachable(MonthCallback(s, data).sess)
  {
  }

  /** How far along the wizard a step is. */
  function Rank(step: Step): (n: nat)
    ensures n <= 5
  {
    match step
    case StepDate => 1
    case StepInterval => 2
    case StepTime => 3
    case StepText => 4
    case StepConfirm => 5
    case _ => 0
  }

  /**
   * Every accepted answer moves the session strictly forward, so after a
   * type is chosen at most four accepted messages complete the wizard; a
   * refused answer stores nothing. The ids never change.
   */
  lemma StepsMoveForward(s: AddReminderSession, text: string)
    ensures Saved(TextOutcome(s, text)).Some? ==>
      Rank(Saved(TextOutcome(s, text)).value.step) > Rank(s.step)
      && Saved(TextOutcome(s, text)).value.chatId == s.chatId && Saved(TextOutcome(s, text)).value.userId == s.userId
    ensures TextOutcome(s, text).Confirm? <==> s.step == StepText && text != ""
  {
    match s.step {
      case StepTime =>
      case StepInterval =>
      case StepText =>
      case StepDate =>
      case _ =>
    }
  }

  /** typeToRepeat: only "everyday" is recognised; every other type maps to RepeatNone. */
  function TypeToRepeat(typ: string): (r: RepeatType)
    ensures r == RepeatEveryDay <==> typ == TypeEveryDay
    ensures r == RepeatNone <==> typ != TypeEveryDay
  {
    if typ == TypeEveryDay then RepeatEveryDay else RepeatNone
  }

  /** The repeat kind createReminderFromSession stores: typeToRepeat, overridden for five types. */
  function RepeatOfType(typ: string): (r: RepeatType)
    ensures r == RepeatNone <==> typ !in {TypeEveryDay, TypeWeek, TypeMonth, TypeNDays, TypeYear}
    ensures typ !in {TypeWeek, TypeMonth, TypeYear, TypeDate, TypeNDays} ==> r == TypeToRepeat(typ)
  {
    if typ == TypeWeek then RepeatEveryWeek
    else if typ == TypeMonth then RepeatEveryMonth
    else if typ == TypeYear then RepeatEveryYear
    else if typ == TypeDate then RepeatNone
    else if typ == TypeNDays then RepeatEveryNDays
    else TypeToRepeat(typ)
  }

  /** The repeat days createReminderFromSession stores: [Interval] for weekly and monthly reminders. */
  function RepeatDaysOfType(typ: string, interval: Int64): (days: seq<Int64>)
    ensures days != [] <==> typ == TypeWeek || typ == TypeMonth
    ensures days != [] ==> days == [interval] && RepeatOfType(typ) in {RepeatEveryWeek, RepeatEveryMonth}
  {
    if typ == TypeWeek || typ == TypeMonth then [interval] else []
  }

  /** The mapping is onto the six repeat kinds and only the five repeating types repeat. */
  lemma RepeatMapping(typ: string)
    ensures Repeats(RepeatOfType(typ)) <==> typ in {TypeEveryDay, TypeWeek, TypeMonth, TypeNDays, TypeYear}
    ensures RepeatOfType(TypeToday) == RepeatOfType(TypeTomorrow) == RepeatOfType(TypeDate) == RepeatNone
    ensures RepeatOfType(TypeEveryDay) == RepeatEveryDay && RepeatOfType(TypeWeek) == RepeatEveryWeek
    ensures RepeatOfType(TypeMonth) == RepeatEveryMonth && RepeatOfType(TypeNDays) == RepeatEveryNDays
    ensures RepeatOfType(TypeYear) == RepeatEveryYear
  {
  }

  /** Why createReminderFromSession gives up. */
  datatype CreateError =
    | UserLookupFailed
    | TimeUnparsable
    | DateUnparsable
    | Rejected(error: RepoError)

  /**
   * GetOrCreateUser and time.LoadLocation as createReminderFromSession sees
   * them: a failure, or the zone to work in (the user's own when it is set and
   * loads, otherwise the server's local zone).
   */
  datatype UserLookup = LookupFailed | Found(zone: Zone)

  /** The first fire time of a session whose time parsed to t; the zero time for an unknown type. */
  function FirstTime(s: AddReminderSession, now: Instant, z: Zone, t: Clock): (r: Result<Instant, CreateError>)
    requires s.kind == TypeYear ==> |Split(s.date, '.')| >= 2
    ensures r.Err? <==> s.kind == TypeNDays && ParseDate(s.date).None?
    ensures r.Err? ==> r.error == DateUnparsable
  {
    if s.kind == TypeToday then Ok(GetNextTimeToday(now, z, t))
    else if s.kind == TypeTomorrow then Ok(GetNextTimeTomorrow(now, z, t))
    else if s.kind == TypeEveryDay then Ok(GetNextTimeToday(now, z, t))
    else if s.kind == TypeWeek then Ok(GetNextTimeWeek(now, z, t, s.interval))
    else if s.kind == TypeMonth then Ok(GetNextTimeMonth(now, z, t, s.interval))
    else if s.kind == TypeYear then Ok(GetNextTimeYear(now, z, t, s.date))
    else if s.kind == TypeDate then Ok(GetNextTimeDate(t, s.date, z))
    else if s.kind == TypeNDays then
      match ParseDate(s.date)
      case None => Err(DateUnparsable)
      case Some(c) => Ok(GetNextTimeNDays(Date(c.year, c.month, c.day, 0, 0, 0, z), z, t, s.interval))
    else Ok(ZeroTime)
  }

  /**
   * What the first fire time means: at t's clock within a day for today and
   * every day, on the next day for tomorrow, on the chosen weekday within a
   * week, strictly later for a monthly one, the start day plus the interval
   * for every N days, and the zero time for an unknown type.
   */
  lemma FirstTimeMeans(s: AddReminderSession, now: Instant, z: Zone, t: Clock)
    requires s.kind == TypeYear ==> |Split(s.date, '.')| >= 2
    ensures var r := FirstTime(s, now, z, t);
      && ((s.kind == TypeToday || s.kind == TypeEveryDay) ==> now <= r.value < now + 86400 && HasClock(r.value, z, t))
      && (s.kind == TypeTomorrow ==> DayIndex(r.value, z) == DayIndex(now, z) + 1 && HasClock(r.value, z, t))
      && (s.kind == TypeWeek && 0 <= s.interval < 7 ==>
            now < r.value <= now + 7 * 86400 && WeekdayOf(r.value, z) == s.interval && HasClock(r.value, z, t))
      && (s.kind == TypeMonth && s.interval >= 1 ==> r.value > now)
      && (s.kind == TypeNDays && r.Ok? ==>
            var c := ParseDate(s.date).value;
            DayIndex(r.value, z) == DayIndex(Date(c.year, c.month, c.day, 0, 0, 0, z), z) + s.interval
            && HasClock(r.value, z, t))
      && (!KnownType(s.kind) ==> r == Ok(ZeroTime))
  {
  }

  /**
   * createReminderFromSession up to AddReminder: the time is parsed, the first
   * fire time computed in the user's zone, and the reminder built unpaused,
   * stamped with now and with the type's repeat rule.
   */
  function Draft(s: AddReminderSession, now: Instant, z: Zone): (r: Result<Reminder, CreateError>)
    requires s.kind == TypeYear ==> |Split(s.date, '.')| >= 2
    ensures ParseClock(s.time).None? ==> r == Err(TimeUnparsable)
    ensures r.Ok? <==> ParseClock(s.time).Some? && FirstTime(s, now, z, ParseClock(s.time).value).Ok?
    ensures r.Ok? ==>
      var rem := r.value;
      rem.chatId == s.chatId && rem.userId == s.userId && rem.text == s.text
      && rem.repeat == RepeatOfType(s.kind) && rem.repeatDays == RepeatDaysOfType(s.kind, s.interval)
      && rem.repeatEvery == s.interval && !rem.paused && rem.createdAt == now && rem.updatedAt == now
      && rem.nextTime == FirstTime(s, now, z, ParseClock(s.time).value).value
  {
    match ParseClock(s.time)
    case None => Err(TimeUnparsable)
    case Some(t) =>
      match FirstTime(s, now, z, t)
      case Err(e) => Err(e)
      case Ok(next) =>
        var rem := Reminder(0, s.chatId, s.userId, s.text, next, TypeToRepeat(s.kind), [], s.interval, false, now, now);
        Ok(rem.(repeat := RepeatOfType(s.kind), repeatDays := RepeatDaysOfType(s.kind, s.interval)))
  }

  /**
   * Whether createReminderFromSession succeeds: the user is found, the draft
   * builds and passes validateReminder, and the INSERT works.
   */
  predicate Creates(s: AddReminderSession, now: Instant, user: UserLookup, dbFails: bool)
    requires s.kind == TypeYear ==> |Split(s.date, '.')| >= 2
  {
    user.Found? && Draft(s, now, user.zone).Ok? && Validate(Some(Draft(s, now, user.zone).value)).None? && !dbFails
  }

  /**
   * A session that reached confirmation through the wizard can always be
   * computed: a yearly one has the "DD.MM" GetNextTimeYear indexes into, and
   * its time parses unless it is a monthly one that skipped the time step.
   */
  lemma ConfirmedIsComplete(s: AddReminderSession)
    requires Reachable(s) && s.step == StepConfirm
    ensures s.kind == TypeYear ==> |Split(s.date, '.')| >= 2
    ensures s.kind != TypeMonth ==> ParseClock(s.time).Some?
    ensures s.text != ""
  {
    if s.kind == TypeYear {
      assert s.date[2] == '.';
      SplitHasSep(s.date, '.');
    }
  }

  /**
   * Every reminder the wizard builds satisfies the scheduler's condition for
   * catching up: an every-N-days reminder has a positive step. A weekly one
   * stores its weekday, a monthly one its day.
   */
  lemma DraftHalts(s: AddReminderSession, now: Instant, z: Zone, later: Instant)
    requires Reachable(s) && s.step == StepConfirm
    requires s.kind == TypeYear ==> |Split(s.date, '.')| >= 2
    requires Draft(s, now, z).Ok?
    ensures var rem := Draft(s, now, z).value;
      Halts(rem.nextTime, later, rem.repeat, rem.repeatEvery)
      && (rem.repeat == RepeatEveryNDays ==> rem.repeatEvery > 0)
      && (rem.repeat == RepeatEveryWeek ==> rem.repeatDays == [s.interval] && 0 <= s.interval <= 6)
      && (rem.repeat == RepeatEveryMonth ==> rem.repeatDays == [s.interval] && s.interval > 0)
  {
  }

  /** Storing a reachable session and removing one keep every stored session reachable. */
  lemma ReachableKept(m: Sessions, s: AddReminderSession, chatId: int, userId: int)
    requires AllReachable(m) && Reachable(s)
    ensures AllReachable(Stored(m, s)) && AllReachable(Removed(m, chatId, userId))
  {
  }

  /** Deleting a pair's session undoes any Set for that pair made just before. */
  lemma RemovedStored(m: Sessions, s: AddReminderSession)
    ensures Removed(Stored(m, s), s.chatId, s.userId) == Removed(m, s.chatId, s.userId)
  {
  }

  /** The add-reminder wizard: the shared session manager and the reminder use cases. */
  class Wizard {
    const sessions: Manager
    const reminders: Usecase

    ghost predicate Valid()
      reads this, sessions, reminders, reminders.repo
    {
      sessions.Valid() && reminders.repo.Valid() && AllReachable(sessions.sessions)
    }

    constructor (sessions: Manager, reminders: Usecase)
      ensures this.sessions == sessions && this.reminders == reminders
    {
      this.sessions := sessions;
      this.reminders := reminders;
    }

    /** getSession: the stored session of the pair, or a fresh one at StepType (not stored). */
    function GetSession(chatId: int, userId: int): (s: AddReminderSession)
      reads sessions
      requires sessions.Valid()
      ensures s == Current(sessions.sessions, chatId, userId)
    {
      match sessions.Get(chatId, userId)
      case Some(s) => s
      case None => Fresh(chatId, userId, StepType)
    }

    /** updateSession for an outcome: stores what it saves and nothing for Keep. */
    method Apply(o: Outcome)
      requires Valid() && !o.Confirm?
      requires o.Save? ==> Reachable(o.sess)
      modifies sessions
      ensures Valid()
      ensures o.Keep? ==> sessions.sessions == old(sessions.sessions)
      ensures o.Save? ==> sessions.sessions == Stored(old(sessions.sessions), o.sess)
    {
      if o.Save? {
        ReachableKept(sessions.sessions, o.sess, o.sess.chatId, o.sess.userId);
        sessions.Set(o.sess);
      }
    }

    /** HandleAddTypeCallback: the type is stored on the (possibly fresh) session with its next step. */
    method HandleAddTypeCallback(chatId: int, userId: int, typ: string) returns (reply: Reply)
      requires Valid()
      modifies sessions
      ensures Valid()
      ensures sessions.sessions == Stored(old(sessions.sessions), TypeChosen(Current(old(sessions.sessions), chatId, userId), typ))
      ensures reply == Say(TypePrompt(typ))
    {
      var s := GetSession(chatId, userId);
      var chosen := TypeChosen(s, typ);
      TypeChosenReachable(s, typ);
      ReachableKept(sessions.sessions, chosen, chatId, userId);
      sessions.Set(chosen);
      reply := Say(TypePrompt(typ));
    }

    /**
     * HandleAddWizardText: the input, cleaned of mentions of the bot, goes to
     * the handler of the session's step; a completed text creates the
     * reminder and deletes the session whether or not creation succeeds.
     */
    method HandleAddWizardText(chatId: int, userId: int, botName: string, input: string,
                               now: Instant, user: UserLookup, clock: Instant, dbFails: bool)
      returns (reply: Reply)
      requires Valid()
      modifies sessions, reminders.repo
      ensures Valid()
      ensures var o := TextOutcome(Current(old(sessions.sessions), chatId, userId), StripMention(input, botName));
        (!o.Confirm? ==> reply == o.reply && unchanged(reminders.repo))
        && (o.Keep? ==> sessions.sessions == old(sessions.sessions))
        && (o.Save? ==> sessions.sessions == Stored(old(sessions.sessions), o.sess))
        && (o.Confirm? ==> sessions.sessions == Removed(old(sessions.sessions), chatId, userId)
                           && (reply == Say(ReminderCreated) || reply == Say(ErrCreateReminder))
                           && (o.sess.kind == TypeYear ==> |Split(o.sess.date, '.')| >= 2)
                           && (reply == Say(ReminderCreated) <==> Creates(o.sess, now, user, dbFails))
                           && (!Creates(o.sess, now, user, dbFails) ==> reminders.repo.rows == old(reminders.repo.rows))
                           && (Creates(o.sess, now, user, dbFails) ==>
                                 exists id :: id !in old(reminders.repo.rows)
                                   && reminders.repo.rows == old(reminders.repo.rows)[id := RowOf(Stamped(Draft(o.sess, now, user.zone).value, clock).(id := id))]))
    {
      var s := GetSession(chatId, userId);
      var text := StripMention(input, botName);
      var o := TextOutcome(s, text);
      StepsKeepReachable(s, text);
      StepsMoveForward(s, text);
      if o.Confirm? {
        ghost var before := sessions.sessions;
        ReachableKept(sessions.sessions, o.sess, chatId, userId);
        ConfirmedIsComplete(o.sess);
        sessions.Set(o.sess);
        reply := HandleStepConfirm(o.sess, now, user, clock, dbFails);
        RemovedStored(before, o.sess);
      } else {
        Apply(o);
        reply := o.reply;
      }
    }

    /** handleStepConfirm: create, then delete the session, then report. */
    method HandleStepConfirm(s: AddReminderSession, now: Instant, user: UserLookup, clock: Instant, dbFails: bool)
      returns (reply: Reply)
      requires Valid() && Reachable(s) && s.step == StepConfirm
      requires s.kind == TypeYear ==> |Split(s.date, '.')| >= 2
      modifies sessions, reminders.repo
      ensures Valid()
      ensures sessions.sessions == Removed(old(sessions.sessions), s.chatId, s.userId)
      ensures reply == Say(ReminderCreated) || reply == Say(ErrCreateReminder)
      ensures reply == Say(ReminderCreated) <==> Creates(s, now, user, dbFails)
      ensures !Creates(s, now, user, dbFails) ==> reminders.repo.rows == old(reminders.repo.rows)
      ensures Creates(s, now, user, dbFails) ==>
        exists id :: id !in old(reminders.repo.rows)
          && reminders.repo.rows == old(reminders.repo.rows)[id := RowOf(Stamped(Draft(s, now, user.zone).value, clock).(id := id))]
    {
      ConfirmedIsComplete(s);
      var err := CreateReminderFromSession(s, now, user, clock, dbFails);
      ReachableKept(sessions.sessions, s, s.chatId, s.userId);
      sessions.Delete(s.chatId, s.userId);
      if err.Some? {
        reply := Say(ErrCreateReminder);
      } else {
        reply := Say(ReminderCreated);
      }
    }

    /**
     * createReminderFromSession: the user lookup, the draft, then AddReminder.
     * Success stores exactly the draft, stamped, under a fresh id.
     */
    method CreateReminderFromSession(s: AddReminderSession, now: Instant, user: UserLookup, clock: Instant, dbFails: bool)
      returns (err: Option<CreateError>)
      requires reminders.repo.Valid()
      requires s.kind == TypeYear ==> |Split(s.date, '.')| >= 2
      modifies reminders.repo
      ensures reminders.repo.Valid()
      ensures user.LookupFailed? ==> err == Some(UserLookupFailed)
      ensures user.Found? && Draft(s, now, user.zone).Err? ==> err == Some(Draft(s, now, user.zone).error)
      ensures err.Some? ==> reminders.repo.rows == old(reminders.repo.rows)
      ensures err.None? <==> Creates(s, now, user, dbFails)
      ensures err.None? ==>
        exists id :: id !in old(reminders.repo.rows)
          && reminders.repo.rows == old(reminders.repo.rows)[id := RowOf(Stamped(Draft(s, now, user.zone).value, clock).(id := id))]
    {
      if user.LookupFailed? {
        return Some(UserLookupFailed);
      }
      var d := Draft(s, now, user.zone);
      if d.Err? {
        return Some(d.error);
      }
      var r := reminders.AddReminder(Some(d.value), clock, dbFails);
      if r.Err? {
        return Some(Rejected(r.error));
      }
      err := None;
    }

    /** HandleWeekdayCallback. */
    method HandleWeekdayCallback(chatId: int, userId: int, data: string) returns (reply: Reply)
      requires Valid()
      modifies sessions
      ensures Valid()
      ensures var o := WeekdayCallback(Current(old(sessions.sessions), chatId, userId), data);
        reply == o.reply
        && sessions.sessions == if o.Save? then Stored(old(sessions.sessions), o.sess) else old(sessions.sessions)
    {
      var s := GetSession(chatId, userId);
      var o := WeekdayCallback(s, data);
      WeekdayKeepsReachable(s, data);
      Apply(o);
      reply := o.reply;
    }

    /** HandleMonthCallback. */
    method HandleMonthCallback(chatId: int, userId: int, data: string) returns (reply: Reply)
      requires Valid()
      modifies sessions
      ensures Valid()
      ensures var o := MonthCallback(Current(old(sessions.sessions), chatId, userId), data);
        reply == o.reply
        && sessions.sessions == if o.Save? then Stored(old(sessions.sessions), o.sess) else old(sessions.sessions)
    {
      var s := GetSession(chatId, userId);
      var o := MonthCallback(s, data);
      MonthKeepsReachable(s, data);
      Apply(o);
      reply := o.reply;
    }
  }
}
