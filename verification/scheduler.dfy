/**
 * internal/delivery/telegram/scheduler.go: every tick the due reminders are
 * sent; one-time reminders are then deleted and repeating ones moved to their
 * next occurrence after now.
 */
module Scheduler {
  import opened Wrappers
  import opened GoTime
  import opened Domain
  import opened ReminderRepository
  import opened ReminderUsecase

  /** One turn of calcNextTimeForward's switch, for a repeating kind. */
  function Advance(t: Instant, kind: RepeatType, every: int, z: Zone): (r: Instant)
    requires kind != RepeatNone
    ensures SecondOfDay(r, z) == SecondOfDay(t, z)
  {
    match kind
    case RepeatEveryDay => DayShiftKeepsClock(t, 1, z); t + 86400
    case RepeatEveryWeek => DayShiftKeepsClock(t, 7, z); t + 7 * 86400
    case RepeatEveryMonth => AddDateKeepsClock(t, 0, 1, 0, z); AddDate(t, 0, 1, 0, z)
    case RepeatEveryNDays => AddDateKeepsClock(t, 0, 0, every, z); AddDate(t, 0, 0, every, z)
    case RepeatEveryYear => AddDateKeepsClock(t, 1, 0, 0, z); AddDate(t, 1, 0, 0, z)
  }

  /** Moving by whole days of 86400 seconds keeps the time of day in a fixed-offset zone. */
  lemma DayShiftKeepsClock(t: Instant, n: int, z: Zone)
    ensures SecondOfDay(t + n * 86400, z) == SecondOfDay(t, z)
  {
    DivUnique(t + n * 86400 + z.offset, 86400, DayIndex(t, z) + n, SecondOfDay(t, z));
  }

  /** Every turn moves at least one day forward, except every-N-days with N <= 0. */
  lemma AdvanceLater(t: Instant, kind: RepeatType, every: int, z: Zone)
    requires kind != RepeatNone && (kind == RepeatEveryNDays ==> every > 0)
    ensures Advance(t, kind, every, z) >= t + 86400
  {
    match kind
    case RepeatEveryDay =>
    case RepeatEveryWeek =>
    case RepeatEveryMonth => AddMonth(t, z);
    case RepeatEveryNDays => AddDays(t, every, z);
    case RepeatEveryYear => AddYear(t, z);
  }

  /**
   * calcNextTimeForward returns: it loops forever only for every-N-days with
   * N <= 0 when the reminder is not already in the future.
   */
  predicate Halts(next: Instant, now: Instant, kind: RepeatType, every: int)
  {
    !(kind == RepeatEveryNDays && every <= 0 && next <= now)
  }

  /** A step that moves every instant at least a day forward. */
  ghost predicate Grows(f: Instant -> Instant)
  {
    forall t :: f(t) >= t + 86400
  }

  /** The switch of calcNextTimeForward as a step function, for a kind that moves forward. */
  function Turn(kind: RepeatType, every: int, z: Zone): (f: Instant -> Instant)
    requires kind != RepeatNone && (kind == RepeatEveryNDays ==> every > 0)
    ensures Grows(f)
  {
    forall t | true ensures Advance(t, kind, every, z) >= t + 86400 {
      AdvanceLater(t, kind, every, z);
    }
    t => Advance(t, kind, every, z)
  }

  /** The first instant after now reached from next by repeating a forward step. */
  function FirstAfter(f: Instant -> Instant, next: Instant, now: Instant): (r: Instant)
    requires Grows(f)
    ensures r > now
    ensures next > now ==> r == next
    decreases now - next + 1
  {
    if next > now then next else FirstAfter(f, f(next), now)
  }

  /**
   * What calcNextTimeForward computes: the first occurrence after now of a
   * repeating reminder; next itself when already after now; now for a
   * one-time reminder that is due.
   */
  function Forward(next: Instant, now: Instant, kind: RepeatType, every: int, z: Zone): (r: Instant)
    requires Halts(next, now, kind, every)
    ensures kind != RepeatNone ==> r > now
    ensures next > now ==> r == next
    ensures kind == RepeatNone && next <= now ==> r == now
  {
    if next > now then next
    else if kind == RepeatNone then now
    else FirstAfter(Turn(kind, every, z), next, now)
  }

  /** calcNextTimeForward: advance the reminder's next time one repeat at a time until it is after now. */
  method CalcNextTimeForward(r: Reminder, now: Instant, z: Zone) returns (next: Instant)
    requires Halts(r.nextTime, now, r.repeat, r.repeatEvery)
    ensures next == Forward(r.nextTime, now, r.repeat, r.repeatEvery, z)
  {
    next := r.nextTime;
    while next <= now
      invariant Halts(next, now, r.repeat, r.repeatEvery)
      invariant Forward(next, now, r.repeat, r.repeatEvery, z) == Forward(r.nextTime, now, r.repeat, r.repeatEvery, z)
      decreases now - next
    {
      if r.repeat == RepeatNone {
        return now;
      }
      var prev := next;
      next := Advance(next, r.repeat, r.repeatEvery, z);
      assert next == Turn(r.repeat, r.repeatEvery, z)(prev);
    }
  }

  /** The instants n forward steps from t. */
  function Iterate(f: Instant -> Instant, t: Instant, n: nat): Instant
    decreases n
  {
    if n == 0 then t else Iterate(f, f(t), n - 1)
  }

  /** n steps of a growing step move at least n days. */
  lemma {:induction false} IterateGrows(f: Instant -> Instant, t: Instant, n: nat)
    requires Grows(f)
    ensures Iterate(f, t, n) >= t + n * 86400
    decreases n
  {
    if n > 0 {
      IterateGrows(f, f(t), n - 1);
    }
  }

  /** The first instant after now is one of the instants reached by stepping. */
  lemma {:induction false} FirstAfterIsReached(f: Instant -> Instant, next: Instant, now: Instant)
    requires Grows(f)
    ensures exists n: nat :: FirstAfter(f, next, now) == Iterate(f, next, n)
    decreases now - next + 1
  {
    if next > now {
      assert FirstAfter(f, next, now) == Iterate(f, next, 0);
    } else {
      FirstAfterIsReached(f, f(next), now);
      var n: nat :| FirstAfter(f, f(next), now) == Iterate(f, f(next), n);
      assert FirstAfter(f, next, now) == Iterate(f, next, n + 1);
    }
  }

  /** No instant reached by stepping lies strictly between now and the first one after now. */
  lemma {:induction false} FirstAfterIsFirst(f: Instant -> Instant, next: Instant, now: Instant, n: nat)
    requires Grows(f) && Iterate(f, next, n) > now
    ensures FirstAfter(f, next, now) <= Iterate(f, next, n)
    decreases now - next + 1
  {
    if next > now {
      IterateGrows(f, next, n);
    } else {
      FirstAfterIsFirst(f, f(next), now, n - 1);
    }
  }

  /**
   * A repeating reminder's forward time is one of its occurrences (next and
   * the instants reached from it by the switch), and no occurrence after now
   * comes earlier.
   */
  lemma ForwardIsFirstOccurrence(next: Instant, now: Instant, kind: RepeatType, every: int, z: Zone, n: nat)
    requires kind != RepeatNone && (kind == RepeatEveryNDays ==> every > 0)
    ensures exists k: nat :: Forward(next, now, kind, every, z) == Iterate(Turn(kind, every, z), next, k)
    ensures Iterate(Turn(kind, every, z), next, n) > now ==>
      Forward(next, now, kind, every, z) <= Iterate(Turn(kind, every, z), next, n)
  {
    var f := Turn(kind, every, z);
    FirstAfterIsReached(f, next, now);
    if Iterate(f, next, n) > now {
      FirstAfterIsFirst(f, next, now, n);
    }
  }

  /** The fixed step, in seconds, of the daily, weekly and every-N-days kinds. */
  function Period(kind: RepeatType, every: int): int
  {
    match kind
    case RepeatEveryDay => 86400
    case RepeatEveryWeek => 7 * 86400
    case RepeatEveryNDays => every * 86400
    case _ => 0
  }

  /** With a fixed step p, the first instant after now is next + ((now - next) / p + 1) * p. */
  lemma {:induction false} FirstAfterPeriodic(f: Instant -> Instant, p: int, next: Instant, now: Instant)
    requires Grows(f) && p > 0 && forall t :: f(t) == t + p
    requires next <= now
    ensures FirstAfter(f, next, now) == next + ((now - next) / p + 1) * p
    decreases now - next + 1
  {
    if next + p > now {
      ClosedFormBase(next, now, p);
    } else {
      FirstAfterPeriodic(f, p, next + p, now);
      ClosedFormStep(next, now, p);
    }
  }

  /**
   * Daily, weekly and every-N-days reminders that are due move forward by the
   * least whole number of periods that puts them after now.
   */
  lemma ForwardPeriodic(next: Instant, now: Instant, kind: RepeatType, every: int, z: Zone)
    requires kind == RepeatEveryDay || kind == RepeatEveryWeek || (kind == RepeatEveryNDays && every > 0)
    requires next <= now
    ensures Forward(next, now, kind, every, z) == next + ((now - next) / Period(kind, every) + 1) * Period(kind, every)
  {
    var f := Turn(kind, every, z);
    var p := Period(kind, every);
    forall t | true ensures f(t) == t + p {
      if kind == RepeatEveryNDays {
        AddDays(t, every, z);
      }
    }
    FirstAfterPeriodic(f, p, next, now);
  }

  lemma ClosedFormBase(next: int, now: int, p: int)
    requires p > 0 && next <= now < next + p
    ensures next + ((now - next) / p + 1) * p == next + p
  {
    DivUnique(now - next, p, 0, now - next);
  }

  lemma ClosedFormStep(next: int, now: int, p: int)
    requires p > 0 && next + p <= now
    ensures next + ((now - next) / p + 1) * p == (next + p) + ((now - (next + p)) / p + 1) * p
  {
    var q, m := (now - next - p) / p, (now - next - p) % p;
    assert now - next == (q + 1) * p + m;
    DivUnique(now - next, p, q + 1, m);
  }

  /** A message the bot sends: the chat and the text. */
  datatype Message = Message(chatId: int, text: string)

  /** The reminder's notification: "⏰ Напоминание: " and the reminder text, to its chat. */
  function ReminderMessage(r: Reminder): (m: Message)
    ensures m.chatId == r.chatId && |m.text| > |r.text| && m.text[|m.text| - |r.text|..] == r.text
  {
    Message(r.chatId, "⏰ Напоминание: " + r.text)
  }

  /**
   * What the outside world answers during one delivery round: the reminders
   * whose message fails to send, the chats whose stored time zone loads (any
   * other chat is handled in UTC), and the reminders whose delete or update
   * fails in the database.
   */
  datatype Env = Env(sendFails: set<int>, zones: map<int, Zone>, deleteFails: set<int>, editFails: set<int>)

  /** The zone of a chat: its own when it has one that loads, else UTC. */
  function ZoneOf(env: Env, chatId: int): Zone
  {
    if chatId in env.zones then env.zones[chatId] else UTC
  }

  /** A repeating reminder after delivery: next time moved forward, UpdatedAt set to now. */
  function Rescheduled(r: Reminder, now: Instant, env: Env): (u: Reminder)
    requires Halts(r.nextTime, now, r.repeat, r.repeatEvery)
    ensures r.repeat != RepeatNone ==> u.nextTime > now
    ensures u.(nextTime := r.nextTime, updatedAt := r.updatedAt) == r
  {
    r.(nextTime := Forward(r.nextTime, now, r.repeat, r.repeatEvery, ZoneOf(env, r.chatId)), updatedAt := now)
  }

  /**
   * The table after one iteration of deliverDueReminders' loop: paused and
   * unsent reminders leave it alone; a sent one-time reminder is deleted; a
   * sent repeating reminder is rescheduled and written with EditReminder,
   * whose UPDATE stamps it with the clock. Failed writes change nothing.
   */
  function DeliverOne(rows: map<int, Row>, r: Reminder, now: Instant, clock: Instant, env: Env): (out: map<int, Row>)
    requires Halts(r.nextTime, now, r.repeat, r.repeatEvery)
    ensures forall k :: k != r.id ==> (k in out <==> k in rows) && (k in out ==> out[k] == rows[k])
    ensures r.paused || r.id in env.sendFails ==> out == rows
    ensures r.id in out ==> r.id in rows
  {
    if r.paused || r.id in env.sendFails then rows
    else if r.repeat == RepeatNone then
      if r.id in rows && r.id !in env.deleteFails then map k | k in rows && k != r.id :: rows[k] else rows
    else
      var u := Rescheduled(r, now, env);
      if Validate(Some(u)).None? && u.id in rows && u.id !in env.editFails
      then rows[u.id := RowOf(u.(updatedAt := clock))]
      else rows
  }

  /** Every listed reminder can be moved forward without looping forever. */
  predicate AllHalt(list: seq<Reminder>, now: Instant)
  {
    forall i :: 0 <= i < |list| ==> Halts(list[i].nextTime, now, list[i].repeat, list[i].repeatEvery)
  }

  /** The table after the loop has handled the listed reminders, in order. */
  function Delivered(rows: map<int, Row>, list: seq<Reminder>, now: Instant, clock: Instant, env: Env): map<int, Row>
    requires AllHalt(list, now)
    decreases |list|
  {
    if |list| == 0 then rows
    else
      var last := list[|list| - 1];
      DeliverOne(Delivered(rows, list[..|list| - 1], now, clock, env), last, now, clock, env)
  }

  /** The messages the loop hands to the bot: one per unpaused reminder, in order. */
  function Outbox(list: seq<Reminder>): seq<Message>
  {
    if |list| == 0 then []
    else
      var last := list[|list| - 1];
      Outbox(list[..|list| - 1]) + (if last.paused then [] else [ReminderMessage(last)])
  }

  /** A reminder acted on: neither paused nor failing to send. */
  predicate Acted(r: Reminder, env: Env)
  {
    !r.paused && r.id !in env.sendFails
  }

  /** A row no acted-on reminder names is left exactly as it was, present or absent. */
  lemma {:induction false} DeliveredUntouched(rows: map<int, Row>, list: seq<Reminder>, now: Instant, clock: Instant, env: Env, k: int)
    requires AllHalt(list, now)
    requires forall i :: 0 <= i < |list| && list[i].id == k ==> !Acted(list[i], env)
    ensures k in Delivered(rows, list, now, clock, env) <==> k in rows
    ensures k in rows ==> Delivered(rows, list, now, clock, env)[k] == rows[k]
    decreases |list|
  {
    if |list| > 0 {
      DeliveredUntouched(rows, list[..|list| - 1], now, clock, env, k);
    }
  }

  /** Listed ids are pairwise distinct, as a scan in id order yields them. */
  predicate DistinctIds(list: seq<Reminder>)
  {
    forall i, j :: 0 <= i < j < |list| ==> list[i].id != list[j].id
  }

  /**
   * The fate of each delivered reminder: a one-time reminder is gone, a
   * repeating one is stored rescheduled, with its next time after now, unless
   * the database write failed.
   */
  lemma {:induction false} DeliveredOutcome(rows: map<int, Row>, list: seq<Reminder>, now: Instant, clock: Instant, env: Env, i: int)
    requires AllHalt(list, now) && DistinctIds(list)
    requires 0 <= i < |list| && Acted(list[i], env) && list[i].id in rows
    ensures list[i].repeat == RepeatNone && list[i].id !in env.deleteFails ==>
      list[i].id !in Delivered(rows, list, now, clock, env)
    ensures list[i].repeat != RepeatNone && Validate(Some(list[i])).None? && list[i].id !in env.editFails ==>
      list[i].id in Delivered(rows, list, now, clock, env)
      && Delivered(rows, list, now, clock, env)[list[i].id] == RowOf(Rescheduled(list[i], now, env).(updatedAt := clock))
      && Delivered(rows, list, now, clock, env)[list[i].id].nextTime > now
    decreases |list|
  {
    var n := |list|;
    var init := list[..n - 1];
    var r := list[i];
    assert AllHalt(init, now);
    if i == n - 1 {
      DeliveredUntouched(rows, init, now, clock, env, r.id);
    } else {
      DeliveredOutcome(rows, init, now, clock, env, i);
      assert list[n - 1].id != r.id;
    }
  }

  /** The loop sends nothing for paused reminders and one message for every other, in list order. */
  lemma {:induction false} OutboxSkipsPaused(list: seq<Reminder>)
    ensures |Outbox(list)| <= |list|
    ensures (forall i :: 0 <= i < |list| ==> !list[i].paused) ==>
      Outbox(list) == seq(|list|, i requires 0 <= i < |list| => ReminderMessage(list[i]))
    ensures (forall i :: 0 <= i < |list| ==> list[i].paused) ==> Outbox(list) == []
  {
    if |list| > 0 {
      OutboxSkipsPaused(list[..|list| - 1]);
    }
  }

  /**
   * deliverDueReminders: list the due reminders (a failed listing ends the
   * round), then send each unpaused one and delete or reschedule it.
   */
  method DeliverDueReminders(uc: Usecase, now: Instant, clock: Instant, listFails: bool, env: Env)
    returns (outbox: seq<Message>)
    requires uc.repo.Valid()
    requires forall id :: id in uc.repo.rows ==>
      Halts(uc.repo.rows[id].nextTime, now, uc.repo.rows[id].repeat, uc.repo.rows[id].repeatEvery)
    modifies uc.repo
    ensures uc.repo.Valid()
    ensures listFails ==> outbox == [] && uc.repo.rows == old(uc.repo.rows)
    ensures !listFails ==>
      var list := old(uc.ListDue(now, clock, false)).value;
      AllHalt(list, now) && DistinctIds(list)
      && outbox == Outbox(list)
      && uc.repo.rows == Delivered(old(uc.repo.rows), list, now, clock, env)
  {
    var listed := uc.ListDue(now, clock, listFails);
    if listed.Err? {
      return [];
    }
    var list := listed.value;
    DueListHalts(uc.repo, now, clock);
    outbox := DeliverAll(uc, list, now, clock, env);
  }

  /** The due list holds each reminder once, and none of them makes calcNextTimeForward loop. */
  lemma DueListHalts(store: ReminderStore, now: Instant, clock: Instant)
    requires store.Valid()
    requires forall id :: id in store.rows ==>
      Halts(store.rows[id].nextTime, now, store.rows[id].repeat, store.rows[id].repeatEvery)
    ensures AllHalt(store.ListDue(now, clock, false).value, now)
    ensures DistinctIds(store.ListDue(now, clock, false).value)
  {
    store.ListDueExact(now, clock);
    ScanIdsAscending(store.rows, DueAt(DueInstant(now, clock)), 1, store.lastId);
  }

  /** The loop of deliverDueReminders over the listed reminders. */
  method DeliverAll(uc: Usecase, list: seq<Reminder>, now: Instant, clock: Instant, env: Env)
    returns (outbox: seq<Message>)
    requires uc.repo.Valid() && AllHalt(list, now)
    modifies uc.repo
    ensures uc.repo.Valid()
    ensures outbox == Outbox(list)
    ensures uc.repo.rows == Delivered(old(uc.repo.rows), list, now, clock, env)
  {
    outbox := [];
    var i := 0;
    while i < |list|
      invariant 0 <= i <= |list|
      invariant uc.repo.Valid()
      invariant AllHalt(list[..i], now)
      invariant uc.repo.rows == Delivered(old(uc.repo.rows), list[..i], now, clock, env)
      invariant outbox == Outbox(list[..i])
    {
      assert list[..i + 1][..i] == list[..i];
      var sent := HandleDue(uc, list[i], now, clock, env);
      outbox := outbox + sent;
      i := i + 1;
    }
    assert list[..|list|] == list;
  }

  /** One iteration of deliverDueReminders' loop. */
  method HandleDue(uc: Usecase, r: Reminder, now: Instant, clock: Instant, env: Env) returns (sent: seq<Message>)
    requires uc.repo.Valid() && Halts(r.nextTime, now, r.repeat, r.repeatEvery)
    modifies uc.repo
    ensures uc.repo.Valid()
    ensures sent == if r.paused then [] else [ReminderMessage(r)]
    ensures uc.repo.rows == DeliverOne(old(uc.repo.rows), r, now, clock, env)
  {
    if r.paused {
      return [];
    }
    sent := [ReminderMessage(r)];
    if r.id in env.sendFails {
      return;
    }
    if r.repeat == RepeatNone {
      var _ := uc.DeleteReminder(r.id, r.id in env.deleteFails);
    } else {
      var next := CalcNextTimeForward(r, now, ZoneOf(env, r.chatId));
      var u := r.(nextTime := next, updatedAt := now);
      var _ := uc.EditReminder(Some(u), clock, r.id in env.editFails);
    }
  }
}
