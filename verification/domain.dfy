/**
 * The reminder entity of internal/domain/reminder.go: what is stored, listed,
 * delivered and rescheduled.
 */
module Domain {
  import opened GoStrconv
  import opened GoTime

  /** How a reminder repeats; Go numbers the kinds 0..5 with iota, in this order. */
  datatype RepeatType =
    | RepeatNone
    | RepeatEveryDay
    | RepeatEveryWeek
    | RepeatEveryMonth
    | RepeatEveryNDays
    | RepeatEveryYear

  /** The iota value of a repeat kind. */
  function RepeatCode(r: RepeatType): (n: int)
    ensures 0 <= n <= 5
  {
    match r
    case RepeatNone => 0
    case RepeatEveryDay => 1
    case RepeatEveryWeek => 2
    case RepeatEveryMonth => 3
    case RepeatEveryNDays => 4
    case RepeatEveryYear => 5
  }

  /** The repeat kind with a given iota value, if any. */
  function RepeatOfCode(n: int): (r: RepeatType)
    requires 0 <= n <= 5
  {
    [RepeatNone, RepeatEveryDay, RepeatEveryWeek, RepeatEveryMonth, RepeatEveryNDays, RepeatEveryYear][n]
  }

  /** The numbering is a bijection between the six kinds and 0..5. */
  lemma RepeatCodeRoundTrip(r: RepeatType, n: int)
    requires 0 <= n <= 5
    ensures RepeatOfCode(RepeatCode(r)) == r
    ensures RepeatCode(RepeatOfCode(n)) == n
  {
  }

  /**
   * A reminder. Instants are Unix seconds; the zero time.Time is
   * GoTime.ZeroTime. repeatDays holds the weekday or day of month of weekly
   * and monthly reminders; repeatEvery the step of every-N-days reminders.
   */
  datatype Reminder = Reminder(
    id: int,
    chatId: int,
    userId: int,
    text: string,
    nextTime: Instant,
    repeat: RepeatType,
    repeatDays: seq<Int64>,
    repeatEvery: int,
    paused: bool,
    createdAt: Instant,
    updatedAt: Instant)

  /** Whether a reminder fires more than once. */
  predicate Repeats(r: RepeatType)
  {
    r != RepeatNone
  }
}
