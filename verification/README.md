# dory-reminder-bot, modelled in Dafny

dory-reminder-bot is a Telegram bot that keeps reminders for private and group
chats. A user adds a reminder through a wizard. The wizard is a short
conversation kept in an in-memory session per (chat, user) pair: choose a type
(today, tomorrow, every day, weekly, every N days, monthly, yearly, a fixed
date), then answer the questions the type needs (weekday, day of the month,
"DD.MM", start date and step, time "HH:MM"), then give the text. The reminder
is stored in a SQLite table with its first fire time, computed in the chat's
time zone. A scheduler delivers the due reminders once a minute: one-time
reminders are deleted and repeating ones are moved to their next occurrence
after now. `/list` shows the chat's reminders ten to a page with back/next
buttons. `/edit`, `/delete`, `/pause` and `/resume` address a reminder by the
number the list shows. `/timezone` runs a second wizard that stores an IANA
zone for the chat.

The model follows the program's packages, one module per core file or
concern:

- `Domain` and `Session` hold the entities: reminders, repeat kinds, wizard
  sessions and the session manager.
- `Validator`, `TimeCalculator` and `Formatters` are the pure helpers:
  input checks, next-time arithmetic in a zone, and repeat texts.
- `RepeatDaysCodec` and `ReminderRepository` model the table. A class holds
  rows by id, plus the repeat-days text format.
- `ReminderUsecase` is a class over the repository.
- `Scheduler` models the delivery loop and `calcNextTimeForward`.
- `AddReminderWizard` models the current add-reminder wizard.
- `LegacyAddWizard` models the older `handler/add_wizard.go` generation where
  it differs.
- `TimezoneWizard` models both generations of the timezone wizard.
- `Router` models the text and callback dispatch.
- `ReminderCrud` models the list/edit/delete/pause/resume commands.
- `Messages` holds the prompts and the mention handling.

`GoStrings`, `GoStrconv`, `GoTime` and `GoTimeParse` model the parts of Go's
`strings`, `strconv` and `time` packages the core relies on, so they have no
rows below:

- `Fields`, `Split`, `Join` and `TrimSpace` from `strings`;
- `Atoi` and `Itoa` from `strconv`, on int64;
- `time.Date` with normalisation, `AddDate` and the `"15:04"` and
  `"02.01.2006"` layouts from `time`.

Instants are whole Unix seconds and a zone is a fixed UTC offset.

Everything the program gets from outside becomes a parameter:

- the current time (`now`, `clock`);
- success or failure of each SQL statement (`dbFails`, `listFails`,
  `readFails`, `writeFails`);
- failures to send a Telegram message;
- whether a zone name is valid;
- the chat's zone.

Go's `nil` becomes `Option`, and a returned `error` becomes `Result` or an
error datatype.

The session manager of `handler/session.go` is the same code as
`session/session.go` (lines 37-61 there). One class models both.
`getReminderNumber` of `handler/handlers.go:46-52` is the same function as in
`commands/reminder_crud.go`.

## Model

| member | source | states |
|---|---|---|
| Domain.RepeatCodeRoundTrip | internal/domain/reminder.go:10-15 | the iota numbering is a bijection between the six repeat kinds and 0..5 |
| Session.Fresh | internal/delivery/telegram/handler/wizards/add_reminder.go:76-82 | a session created for a missing key has only the chat id, the user id and the step set; all answers are empty or zero |
| Session.SessionKeyInjective | internal/delivery/telegram/session/session.go:46-48 | two (chat, user) pairs with the same "%d:%d" key are the same pair, negative group chat ids included |
| Session.SessionKey | internal/delivery/telegram/session/session.go:46-48 | the key holds a ':' right after the chat id's decimal, which holds none, so the first ':' ends the chat id |
| Session.Lookup | internal/delivery/telegram/session/session.go:51-55 | a session is found exactly when the pair's key is in the map, and it is the one filed there |
| Session.Stored | internal/delivery/telegram/session/session.go:58-62 | Set adds the key of the session's own ids and removes none |
| Session.Removed | internal/delivery/telegram/session/session.go:65-69 | Delete removes exactly the pair's key |
| Session.KeyedKept | internal/delivery/telegram/session/session.go:58-69 | Set and Delete keep every session filed under the key of its own ids |
| Session.SetThenGet | internal/delivery/telegram/session/session.go:51-62 | Get after Set returns the new session for its own pair and the old answer for every other pair |
| Session.DeleteThenGet | internal/delivery/telegram/session/session.go:51-69 | Get after Delete finds nothing for the deleted pair and the old answer for every other pair |
| Session.SetOverwrites | internal/delivery/telegram/session/session.go:58-62 | a second Set for the same pair replaces the first, so a pair has at most one session |
| Session.KeyedLookup | internal/delivery/telegram/session/session.go:51-55 | in a keyed map, a session found for a pair carries that pair's ids |
| Session.Manager.constructor | internal/delivery/telegram/session/session.go:42-44 | a new manager holds no sessions, and Get finds nothing for any pair |
| Session.Manager.Get | internal/delivery/telegram/session/session.go:51-55 | the pair's session with the pair's own ids, or none exactly when the key is absent |
| Session.Manager.Set | internal/delivery/telegram/session/session.go:58-62 | the new map is the old one with the session filed under its ids; Get then returns it |
| Session.Manager.Delete | internal/delivery/telegram/session/session.go:65-69 | the new map is the old one without the pair's key; Get then finds nothing |
| Messages.StripMention | internal/delivery/telegram/handler/wizards/add_reminder.go:146-147 | removing "@bot" and trimming gives a trimmed text no longer than the input |
| Messages.StripTrailingMention | internal/delivery/telegram/handler/wizards/add_reminder.go:146-147 | a group answer "text @bot" reads as "text" |
| Messages.StripNoMention | internal/delivery/telegram/handler/wizards/add_reminder.go:146-147 | text without '@' is only trimmed |
| Validator.IsTime | pkg/validator/time.go:9-17 | accepted iff the text has the shape `^\d{2}:\d{2}$` with hour <= 23 and minute <= 59 |
| Validator.MatchesHHMM | pkg/validator/time.go:10 | a text matching `^\d{2}:\d{2}$` splits on ':' into its two-digit hour and minute |
| Validator.IsTimeText | pkg/validator/time.go:9-17 | an accepted time parses, and its zero-padded text is the input |
| Validator.ClockTextIsTime | pkg/validator/time.go:9-17 | every zero-padded clock is accepted, so IsTime accepts exactly those texts |
| Validator.IsTimeRejects | pkg/validator/time.go:9-17 | "9:00" parses with layout 15:04 but is refused; "25:00" and "12:60" are refused; "23:59" is accepted |
| Validator.NextTimeFromString | pkg/validator/time.go:20-31 | an unparsable text leaves the base time unchanged; otherwise the result lies in [base, base + 1 day) with that hour and minute and zero seconds |
| Validator.DateShapes | pkg/validator/date.go:9-18 | the DD.MM and DD.MM.YYYY checks are shape checks only: every parsable date has the shape, but "32.13.2024" and "29.02.2023" do not parse |
| Validator.IsDateDDMM | pkg/validator/date.go:9-12 | a text matching `^\d{2}\.\d{2}$` splits on '.' into exactly the day and month that GetNextTimeYear reads |
| Validator.IsDateDDMMYYYY | pkg/validator/date.go:15-18 | a text matching `^\d{2}\.\d{2}\.\d{4}$` splits on '.' into exactly the three parts GetNextTimeDate reads |
| Validator.IsNotEmpty | pkg/validator/date.go:27-29 | accepted iff the text is not empty |
| Validator.IsInterval | pkg/validator/date.go:21-24 | an accepted interval is a decimal without '-' (an optional '+') whose int64 value is positive |
| Validator.IntervalOfNumber | pkg/validator/date.go:21-24 | the decimal of an int64 is an interval iff the number is positive |
| TimeCalculator.TodayAt | internal/delivery/telegram/handler/utils/time_calculator.go:18-24 | today's date at t lies at or before now iff now's clock has reached t |
| TimeCalculator.GetNextTimeToday | internal/delivery/telegram/handler/utils/time_calculator.go:18-38 | GetNextTimeToday and its copy GetNextTimeEveryDay: the result has t's hour and minute with zero seconds and lies in [now, now + 1 day) |
| TimeCalculator.GetNextTimeTomorrow | internal/delivery/telegram/handler/utils/time_calculator.go:27-29 | the result is on the calendar day after now's, at t |
| TimeCalculator.DailyUnique | internal/delivery/telegram/handler/utils/time_calculator.go:18-38 | at most one instant in [now, now + 1 day) has t's clock, so the daily result is that occurrence |
| TimeCalculator.WeekDayOffset | internal/delivery/telegram/handler/utils/time_calculator.go:41-47 | for weekday 0..6 the offset is 0..7 days, lands on the weekday, is 0 only before t today and 7 only after t today |
| TimeCalculator.GetNextTimeWeek | internal/delivery/telegram/handler/utils/time_calculator.go:41-47 | for weekday 0..6 the result falls on that weekday, at t, in (now, now + 7 days] |
| TimeCalculator.WeeklyUnique | internal/delivery/telegram/handler/utils/time_calculator.go:41-47 | only one instant in (now, now + 7 days] has that weekday and clock, so the weekly result is the next occurrence |
| TimeCalculator.GetNextTimeMonth | internal/delivery/telegram/handler/utils/time_calculator.go:50-61 | it moves to the next month iff now is at or past this month's day at t; for a positive day the result is after now; for a day the target month has, the result is that date at t |
| TimeCalculator.MonthRollsOver | internal/delivery/telegram/handler/utils/time_calculator.go:60 | time.Date normalises the day: the result is interval − 1 days after the first of the target month, at t, so a day past the month's length rolls into the next month (day 31 of a 30-day month is the 1st of the next) |
| TimeCalculator.YearPassedMeans | internal/delivery/telegram/handler/utils/time_calculator.go:64-72 | the field-by-field "passed" test equals now >= this year's date at t whenever that date exists |
| TimeCalculator.YearlyAfterNow | internal/delivery/telegram/handler/utils/time_calculator.go:64-72 | the occurrence picked lies after now for every month 1..12 and positive day, normalised days included |
| TimeCalculator.GetNextTimeYear | internal/delivery/telegram/handler/utils/time_calculator.go:64-72 | the result is after now for a valid month and positive day, and next year is picked exactly when this year's date at t is not after now |
| TimeCalculator.GetNextTimeDate | internal/delivery/telegram/handler/utils/time_calculator.go:75-84 | text without three dot-separated parts gives the zero time; a valid calendar date gives that date at t in the zone the caller passes, as wizards/add_reminder.go:403 calls it (see Left out) |
| TimeCalculator.GetNextTimeNDays | internal/delivery/telegram/handler/utils/time_calculator.go:87-90 | the start date at t plus interval days: interval days after the start's day, at t, whatever now is |
| RepeatDaysCodec.SerializeRepeatDays | internal/repository/reminder_repository.go:259-270 | the loop builds the stored text: "" for no days, otherwise the decimals joined by ',' |
| RepeatDaysCodec.SplitAndTrim | internal/repository/reminder_repository.go:334-344 | the pieces of the split, trimmed, with blank ones dropped, in order |
| RepeatDaysCodec.TrimEach | internal/repository/reminder_repository.go:336-343 | the loop keeps exactly the non-blank trimmed pieces, in order |
| RepeatDaysCodec.DeserializeRepeatDays | internal/repository/reminder_repository.go:318-331 | "" reads as no days; otherwise the value of each piece Atoi accepts, in order |
| RepeatDaysCodec.TrimmedPiecesClean | internal/repository/reminder_repository.go:334-344 | every piece splitAndTrim keeps is non-blank and trimmed |
| RepeatDaysCodec.TrimmedPiecesEmpty | internal/repository/reminder_repository.go:334-344 | nothing is kept iff every piece is blank |
| RepeatDaysCodec.TrimmedPiecesKeepsClean | internal/repository/reminder_repository.go:334-344 | pieces that are already clean all survive, unchanged and in order |
| RepeatDaysCodec.ParsedIntsOfTexts | internal/repository/reminder_repository.go:318-331 | Atoi reads the decimals of int64 values back as those values |
| RepeatDaysCodec.RepeatDaysRoundTrip | internal/repository/reminder_repository.go:259-331 | reading back the stored text of any list of int64 days gives that list |
| RepeatDaysCodec.SerializedEmpty | internal/repository/reminder_repository.go:259-270 | the stored text is empty iff there are no days |
| RepeatDaysCodec.SerializedCanonical | internal/repository/reminder_repository.go:259-331 | text written by serializeRepeatDays is written back identically after a read |
| RepeatDaysCodec.DeserializedPerPiece | internal/repository/reminder_repository.go:318-344 | a non-empty text reads piece by piece: each comma-separated piece contributes its value when trimmed it is a non-blank integer |
| RepeatDaysCodec.TrimmedThenParsed | internal/repository/reminder_repository.go:318-344 | trimming all pieces then parsing equals parsing each piece on its own |
| ReminderRepository.Validate | internal/repository/reminder_repository.go:77-90 | valid iff present with non-empty text and a chat id other than 0; any failure is ErrInvalidReminder |
| ReminderRepository.ValidateIgnoresUser | internal/repository/reminder_repository.go:77-90 | the user id plays no part in validation |
| ReminderRepository.ReadBack | internal/repository/reminder_repository.go:273-288 | a written reminder scans back as itself with the row's id and user id 0, since no user id is stored |
| ReminderRepository.WriteBack | internal/repository/reminder_repository.go:142-180 | scanning a row, changing the pause flag and UpdatedAt and updating it changes those two columns only |
| ReminderRepository.ScanIdsExact | internal/repository/reminder_repository.go:222-256 | a listing yields exactly the stored ids whose rows satisfy the WHERE clause |
| ReminderRepository.ScanIdsAscending | internal/repository/reminder_repository.go:222-256 | a listing yields ids in increasing order, each at most once |
| ReminderRepository.ReadRowsIds | internal/repository/reminder_repository.go:291-315 | scanReminders returns one reminder per scanned row, in order, each carrying its row's id |
| ReminderRepository.TableInsert | internal/repository/reminder_repository.go:92-140 | inserting a validated row under the next AUTOINCREMENT id keeps ids positive and overwrites no row |
| ReminderRepository.ReminderStore.constructor | internal/repository/reminder_repository.go:69-71 | an empty table whose id counter is 0 |
| ReminderRepository.MissingColumns | internal/repository/migrate.go:10-23 | the NOT NULL columns without a default that an INSERT naming the given columns leaves unset |
| ReminderRepository.InsertOmitsUserId | internal/repository/reminder_repository.go:18-20 | createReminderQuery leaves exactly user_id unset, so SQLite refuses it on the table the schema creates |
| ReminderRepository.InsertWithUserAccepted | internal/repository/reminder_repository.go:18-20 | with user_id added, the INSERT sets every required column |
| ReminderRepository.ReminderStore.Create | internal/repository/reminder_repository.go:92-140 | an invalid reminder is refused and a failed INSERT reports a database error, both leaving the table unchanged; on success a fresh id is added with the reminder's columns, and zero timestamps are replaced by the current time |
| ReminderRepository.ReminderStore.Update | internal/repository/reminder_repository.go:142-180 | invalid reminder or id <= 0: invalid; a failed statement: database error; a missing row: not found, each leaving the table unchanged; success replaces exactly that row, with UpdatedAt set to now |
| ReminderRepository.ReminderStore.Delete | internal/repository/reminder_repository.go:182-202 | id <= 0, a failed statement and a missing row are reported in that order and change nothing; success removes exactly that row |
| ReminderRepository.ReminderStore.GetByID | internal/repository/reminder_repository.go:204-220 | the same three errors, and otherwise the stored row read back under its id |
| ReminderRepository.ReminderStore.ListByChat | internal/repository/reminder_repository.go:222-238 | chat id 0 is invalid, a failed query is a database error, and otherwise the listing is the chat's scan |
| ReminderRepository.ReminderStore.ListDue | internal/repository/reminder_repository.go:240-256 | fails only with the query; otherwise the scan of unpaused rows due at now, where a zero now means the current time |
| ReminderRepository.ReminderStore.ListDueExact | internal/repository/reminder_repository.go:240-256 | the due listing holds exactly the unpaused rows with next time <= now, once each in id order, each read back from its row |
| ReminderRepository.ReminderStore.ListByChatExact | internal/repository/reminder_repository.go:222-238 | the chat's listing holds exactly the chat's rows, once each in id order, each read back from its row |
| ReminderUsecase.WithPaused | internal/usecase/reminder_usecase.go:45-63 | pausing or resuming changes only that row's flag and UpdatedAt |
| ReminderUsecase.PauseIdempotent | internal/usecase/reminder_usecase.go:45-53 | pausing twice equals pausing once at the later time |
| ReminderUsecase.PauseThenResume | internal/usecase/reminder_usecase.go:45-63 | pause then resume restores the row except for UpdatedAt |
| ReminderUsecase.Usecase.constructor | internal/usecase/reminder_usecase.go:27-29 | the use cases over the given repository |
| ReminderUsecase.Usecase.AddReminder | internal/usecase/reminder_usecase.go:33-35 | succeeds iff the reminder validates and the INSERT works; success adds one new row |
| ReminderUsecase.Usecase.EditReminder | internal/usecase/reminder_usecase.go:37-39 | succeeds iff the reminder validates, its row exists and the UPDATE works; success replaces that row only |
| ReminderUsecase.Usecase.DeleteReminder | internal/usecase/reminder_usecase.go:41-43 | succeeds iff the row exists and the DELETE works; success removes that row only |
| ReminderUsecase.Usecase.PauseReminder | internal/usecase/reminder_usecase.go:45-53 | a GetByID error is passed on; success iff the read and the write work, setting only the pause flag and UpdatedAt |
| ReminderUsecase.Usecase.ResumeReminder | internal/usecase/reminder_usecase.go:55-63 | the same, with the pause flag cleared |
| ReminderUsecase.Usecase.SetPaused | internal/usecase/reminder_usecase.go:45-63 | the shared read-modify-write: errors passed on and the table unchanged on failure |
| ReminderUsecase.Usecase.ListReminders | internal/usecase/reminder_usecase.go:65-67 | the repository's ListByChat |
| ReminderUsecase.Usecase.ListDue | internal/usecase/reminder_usecase.go:69-71 | the repository's ListDue |
| Scheduler.AdvanceLater | internal/delivery/telegram/scheduler.go:81-95 | every turn of the switch moves at least a day forward, except every-N-days with N <= 0 |
| Scheduler.Advance | internal/delivery/telegram/scheduler.go:81-95 | every arm of the switch keeps the reminder's time of day in the chat's zone |
| Scheduler.Turn | internal/delivery/telegram/scheduler.go:81-95 | for a repeating kind with a positive step, the switch is a step that moves every instant at least a day |
| Scheduler.FirstAfter | internal/delivery/telegram/scheduler.go:80-96 | stepping ends after now, and a next time already after now is kept |
| Scheduler.Forward | internal/delivery/telegram/scheduler.go:75-100 | the result is after now for every repeating kind, is next itself when next is already after now, and is now for a one-time reminder due in the past |
| Scheduler.CalcNextTimeForward | internal/delivery/telegram/scheduler.go:75-100 | the loop computes Forward whenever it terminates (see Halts under Left out) |
| Scheduler.IterateGrows | internal/delivery/telegram/scheduler.go:80-96 | n turns move at least n days, which bounds the number of turns |
| Scheduler.FirstAfterIsReached | internal/delivery/telegram/scheduler.go:80-96 | the result is one of the occurrences reached by stepping from the old next time |
| Scheduler.FirstAfterIsFirst | internal/delivery/telegram/scheduler.go:80-96 | no occurrence reached by stepping lies strictly between now and the result |
| Scheduler.ForwardIsFirstOccurrence | internal/delivery/telegram/scheduler.go:75-100 | the new next time is the first occurrence of the series after now |
| Scheduler.FirstAfterPeriodic | internal/delivery/telegram/scheduler.go:80-96 | with a fixed step p the loop ends at next + ((now - next) / p + 1) * p |
| Scheduler.ForwardPeriodic | internal/delivery/telegram/scheduler.go:83-90 | daily, weekly and every-N-days reminders skip all missed occurrences in closed form |
| Scheduler.ReminderMessage | internal/delivery/telegram/scheduler.go:38-39 | the notification goes to the reminder's chat and ends with its text |
| Scheduler.Rescheduled | internal/delivery/telegram/scheduler.go:53-63 | a delivered repeating reminder gets a next time after now, and only NextTime and UpdatedAt change |
| Scheduler.DeliveredUntouched | internal/delivery/telegram/scheduler.go:34-70 | a row no delivered reminder names is left exactly as it was, including when paused or when sending failed |
| Scheduler.DeliverOne | internal/delivery/telegram/scheduler.go:34-70 | one iteration touches only the delivered reminder's row, adds no row, and leaves the table as it was when the reminder is paused or its send fails |
| Scheduler.DeliveredOutcome | internal/delivery/telegram/scheduler.go:34-70 | a delivered one-time reminder is deleted unless the delete fails; a delivered repeating one is rewritten with its next time after now unless the edit fails |
| Scheduler.OutboxSkipsPaused | internal/delivery/telegram/scheduler.go:34-43 | paused reminders send nothing, and otherwise one message per reminder in list order |
| Scheduler.DeliverDueReminders | internal/delivery/telegram/scheduler.go:24-71 | a failed listing sends nothing and changes nothing; otherwise the messages and the new table are those of the due list handled in order |
| Scheduler.DueListHalts | internal/delivery/telegram/scheduler.go:24-34 | the due list holds each reminder once, and none of them makes the forward loop spin |
| Scheduler.DeliverAll | internal/delivery/telegram/scheduler.go:34-70 | the loop's messages and table are those of handling each listed reminder in turn |
| Scheduler.HandleDue | internal/delivery/telegram/scheduler.go:35-69 | one iteration: no message for a paused reminder, one message otherwise, and the table after that reminder |
| Formatters.WeekdayName | internal/delivery/telegram/handler/ui/formatters.go:92-107 | the Russian name for 0..6 with Sunday first, and "неизвестно" exactly for other numbers |
| Formatters.WeekdayNamesShape | internal/delivery/telegram/handler/ui/formatters.go:92-107 | every name is a non-empty lower-case Cyrillic word |
| Formatters.WeekdayNameInjective | internal/delivery/telegram/handler/ui/formatters.go:92-107 | no two weekdays share a name |
| Formatters.FormatRepeatKind | internal/delivery/telegram/handler/ui/formatters.go:20-46 | different repeat kinds never get the same text |
| Formatters.NDaysStepReadsBack | internal/delivery/telegram/handler/ui/formatters.go:20-46 | an every-N-days text is the three words "каждые", N, "дней", and N reads back with Atoi |
| Formatters.WeeklyNamesDay | internal/delivery/telegram/handler/ui/formatters.go:20-46 | a weekly text names the reminder's first repeat day |
| Formatters.FormatRepeat | internal/delivery/telegram/handler/ui/formatters.go:20-46 | every repeat text has at least four characters, whose first and fourth tell the kind (see FormatRepeatKind) |
| Formatters.FormatRepeatWithDetails | internal/delivery/telegram/handler/ui/formatters.go:49-75 | the zone argument is ignored and the text equals FormatRepeat's |
| Formatters.FormatStatus | internal/delivery/telegram/handler/ui/formatters.go:78-83 | a marker iff the reminder is paused |
| Router.RouteText | internal/delivery/telegram/handler/handler.go:107-142 | in groups only replies and mentions are read; a StepTimezone session goes to the timezone wizard and a text-awaiting step to the add wizard, each iff that holds |
| Router.RouteCallback | internal/delivery/telegram/handler/handler.go:145-156 | page buttons go to the list, weekday buttons to the wizard, and month buttons are never routed |
| Router.LegacyRouteCallback | internal/delivery/telegram/handler/structs.go:48-61 | the older dispatcher also routes month buttons, and agrees otherwise |
| Router.LegacyRouteText | internal/delivery/telegram/handler/handlers.go:110-119 | the older router sends only StepTime, StepText and StepInterval to the add wizard |
| Router.TypeChoiceIsRouted | internal/delivery/telegram/handler/handler.go:133-141 | after any type choice, the next text reaches the add wizard |
| Router.SavedStepIsRouted | internal/delivery/telegram/handler/handler.go:133-141 | every session a text step saves is routed back to the wizard |
| Router.RoutersAgree | internal/delivery/telegram/handler/handlers.go:110-119 | the two routers agree on every addressed text except in StepDate |
| TimezoneWizard.GroupHint | internal/delivery/telegram/handler/wizards/timezone.go:38-43 | the hint ends with the bot's mention |
| TimezoneWizard.WithGroupHint | internal/delivery/telegram/handler/wizards/timezone.go:38-43 | the hint is added iff the chat is not private and the message is not PromptUnknown |
| TimezoneWizard.ZoneInput | internal/delivery/telegram/handler/wizards/timezone.go:62-64 | the zone read is trimmed and no longer than the input |
| TimezoneWizard.ZoneInputNoMention | internal/delivery/telegram/handler/wizards/timezone.go:62-64 | without '@' both generations read the same zone |
| TimezoneWizard.ZoneInputMention | internal/delivery/telegram/handler/wizards/timezone.go:62-64 | "Europe/Moscow @bot" reads as "Europe/Moscow" |
| TimezoneWizard.TimezoneStep | internal/delivery/telegram/handler/wizards/timezone.go:57-96 | SetTimezone is called iff the zone is valid; the session is deleted iff it also succeeds; the main menu is shown iff the chat had no zone before |
| TimezoneWizard.LegacyZoneInput | internal/delivery/telegram/handler/timezone_wizard.go:17 | the older wizard reads the trimmed text |
| TimezoneWizard.LegacyTimezoneStep | internal/delivery/telegram/handler/timezone_wizard.go:14-34 | the same checks, with the main menu after every success |
| TimezoneWizard.TimezoneGenerationsAgree | internal/delivery/telegram/handler/timezone_wizard.go:14-34 | both generations take the same decisions; only the success message differs |
| TimezoneWizard.Wizard.constructor | internal/delivery/telegram/handler/wizards/timezone.go:24-36 | the wizard over the given session manager |
| TimezoneWizard.Wizard.OnTimezone | internal/delivery/telegram/handler/wizards/timezone.go:46-54 | the pair's session becomes a fresh StepTimezone session, and the prompt gets the group hint |
| TimezoneWizard.Wizard.HandleTimezoneText | internal/delivery/telegram/handler/wizards/timezone.go:57-96 | the reply, the zone written and the session map are TimezoneStep's decisions on the zone read |
| TimezoneWizard.Wizard.LegacyHandleTimezoneText | internal/delivery/telegram/handler/timezone_wizard.go:14-34 | the same for the older wizard |
| AddReminderWizard.AddReminderMessage | internal/delivery/telegram/handler/wizards/add_reminder.go:53-74 | PromptUnknown iff the type is none of the eight known types |
| AddReminderWizard.WeekdayOfName | internal/delivery/telegram/handler/wizards/add_reminder.go:458-467 | the weekday map finds exactly the seven names, each at its own number |
| AddReminderWizard.ParseWeekday | internal/delivery/telegram/handler/wizards/add_reminder.go:458-467 | a number 0..6 whose name is the lower-cased trimmed input, and none iff no name matches |
| AddReminderWizard.ParseWeekdayName | internal/delivery/telegram/handler/wizards/add_reminder.go:458-467 | every displayed weekday name parses back to its number |
| AddReminderWizard.ParseWeekdayIgnoresCase | internal/delivery/telegram/handler/wizards/add_reminder.go:458-467 | lower-casing the input first changes nothing |
| AddReminderWizard.Current | internal/delivery/telegram/handler/wizards/add_reminder.go:76-82 | the stored session of the pair, else a fresh StepType one with the pair's ids |
| AddReminderWizard.TypeStep | internal/delivery/telegram/handler/wizards/add_reminder.go:89-132 | week, month and year ask for the interval; ndays and date ask for the date; every other type asks for the time |
| AddReminderWizard.TypeChosen | internal/delivery/telegram/handler/wizards/add_reminder.go:89-132 | the type and step are set and every other field is kept |
| AddReminderWizard.TypePrompt | internal/delivery/telegram/handler/wizards/add_reminder.go:89-132 | the question after a type choice: the unknown-type prompt exactly for unknown types, and the time prompt of getAddReminderMessage for the types that go straight to StepTime |
| AddReminderWizard.TimeStep | internal/delivery/telegram/handler/wizards/add_reminder.go:179-190 | the session is saved iff the text is a valid time, with that time and the text step |
| AddReminderWizard.IntervalStep | internal/delivery/telegram/handler/wizards/add_reminder.go:192-260 | weekly needs a weekday name and stores its parseWeekday number, monthly and ndays need a positive integer and store its Atoi value, yearly needs a DD.MM date and stores that text; each success changes only that field and moves to StepTime |
| AddReminderWizard.TextStep | internal/delivery/telegram/handler/wizards/add_reminder.go:262-278 | a non-empty text completes the session and goes to confirmation |
| AddReminderWizard.TextOutcome | internal/delivery/telegram/handler/wizards/add_reminder.go:162-176 | only StepTime, StepInterval, StepText and StepDate act on the text, any other step ignores it, and only StepText confirms |
| AddReminderWizard.DateStep | internal/delivery/telegram/handler/wizards/add_reminder.go:280-337 | ndays takes the start date then the step; date takes "DD.MM.YYYY HH:MM"; every other type ignores the text |
| AddReminderWizard.WeekdayCallback | internal/delivery/telegram/handler/wizards/add_reminder.go:470-505 | accepted iff a weekly session at StepInterval gets "weekday_" and a number 0..6; the stored interval is the payload's number, and only the interval and StepTime change |
| AddReminderWizard.MonthCallback | internal/delivery/telegram/handler/wizards/add_reminder.go:508-539 | accepted iff a monthly session at StepInterval gets "month_" and 1..12; the stored interval is the payload's number, and only the interval and StepText change |
| AddReminderWizard.FreshReachable | internal/delivery/telegram/handler/wizards/add_reminder.go:76-82 | fresh sessions satisfy the wizard's invariant |
| AddReminderWizard.TypeChosenReachable | internal/delivery/telegram/handler/wizards/add_reminder.go:89-132 | a type choice restores the invariant from any session |
| AddReminderWizard.StepsKeepReachable | internal/delivery/telegram/handler/wizards/add_reminder.go:135-337 | every saved text step keeps the invariant |
| AddReminderWizard.WeekdayKeepsReachable | internal/delivery/telegram/handler/wizards/add_reminder.go:470-505 | the weekday buttons keep the invariant |
| AddReminderWizard.MonthKeepsReachable | internal/delivery/telegram/handler/wizards/add_reminder.go:508-539 | the month buttons keep the invariant |
| AddReminderWizard.StepsMoveForward | internal/delivery/telegram/handler/wizards/add_reminder.go:135-337 | a saved step is strictly later in the wizard and keeps the pair; confirmation happens iff a non-empty text arrives at StepText |
| AddReminderWizard.TypeToRepeat | internal/delivery/telegram/handler/wizards/add_reminder.go:449-456 | only "everyday" maps to a repeat kind |
| AddReminderWizard.RepeatMapping | internal/delivery/telegram/handler/wizards/add_reminder.go:354-446 | with createReminderFromSession's overrides, each type gets its own kind, and exactly the five repeating types repeat |
| AddReminderWizard.RepeatOfType | internal/delivery/telegram/handler/wizards/add_reminder.go:416-433 | a reminder repeats exactly for everyday, week, month, ndays and year, and typeToRepeat's answer stands for the types the switch does not override |
| AddReminderWizard.RepeatDaysOfType | internal/delivery/telegram/handler/wizards/add_reminder.go:419-425 | repeat days are stored exactly for weekly and monthly reminders, and then they are [Interval] |
| AddReminderWizard.FirstTime | internal/delivery/telegram/handler/wizards/add_reminder.go:354-446 | the only error here is an ndays start date that does not parse |
| AddReminderWizard.FirstTimeMeans | internal/delivery/telegram/handler/wizards/add_reminder.go:354-446 | the first fire time of each type, in the chat's zone, e.g. the next occurrence within a day or within a week, or the start date plus the step |
| AddReminderWizard.Draft | internal/delivery/telegram/handler/wizards/add_reminder.go:542-555 | an unparsable time is an error; otherwise the reminder carries the session's chat, user, text, kind, days and step, unpaused, stamped now |
| AddReminderWizard.ConfirmedIsComplete | internal/delivery/telegram/handler/wizards/add_reminder.go:135-337 | a session that reaches confirmation has a text, a time unless monthly, and a DD.MM date if yearly |
| AddReminderWizard.DraftHalts | internal/delivery/telegram/handler/wizards/add_reminder.go:354-446 | a confirmed session yields a reminder the scheduler can move forward, with a positive step and a valid weekday or day |
| AddReminderWizard.ReachableKept | internal/delivery/telegram/handler/wizards/add_reminder.go:84-87 | storing a reachable session or removing one keeps all stored sessions reachable |
| AddReminderWizard.RemovedStored | internal/delivery/telegram/handler/wizards/add_reminder.go:339-352 | deleting the pair's session after a Set removes it as if never set |
| AddReminderWizard.Wizard.constructor | internal/delivery/telegram/handler/wizards/add_reminder.go:42-51 | the wizard over the given sessions and use cases |
| AddReminderWizard.Wizard.GetSession | internal/delivery/telegram/handler/wizards/add_reminder.go:76-82 | the pair's current session, fresh when none is stored |
| AddReminderWizard.Wizard.Apply | internal/delivery/telegram/handler/wizards/add_reminder.go:84-87 | updateSession stores what an outcome saves and nothing else |
| AddReminderWizard.Wizard.HandleAddTypeCallback | internal/delivery/telegram/handler/wizards/add_reminder.go:89-132 | the chosen type is stored on the current session and the next question is asked |
| AddReminderWizard.Wizard.HandleAddWizardText | internal/delivery/telegram/handler/wizards/add_reminder.go:135-176 | the text with the mention removed drives one step: ignored or saved with the table untouched, or confirmed; confirmation deletes the session, replies ReminderCreated exactly when createReminderFromSession succeeds, and then the table has one new row holding the stamped draft, otherwise it is unchanged |
| AddReminderWizard.Wizard.HandleStepConfirm | internal/delivery/telegram/handler/wizards/add_reminder.go:339-352 | the session is deleted whatever the creation gives; the reply is ReminderCreated exactly when the user is found, the draft builds and validates and the INSERT works, and then one new row holds the stamped draft; otherwise ErrCreateReminder and the table is unchanged |
| AddReminderWizard.Wizard.CreateReminderFromSession | internal/delivery/telegram/handler/wizards/add_reminder.go:354-446 | a failed user lookup, an unparsable time or date, or a repository error stops it with no row added; otherwise exactly one new row holds the drafted reminder |
| AddReminderWizard.Wizard.HandleWeekdayCallback | internal/delivery/telegram/handler/wizards/add_reminder.go:470-505 | stores the session iff WeekdayCallback accepts |
| AddReminderWizard.Wizard.HandleMonthCallback | internal/delivery/telegram/handler/wizards/add_reminder.go:508-539 | stores the session iff MonthCallback accepts |
| LegacyAddWizard.LegacyAddReminderMessage | internal/delivery/telegram/handler/add_wizard.go:30-53 | the current prompts plus the multiday prompt |
| LegacyAddWizard.LegacyTypeStep | internal/delivery/telegram/handler/add_wizard.go:68-97 | week, month and year ask for the interval, ndays for the date, and everything else for the time |
| LegacyAddWizard.LegacyTypeChosen | internal/delivery/telegram/handler/add_wizard.go:68-97 | the type and step are set and every other field is kept |
| LegacyAddWizard.TypeStepsAgree | internal/delivery/telegram/handler/add_wizard.go:68-97 | the generations differ only for "date", which the older one sends to the time step |
| LegacyAddWizard.LegacyTimeStep | internal/delivery/telegram/handler/add_wizard.go:201-210 | a valid time is saved, and multiday saves any text as its list of times |
| LegacyAddWizard.LegacyDateStep | internal/delivery/telegram/handler/add_wizard.go:167-199 | the older date step serves only ndays, the same way as now |
| LegacyAddWizard.LegacyTextOutcome | internal/delivery/telegram/handler/add_wizard.go:235-261 | the input is only trimmed, then dispatched on the step; other steps ignore it |
| LegacyAddWizard.TextStepsAgree | internal/delivery/telegram/handler/add_wizard.go:235-261 | on the same step the generations decide alike, the newer one after removing the mention |
| LegacyAddWizard.LegacyClock | internal/delivery/telegram/handler/add_wizard.go:386 | an unparsable time is read as 00:00, the error being ignored |
| LegacyAddWizard.LegacyNDays | internal/delivery/telegram/handler/add_wizard.go:325-331 | today at t when that is not past; otherwise moved by time.Duration(interval)*24*time.Hour on int64, which is exactly interval days up to 106751 |
| LegacyAddWizard.DaysDurationExact | internal/delivery/telegram/handler/add_wizard.go:328 | for 0..106751 days the int64 duration does not wrap and moves by exactly interval·86400 seconds |
| LegacyAddWizard.LegacyNDaysNotPast | internal/delivery/telegram/handler/add_wizard.go:325-331 | for intervals 1..106751 the older ndays start lies in [now, now + interval days) and equals today's rule for interval 1 |
| LegacyAddWizard.LegacyNDaysWraps | internal/delivery/telegram/handler/add_wizard.go:328 | an interval of 106752, which IsInterval accepts, wraps the duration, so a past time moves about 292 years back instead of forward |
| LegacyAddWizard.EarliestAfter | internal/delivery/telegram/handler/add_wizard.go:333-348 | the least candidate after now, or none iff no candidate is after now |
| LegacyAddWizard.MultiDayNextAfterNow | internal/delivery/telegram/handler/add_wizard.go:333-348 | the multiday time is after now, at most a day after the first entry, and no later than any entry still to come today |
| LegacyAddWizard.MultiDayNext | internal/delivery/telegram/handler/add_wizard.go:333-348 | the result is one of the entries' times today, or the first entry's time tomorrow |
| LegacyAddWizard.NextTimeMultiDay | internal/delivery/telegram/handler/add_wizard.go:333-348 | the loop computes that earliest-else-tomorrow time for every now after the zero time |
| LegacyAddWizard.LegacyFirstTime | internal/delivery/telegram/handler/add_wizard.go:383-430 | ndays and multiday use the older rules; every other type gets the current first time |
| LegacyAddWizard.LegacyRepeatOfType | internal/delivery/telegram/handler/add_wizard.go:383-430 | multiday is stored as daily; every other type gets the current kind |
| LegacyAddWizard.LegacyDraft | internal/delivery/telegram/handler/add_wizard.go:351-364 | the older draft has no error path and carries the session's fields, unpaused, stamped now |
| LegacyAddWizard.LegacyNDaysStuck | internal/delivery/telegram/handler/handlers.go:110-119 | after choosing ndays the session waits at StepDate, which the older router never routes, while the newer one does |
| LegacyAddWizard.RoutedNDaysAdvances | internal/delivery/telegram/handler/add_wizard.go:167-199 | routed at StepDate, an ndays session advances, so the step itself works |
| ReminderCrud.ReminderNumber | internal/delivery/telegram/handler/commands/reminder_crud.go:47-53 | a number iff the trimmed argument is an int64 decimal greater than zero |
| ReminderCrud.ReminderNumberOfItoa | internal/delivery/telegram/handler/commands/reminder_crud.go:47-53 | every number the list prints reads back as itself |
| ReminderCrud.ReminderNumberPositive | internal/delivery/telegram/handler/commands/reminder_crud.go:47-53 | zero and negative numbers are refused |
| ReminderCrud.PageOf | internal/delivery/telegram/handler/commands/reminder_crud.go:89-97 | page 0 without a callback; otherwise a non-negative page read from the trimmed data |
| ReminderCrud.PageNumber | internal/delivery/telegram/handler/commands/reminder_crud.go:89-97 | the page read from a payload is never negative: a malformed or negative number reads as page 0 |
| ReminderCrud.LegacyPageOf | internal/delivery/telegram/handler/handlers.go:151-156 | the older page parse, on the untrimmed data |
| ReminderCrud.PageDataRoundTrip | internal/delivery/telegram/handler/commands/reminder_crud.go:139-146 | a button's "rem_page_N" is routed to the list and leads both parsers back to page N |
| ReminderCrud.PageParsersAgree | internal/delivery/telegram/handler/handlers.go:151-156 | both parsers agree on data without surrounding white space |
| ReminderCrud.PageWindow | internal/delivery/telegram/handler/commands/reminder_crud.go:99-102 | the window lies inside the list and holds 1..10 reminders when it starts inside it, none past the end |
| ReminderCrud.PageOfIndex | internal/delivery/telegram/handler/commands/reminder_crud.go:99-102 | every reminder i is shown on page i / 10 |
| ReminderCrud.PagesDisjoint | internal/delivery/telegram/handler/commands/reminder_crud.go:99-102 | pages do not overlap |
| ReminderCrud.WindowInRange | internal/delivery/telegram/handler/commands/reminder_crud.go:99-113 | every index a page reads is inside the list |
| ReminderCrud.Buttons | internal/delivery/telegram/handler/commands/reminder_crud.go:139-146 | back iff page > 0, to page - 1; next iff reminders follow the window, to page + 1 |
| ReminderCrud.NextPageContinues | internal/delivery/telegram/handler/commands/reminder_crud.go:139-146 | the next page starts where this one ends |
| ReminderCrud.BackPageAdjoins | internal/delivery/telegram/handler/commands/reminder_crud.go:139-146 | the previous page ends where this one starts |
| ReminderCrud.EndPagesHaveOneButton | internal/delivery/telegram/handler/commands/reminder_crud.go:139-146 | the first page has no back button and the last page no next button |
| GoStrconv.Wrap64 | internal/delivery/telegram/handler/commands/reminder_crud.go:99 | Go's int arithmetic wraps into int64 and leaves int64 values alone |
| ReminderCrud.GoPageWindowAgrees | internal/delivery/telegram/handler/commands/reminder_crud.go:99-102 | without overflow the window as written is PageWindow |
| ReminderCrud.GoPageWindow | internal/delivery/telegram/handler/commands/reminder_crud.go:99-102 | the window as written, on int64: its end is clamped to the count, its start is not |
| ReminderCrud.GoPageWindowOverflow | internal/delivery/telegram/handler/commands/reminder_crud.go:89-113 | page data the parser accepts makes the written window start below 0 and before its end, so the loop would index reminders[-…] |
| ReminderCrud.PageListing | internal/delivery/telegram/handler/commands/reminder_crud.go:112-135 | entry k is reminder start + k under number start + k + 1 |
| ReminderCrud.ListPage | internal/delivery/telegram/handler/commands/reminder_crud.go:112-135 | the loop lists exactly the window, numbered from start + 1 |
| ReminderCrud.LegacyStatus | internal/delivery/telegram/handler/handlers.go:164-167 | the older list marks every reminder |
| ReminderCrud.LegacyStatusDistinct | internal/delivery/telegram/handler/handlers.go:164-167 | the older marks tell paused from active, while FormatStatus marks only paused ones |
| ReminderCrud.LegacyFormatRepeat | internal/delivery/telegram/handler/handlers.go:125-140 | "-" exactly for yearly reminders |
| ReminderCrud.RepeatTextsAgree | internal/delivery/telegram/handler/handlers.go:125-140 | apart from yearly reminders and the day details, the older text equals FormatRepeat |
| ReminderCrud.ActionNamesDistinct | internal/delivery/telegram/handler/commands/reminder_crud.go:236-239 | the three actions have different keys into the message maps |
| ReminderCrud.Target | internal/delivery/telegram/handler/commands/reminder_crud.go:216-232 | a bad number, then a listing error, then a number past the list are refused in that order; otherwise reminder number n is the listing's n-th |
| ReminderCrud.ListedNumberAddresses | internal/delivery/telegram/handler/commands/reminder_crud.go:112-135 | the number a page shows, typed back, addresses the reminder shown under it |
| ReminderCrud.ParseEditArgs | internal/delivery/telegram/handler/commands/reminder_crud.go:167-195 | usage iff fewer than two words; a time is taken iff there are three or more words and the second is a time; the text is the remaining words |
| ReminderCrud.EditArgsRoundTrip | internal/delivery/telegram/handler/commands/reminder_crud.go:167-195 | "/edit n HH:MM words" reads back as that number, that time and those words |
| ReminderCrud.EditTarget | internal/delivery/telegram/handler/commands/reminder_crud.go:166-205 | the same error order; on success only the text changes, and with a time the next time moves less than a day forward to that clock |
| ReminderCrud.ListedAreStored | internal/delivery/telegram/handler/commands/reminder_crud.go:42-45 | every listed reminder is a stored row of a real chat with a positive id |
| ReminderCrud.Commands.constructor | internal/delivery/telegram/handler/commands/reminder_crud.go:29-35 | the commands over the given use cases |
| ReminderCrud.Commands.OnList | internal/delivery/telegram/handler/commands/reminder_crud.go:72-163 | a listing error or an empty list is reported; otherwise the page's window of the chat's listing, numbered, with its buttons, edited in place for a callback |
| ReminderCrud.Commands.HandleAction | internal/delivery/telegram/handler/commands/reminder_crud.go:216-240 | the addressed reminder is deleted, paused or resumed; refusals and failures leave the table unchanged, and success changes only that row |
| ReminderCrud.Commands.OnEdit | internal/delivery/telegram/handler/commands/reminder_crud.go:166-213 | the addressed reminder's row is replaced by the edited reminder iff EditReminder succeeds, and otherwise nothing changes; the new clock is read in the zone passed in (see Left out) |

## Left out

- SQL, the network and the Telegram API are not modelled. Each statement's failure is a boolean parameter, and so is each send's. The table is a map from id to row. Listings are in id order, which is the order SQLite scans the table without an ORDER BY.
- The IANA time-zone database is not modelled. A zone is a fixed UTC offset, so daylight-saving shifts are outside the model. `timezone.IsValidTimezone` is a parameter, and so is `time.LoadLocation`'s success.
- Mutexes, goroutines and the scheduler's one-minute ticker are not modelled. The operations run one at a time.
- Sub-second precision is not modelled: instants are whole seconds.
- Message texts and the Markdown rendering of the list are left out: EscapeMarkdown, FormatTime, the timezone line and the inline keyboards' layout. The model keeps which prompt or reply is sent and the entries and buttons of each page.
- Pointer aliasing is not modelled. Sessions and reminders are values. Every change a wizard makes to a session is followed by Set, so the aliasing cannot be seen.
- The chat and user use cases (GetOrCreateChat, SetTimezone, HasTimezone, the user lookup in createReminderFromSession) are parameters. Their repositories are not part of this model.
- HandleStart, help, menus, OnAdd and checkTimezone only send texts and keyboards, so they are left out.
- Scheduler.CalcNextTimeForward: requires Halts. The loop never ends for an every-N-days reminder with N <= 0 that is due. The precondition excludes that input rather than modelling a hang.
- TimeCalculator.GetNextTimeMonth: does not model the 64-bit overflow of time.Date's day arithmetic. Go's time.Date turns the day into seconds on 64-bit integers, which wraps for days beyond about 1.07·10^14 (2^63 / 86400); IsInterval accepts such days, and for them the contract's "after now", and the monthly clause of AddReminderWizard.FirstTimeMeans built on it, are not what Go computes.
- TimeCalculator.GetNextTimeNDays: does not model the same 64-bit overflow inside AddDate(0, 0, interval) for intervals beyond about 1.07·10^14 days; the contract's "interval days after the start" holds only below that bound in Go.
- Scheduler.CalcNextTimeForward: does not model that overflow either. AddDate(0, 0, RepeatEvery) wraps for steps beyond about 1.07·10^14 days, where Go's loop can end before now or not move forward.
- TimeCalculator.GetNextTimeDate: the definition at utils/time_calculator.go:75-84 takes no zone and builds the date in the server's zone, time.Now().Location(). Its only caller, wizards/add_reminder.go:403, passes the user's zone as a third argument. The model follows the caller and takes the zone as a parameter, so it does not capture the server-zone reading of the two-argument definition.
- LegacyAddWizard.LegacyNDaysNotPast: proved for intervals up to 106751 only. From 106752 on, time.Duration(interval)*24*time.Hour wraps on int64. LegacyNDays models that wrap, and LegacyNDaysWraps shows the result then lies about 292 years before now.
- ReminderCrud.EditTarget: the zone of the new clock is a parameter. In the program it is the stored instant's own location. Every writer stores next_time as UTC, and the SQLite connection is opened without a location, so rows read back in UTC. So `/edit n HH:MM` sets a UTC clock, while the list shows times in the chat's zone. The model does not tie the parameter to UTC.
- ReminderRepository.ReminderStore.ListDue: `next_time <= ?` is modelled as a comparison of instants. The program binds the server's local `time.Now()`, and SQLite compares the stored timestamps as text that carries its offset. The two agree only on a server running in UTC, which the model assumes.
- LegacyAddWizard.NextTimeMultiDay: proved for now after the zero time. Before it, the zero time used as "not found" is itself a candidate.
- TimeCalculator.GetNextTimeYear: requires at least two dot-separated parts, because Go indexes parts[1] and panics otherwise. The wizard only passes dates that IsDateDDMM accepted.
- The older wizard's session handlers (getSession, updateSession, HandleWeekdayCallback, HandleMonthCallback, parseWeekday) are the same code as the current wizard's. The older wizard is modelled by its outcome functions. It has no second class.
- The older `onList`, `onEdit` and `handleReminderAction` of `handler/handlers.go` share the current commands' logic. Where they differ, the model has LegacyPageOf, LegacyStatus and LegacyFormatRepeat.
- OnEdit's second IsTime check is unreachable, since the time was only taken when IsTime held. The model has no branch for it.

## Findings

| source | as written | input that shows it | evidently intended | confidence | as-written member | corrected member |
|---|---|---|---|---|---|---|
| internal/delivery/telegram/handler/handlers.go:110-119 | the older text router sends StepTime, StepText and StepInterval to the wizard, but not StepDate, which the older type callback sets for "ndays" (add_wizard.go:85-91) | choose "ndays", then type "01.06.2025" | StepDate is routed to the wizard, as handler.go:136-137 does | high, not executed | LegacyAddWizard.LegacyNDaysStuck | LegacyAddWizard.RoutedNDaysAdvances (with Router.RouteText) |
| internal/delivery/telegram/handler/commands/reminder_crud.go:89-102 | page*10 and (page+1)*10 are computed on int64 after any page Atoi accepts; the same code is in handlers.go:151-160 | callback data "rem_page_922337203685477581" with at least one reminder | the window is clamped to the list, so an out-of-range page lists nothing | medium, not executed; the bot's own buttons never send such data | ReminderCrud.GoPageWindowOverflow | ReminderCrud.WindowInRange (PageWindow, used by ReminderCrud.Commands.OnList) |
| internal/repository/reminder_repository.go:18-20 | createReminderQuery inserts every column but user_id, which migrate.go:14 declares NOT NULL with no default | any reminder added on a database the migration created | user_id is inserted with the reminder's UserID | medium, not executed; a database created by an older schema would not have the constraint | ReminderRepository.InsertOmitsUserId (ReminderStore.Create then always takes its dbFails path) | ReminderRepository.InsertWithUserAccepted (ReminderStore.Create succeeds whenever dbFails is false) |
