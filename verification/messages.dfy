/**
 * What the Telegram handlers say back, named after the constants of the texts
 * packages, and the bot-mention handling their text input shares.
 */
module Messages {
  import opened GoStrings

  /** The messages the wizards send. */
  datatype Prompt =
    | PromptToday
    | PromptTomorrow
    | PromptEveryDay
    | PromptWeek
    | PromptNDays
    | PromptMonth
    | PromptYear
    | PromptDate
    | PromptMultiDay
    | PromptUnknown
    | ValidateEnterTime
    | ValidateEnterText
    | ValidateEnterInterval
    | ValidateEnterDate
    | ValidateEnterMonth
    | ValidateEnterWeekday
    | ValidateEnterDateDDMM
    | EnterDateAndTime
    | ErrCreateReminder
    | ReminderCreated
    | ErrUnknownDay
    | ErrUnknownMonth
    | SetTimezonePrompt
    | UnknownTimezone
    | ErrSetTimezone
    | TimezoneSet(tz: string, withMenu: bool)
    | HelpMainMenu

  /** A handler either sends one message or returns without sending anything. */
  datatype Reply = Say(prompt: Prompt) | Quiet

  /** "@" + the bot's user name. */
  function Mention(botName: string): (m: string)
    ensures |m| > 0 && m[0] == '@'
  {
    "@" + botName
  }

  /** strings.ReplaceAll(s, "@"+botName, "") followed by strings.TrimSpace. */
  function StripMention(s: string, botName: string): (r: string)
    ensures Trimmed(r) && |r| <= |s|
  {
    TrimSpaceShape(RemoveAll(s, Mention(botName)));
    TrimSpace(RemoveAll(s, Mention(botName)))
  }

  /**
   * A reply in a group ends with the mention; it is cut off with the space
   * before it, so "15:30 @reminder_bot" reads as "15:30".
   */
  lemma StripTrailingMention(a: string, botName: string)
    requires Trimmed(a) && '@' !in a
    ensures StripMention(a + " " + Mention(botName), botName) == a
  {
    var m := Mention(botName);
    assert '@' !in a + " ";
    RemoveAllSuffix(a + " ", m);
    assert a + " " + m == (a + " ") + m;
    assert AllSpace(" ");
    assert [] + a + " " == a + " ";
    TrimSpaceOf([], a, " ");
  }

  /** Text without any '@' passes through the mention removal only trimmed. */
  lemma StripNoMention(s: string, botName: string)
    requires '@' !in s
    ensures StripMention(s, botName) == TrimSpace(s)
  {
    RemoveAllAbsent(s, Mention(botName));
  }
}
