/**
 * The timezone wizard of handler/wizards/timezone.go and its older form in
 * handler/timezone_wizard.go: /timezone opens a StepTimezone session, and the
 * next text names an IANA zone that is checked, stored for the chat, and
 * closes the session.
 */
module TimezoneWizard {
  import opened Wrappers
  import opened GoStrings
  import opened Session
  import opened Messages

  /** The line withGroupHint appends outside private chats, asking for the mention. */
  function GroupHint(botName: string): (h: string)
    ensures |h| > |Mention(botName)| && h[|h| - |Mention(botName)|..] == Mention(botName)
  {
    "\n\nЧтобы бот увидел ваш ответ, добавьте в конце " + Mention(botName)
  }

  /** A message as sent: the prompt and the hint appended to it ("" for none). */
  datatype Shown = Shown(prompt: Prompt, hint: string)

  /** withGroupHint: the hint is added in every chat that is not private, except to PromptUnknown. */
  function WithGroupHint(chatType: string, msg: Prompt, botName: string): (r: Shown)
    ensures r.prompt == msg
    ensures r.hint != "" <==> chatType != "private" && msg != PromptUnknown
    ensures r.hint != "" ==> r.hint == GroupHint(botName)
  {
    if chatType != "private" && msg != PromptUnknown then Shown(msg, GroupHint(botName)) else Shown(msg, "")
  }

  /** The zone name HandleTimezoneText reads: trimmed, every mention of the bot removed, trimmed again. */
  function ZoneInput(input: string, botName: string): (tz: string)
    ensures Trimmed(tz) && |tz| <= |input|
  {
    StripMention(TrimSpace(input), botName)
  }

  /** Trimming keeps only characters of the input. */
  lemma TrimSpaceKeepsOut(s: string, c: char)
    requires c !in s
    ensures c !in TrimSpace(s)
  {
    var l := TrimLeftSpace(s);
    var r := TrimSpace(s);
    TrimLeftSpaceShape(s);
    TrimRightSpaceShape(l);
    assert r == l[..|r|];
    assert l == s[|s| - |l|..];
    forall k | 0 <= k < |r|
      ensures r[k] != c
    {
      assert r[k] == l[k] == s[|s| - |l| + k];
    }
  }

  /** Without any '@' the newer wizard reads exactly the older wizard's zone, the trimmed text. */
  lemma ZoneInputNoMention(input: string, botName: string)
    requires '@' !in input
    ensures ZoneInput(input, botName) == LegacyZoneInput(input)
  {
    TrimSpaceKeepsOut(input, '@');
    StripNoMention(TrimSpace(input), botName);
    TrimSpaceTwice(input);
  }

  /** A group reply "Europe/Moscow @bot" names the zone "Europe/Moscow". */
  lemma ZoneInputMention(a: string, botName: string)
    requires |a| > 0 && Trimmed(a) && '@' !in a && NoSpace(botName)
    ensures ZoneInput(a + " " + Mention(botName), botName) == a
  {
    var s := a + " " + Mention(botName);
    assert Trimmed(s) by {
      assert s[0] == a[0];
      if |botName| > 0 {
        assert s[|s| - 1] == botName[|botName| - 1];
      } else {
        assert s[|s| - 1] == '@';
      }
    }
    TrimSpaceClean(s);
    StripTrailingMention(a, botName);
  }

  /** What HandleTimezoneText does once the zone is read. */
  datatype TimezoneOutcome = TimezoneOutcome(reply: Prompt, setCalled: bool, deleteSession: bool)

  /**
   * HandleTimezoneText's decisions: an invalid zone is refused before
   * SetTimezone; a failed SetTimezone keeps the session; success deletes it and
   * shows the main menu only when the chat had no zone before (an error of
   * HasTimezone, None here, counts as none).
   */
  function TimezoneStep(tz: string, valid: bool, hadTimezone: Option<bool>, setFails: bool): (o: TimezoneOutcome)
    ensures o.setCalled <==> valid
    ensures o.deleteSession <==> valid && !setFails
    ensures !valid ==> o.reply == UnknownTimezone
    ensures valid && setFails ==> o.reply == ErrSetTimezone
    ensures o.deleteSession ==>
      o.reply.TimezoneSet? && o.reply.tz == tz && (o.reply.withMenu <==> hadTimezone != Some(true))
  {
    if !valid then TimezoneOutcome(UnknownTimezone, false, false)
    else
      var had := match hadTimezone case Some(b) => b case None => false;
      if setFails then TimezoneOutcome(ErrSetTimezone, true, false)
      else TimezoneOutcome(TimezoneSet(tz, !had), true, true)
  }

  /** The older HandleTimezoneText reads the trimmed text only. */
  function LegacyZoneInput(input: string): (tz: string)
    ensures Trimmed(tz)
  {
    TrimSpaceShape(input);
    TrimSpace(input)
  }

  /** The older HandleTimezoneText: the same checks, and the main menu after every success. */
  function LegacyTimezoneStep(tz: string, valid: bool, setFails: bool): (o: TimezoneOutcome)
    ensures o.setCalled <==> valid
    ensures o.deleteSession <==> valid && !setFails
    ensures !valid ==> o.reply == UnknownTimezone
    ensures valid && setFails ==> o.reply == ErrSetTimezone
    ensures o.deleteSession ==> o.reply == HelpMainMenu
  {
    if !valid then TimezoneOutcome(UnknownTimezone, false, false)
    else if setFails then TimezoneOutcome(ErrSetTimezone, true, false)
    else TimezoneOutcome(HelpMainMenu, true, true)
  }

  /** Both generations take the same decisions on the same zone; only the success message differs. */
  lemma TimezoneGenerationsAgree(tz: string, valid: bool, hadTimezone: Option<bool>, setFails: bool)
    ensures TimezoneStep(tz, valid, hadTimezone, setFails).setCalled == LegacyTimezoneStep(tz, valid, setFails).setCalled
    ensures TimezoneStep(tz, valid, hadTimezone, setFails).deleteSession
            == LegacyTimezoneStep(tz, valid, setFails).deleteSession
    ensures !(valid && !setFails) ==>
      TimezoneStep(tz, valid, hadTimezone, setFails).reply == LegacyTimezoneStep(tz, valid, setFails).reply
  {
  }

  /** The timezone wizard over the shared session manager; zone validity and storage are parameters. */
  class Wizard {
    const sessions: Manager

    constructor (sessions: Manager)
      ensures this.sessions == sessions
    {
      this.sessions := sessions;
    }

    /** OnTimezone: whatever the pair's session held, it is replaced by a fresh StepTimezone session. */
    method OnTimezone(chatId: int, userId: int, chatType: string, botName: string) returns (shown: Shown)
      requires sessions.Valid()
      modifies sessions
      ensures sessions.Valid()
      ensures sessions.sessions == Stored(old(sessions.sessions), Fresh(chatId, userId, StepTimezone))
      ensures sessions.Get(chatId, userId) == Some(Fresh(chatId, userId, StepTimezone))
      ensures shown == WithGroupHint(chatType, SetTimezonePrompt, botName)
    {
      sessions.Set(Fresh(chatId, userId, StepTimezone));
      shown := WithGroupHint(chatType, SetTimezonePrompt, botName);
    }

    /**
     * HandleTimezoneText: isValid stands for pkg/timezone.IsValidTimezone;
     * hadTimezone is what HasTimezone answered (None for an error) and
     * setFails whether SetTimezone failed. Returns the reply and the zone
     * passed to SetTimezone, if it was called.
     */
    method HandleTimezoneText(chatId: int, userId: int, input: string, botName: string,
                              isValid: string -> bool, hadTimezone: Option<bool>, setFails: bool)
      returns (reply: Prompt, written: Option<string>)
      requires sessions.Valid()
      modifies sessions
      ensures sessions.Valid()
      ensures var tz := ZoneInput(input, botName); var o := TimezoneStep(tz, isValid(tz), hadTimezone, setFails);
        reply == o.reply && (written.Some? <==> o.setCalled) && (written.Some? ==> written.value == tz)
        && sessions.sessions == if o.deleteSession then Removed(old(sessions.sessions), chatId, userId)
                                else old(sessions.sessions)
    {
      var tz := ZoneInput(input, botName);
      var o := TimezoneStep(tz, isValid(tz), hadTimezone, setFails);
      written := if o.setCalled then Some(tz) else None;
      if o.deleteSession {
        sessions.Delete(chatId, userId);
      }
      reply := o.reply;
    }

    /** The older HandleTimezoneText (handler/timezone_wizard.go). */
    method LegacyHandleTimezoneText(chatId: int, userId: int, input: string, isValid: string -> bool, setFails: bool)
      returns (reply: Prompt, written: Option<string>)
      requires sessions.Valid()
      modifies sessions
      ensures sessions.Valid()
      ensures var tz := LegacyZoneInput(input); var o := LegacyTimezoneStep(tz, isValid(tz), setFails);
        reply == o.reply && (written.Some? <==> o.setCalled) && (written.Some? ==> written.value == tz)
        && sessions.sessions == if o.deleteSession then Removed(old(sessions.sessions), chatId, userId)
                                else old(sessions.sessions)
    {
      var tz := LegacyZoneInput(input);
      var o := LegacyTimezoneStep(tz, isValid(tz), setFails);
      written := if o.setCalled then Some(tz) else None;
      if o.deleteSession {
        sessions.Delete(chatId, userId);
      }
      reply := o.reply;
    }
  }
}
