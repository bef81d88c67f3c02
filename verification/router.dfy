/**
 * The routing decisions of handler/handler.go (onText, onCallback) and of the
 * older handler/handlers.go and structs.go: which handler a text message or a
 * button press goes to, given the chat, the message and the sender's session.
 */
module Router {
  import opened Wrappers
  import opened GoStrings
  import opened Session
  import opened Messages
  import AddReminderWizard

  /** Where a text message goes. */
  datatype TextRoute = Ignored | ToTimezone | ToAddWizard

  /** The steps at which the add-reminder wizard waits for typed text. */
  predicate AwaitsText(step: Step)
  {
    step == StepTime || step == StepText || step == StepInterval || step == StepDate
  }

  /** In a group the bot reads only replies to it and messages that mention it; in a private chat everything. */
  predicate Addressed(chatType: string, isReply: bool, text: string, botName: string)
  {
    chatType == "private" || isReply || Contains(text, Mention(botName))
  }

  /** onText: the timezone wizard for a StepTimezone session, the add wizard for a step that waits for text. */
  function RouteText(chatType: string, isReply: bool, text: string, botName: string,
                     sess: Option<AddReminderSession>): (r: TextRoute)
    ensures !Addressed(chatType, isReply, text, botName) ==> r == Ignored
    ensures r == ToTimezone <==>
      Addressed(chatType, isReply, text, botName) && sess.Some? && sess.value.step == StepTimezone
    ensures r == ToAddWizard <==>
      Addressed(chatType, isReply, text, botName) && sess.Some? && AwaitsText(sess.value.step)
  {
    if chatType != "private" && !isReply && !Contains(text, Mention(botName)) then Ignored
    else if sess.Some? && sess.value.step == StepTimezone then ToTimezone
    else if sess.Some? && AwaitsText(sess.value.step) then ToAddWizard
    else Ignored
  }

  /** Where a button press goes. */
  datatype CallbackRoute = ToList | ToWeekday | ToMonth | Dropped

  /** onCallback: list pages and weekday buttons; everything else, month buttons included, is dropped. */
  function RouteCallback(data: string): (r: CallbackRoute)
    ensures r == ToList <==> HasPrefix(TrimSpace(data), "rem_page_")
    ensures r == ToWeekday <==> !HasPrefix(TrimSpace(data), "rem_page_") && HasPrefix(TrimSpace(data), "weekday_")
    ensures r != ToMonth
  {
    var d := TrimSpace(data);
    if HasPrefix(d, "rem_page_") then ToList
    else if HasPrefix(d, "weekday_") then ToWeekday
    else Dropped
  }

  /** The older OnCallback handler of structs.go also sends month buttons to HandleMonthCallback. */
  function LegacyRouteCallback(data: string): (r: CallbackRoute)
    ensures r == ToMonth <==> !HasPrefix(TrimSpace(data), "rem_page_") && !HasPrefix(TrimSpace(data), "weekday_")
                              && HasPrefix(TrimSpace(data), "month_")
    ensures r != ToMonth ==> r == RouteCallback(data)
  {
    var d := TrimSpace(data);
    if HasPrefix(d, "rem_page_") then ToList
    else if HasPrefix(d, "weekday_") then ToWeekday
    else if HasPrefix(d, "month_") then ToMonth
    else Dropped
  }

  /**
   * The older onText, as written: no group filter, and only StepTime,
   * StepText and StepInterval reach the add wizard.
   */
  function LegacyRouteText(sess: Option<AddReminderSession>): (r: TextRoute)
    ensures r == ToTimezone <==> sess.Some? && sess.value.step == StepTimezone
    ensures r == ToAddWizard <==>
      sess.Some? && (sess.value.step == StepTime || sess.value.step == StepText || sess.value.step == StepInterval)
  {
    if sess.Some? && sess.value.step == StepTimezone then ToTimezone
    else if sess.Some? && (sess.value.step == StepTime || sess.value.step == StepText || sess.value.step == StepInterval)
    then ToAddWizard
    else Ignored
  }

  /**
   * Every session the type buttons leave behind waits for text: the current
   * router sends the next message of a private chat to the add wizard,
   * whatever the type.
   */
  lemma TypeChoiceIsRouted(s: AddReminderSession, typ: string, text: string, botName: string)
    ensures RouteText("private", false, text, botName, Some(AddReminderWizard.TypeChosen(s, typ))) == ToAddWizard
  {
  }

  /**
   * Every session a text step stores waits for text again, so the current
   * router keeps feeding the wizard until the session is confirmed and
   * deleted.
   */
  lemma SavedStepIsRouted(s: AddReminderSession, input: string, text: string, botName: string)
    requires AddReminderWizard.TextOutcome(s, input).Save?
    ensures RouteText("private", false, text, botName,
                      Some(AddReminderWizard.TextOutcome(s, input).sess)) == ToAddWizard
  {
    match s.step {
      case StepTime =>
      case StepInterval =>
      case StepText =>
      case StepDate =>
      case _ =>
    }
  }

  /**
   * For a message the bot is addressed by, the current router agrees with
   * the older one everywhere except at StepDate.
   */
  lemma RoutersAgree(chatType: string, isReply: bool, text: string, botName: string, sess: Option<AddReminderSession>)
    requires Addressed(chatType, isReply, text, botName)
    requires sess.Some? ==> sess.value.step != StepDate
    ensures RouteText(chatType, isReply, text, botName, sess) == LegacyRouteText(sess)
  {
  }
}
