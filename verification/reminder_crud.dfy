/**
 * The reminder commands of handler/commands/reminder_crud.go: /list with its
 * pages of ten, /edit, and /delete, /pause and /resume, which all address a
 * reminder by its number in the chat's list. The older handler/handlers.go
 * runs the same number parsing, window, buttons, /edit and action code; its
 * own page parser, status mark and repeat text are the Legacy members below.
 */
module ReminderCrud {
  import opened Wrappers
  import opened GoStrconv
  import opened GoStrings
  import opened GoTime
  import opened GoTimeParse
  import opened Validator
  import opened Domain
  import opened Formatters
  import opened ReminderRepository
  import opened ReminderUsecase
  import Router

  /** remindersPerPage */
  const RemindersPerPage: int := 10

  /** The callback data of the page buttons is this prefix and the page number. */
  const PagePrefix: string := "rem_page_"

  // ---------------------------------------------------------------------------
  // Reminder numbers

  /** getReminderNumber: the trimmed argument as a decimal int64 greater than zero. */
  function ReminderNumber(arg: string): (r: Option<int>)
    ensures r.Some? ==> r.value > 0 && Atoi(TrimSpace(arg)).ok && Atoi(TrimSpace(arg)).value == r.value
    ensures r.None? ==> !Atoi(TrimSpace(arg)).ok || Atoi(TrimSpace(arg)).value <= 0
  {
    var n := Atoi(TrimSpace(arg));
    if !n.ok || n.value <= 0 then None else Some(n.value)
  }

  /** Every number the list prints is read back as itself. */
  lemma ReminderNumberOfItoa(n: int)
    requires 0 < n <= MaxInt64
    ensures ReminderNumber(Itoa(n)) == Some(n)
  {
    ItoaNoSpace(n);
    TrimSpaceClean(Itoa(n));
    AtoiItoa(n);
  }

  /** Zero and negative numbers are refused although Atoi reads them. */
  lemma ReminderNumberPositive(n: int)
    requires MinInt64 <= n <= 0
    ensures ReminderNumber(Itoa(n)) == None
  {
    ItoaNoSpace(n);
    TrimSpaceClean(Itoa(n));
    AtoiItoa(n);
  }

  // ---------------------------------------------------------------------------
  // Pages

  /** The number OnList reads from a callback payload that starts with the page prefix. */
  function PageNumber(data: string): (page: int)
    ensures page >= 0
  {
    if HasPrefix(data, PagePrefix) then
      var p := Atoi(TrimPrefix(data, PagePrefix));
      if p.ok && p.value >= 0 then p.value else 0
    else 0
  }

  /**
   * The page OnList shows: page 0 for the /list command, otherwise the
   * number of a trimmed "rem_page_<n>" payload with n >= 0, and 0 for any
   * other payload.
   */
  function PageOf(callback: Option<string>): (page: int)
    ensures page >= 0
    ensures callback.None? ==> page == 0
  {
    if callback.None? then 0 else PageNumber(TrimSpace(callback.value))
  }

  /** The older onList reads the payload without trimming it. */
  function LegacyPageOf(callback: Option<string>): (page: int)
    ensures page >= 0
    ensures callback.None? ==> page == 0
  {
    if callback.None? then 0 else PageNumber(callback.value)
  }

  /** The payload of the button that leads to a page. */
  function PageData(page: int): (data: string)
    ensures HasPrefix(data, PagePrefix)
  {
    PagePrefix + Itoa(page)
  }

  /** A page button's payload is routed to the list and leads both list handlers back to its page. */
  lemma PageDataRoundTrip(page: int)
    requires 0 <= page <= MaxInt64
    ensures PageOf(Some(PageData(page))) == page
    ensures LegacyPageOf(Some(PageData(page))) == page
    ensures Router.RouteCallback(PageData(page)) == Router.ToList
  {
    var data := PageData(page);
    AtoiItoa(page);
    ItoaNoSpace(page);
    assert data[0] == 'r';
    assert data[|data| - 1] == Itoa(page)[|Itoa(page)| - 1];
    TrimSpaceClean(data);
  }

  /** On a payload without surrounding white space the two page parsers agree. */
  lemma PageParsersAgree(data: string)
    requires Trimmed(data)
    ensures PageOf(Some(data)) == LegacyPageOf(Some(data))
  {
    TrimSpaceClean(data);
  }

  /** The indices [start, end) of the reminders one page lists. */
  datatype Window = Window(start: int, end: int)

  /**
   * The window of a page, computed without overflow: start = page * 10 and
   * end = min((page + 1) * 10, count). A page past the list is empty.
   */
  function PageWindow(page: nat, count: nat): (w: Window)
    ensures 0 <= w.start && w.end <= count
    ensures w.start < count ==> w.start < w.end <= w.start + RemindersPerPage
    ensures w.start >= count ==> w.end == count
  {
    var start := page * RemindersPerPage;
    var end := (page + 1) * RemindersPerPage;
    Window(start, if end > count then count else end)
  }

  /** Every reminder is listed on page i / 10. */
  lemma PageOfIndex(i: int, count: nat)
    requires 0 <= i < count
    ensures var w := PageWindow(i / RemindersPerPage, count); w.start <= i < w.end
  {
  }

  /** Pages do not overlap: a later page starts where an earlier one ends or further on. */
  lemma PagesDisjoint(p: nat, q: nat, count: nat)
    requires p < q
    ensures PageWindow(p, count).end <= PageWindow(q, count).start
  {
    assert (p + 1) * RemindersPerPage <= q * RemindersPerPage;
  }

  /** Every index a page lists lies inside the list. */
  lemma WindowInRange(page: nat, count: nat, i: int)
    requires PageWindow(page, count).start <= i < PageWindow(page, count).end
    ensures 0 <= i < count
  {
  }

  /** The navigation buttons under a page: the pages they lead to. */
  datatype Nav = Nav(back: Option<int>, next: Option<int>)

  /** A back button iff the window does not start at 0; a next button iff reminders follow the window. */
  function Buttons(page: nat, count: nat): (n: Nav)
    ensures n.back.Some? <==> page > 0
    ensures n.back.Some? ==> n.back.value == page - 1
    ensures n.next.Some? <==> (page + 1) * RemindersPerPage < count
    ensures n.next.Some? ==> n.next.value == page + 1
  {
    var w := PageWindow(page, count);
    Nav(if w.start > 0 then Some(page - 1) else None, if w.end < count then Some(page + 1) else None)
  }

  /** The next button leads to the page that continues the list where this one ends. */
  lemma NextPageContinues(page: nat, count: nat)
    requires Buttons(page, count).next.Some?
    ensures PageWindow(page + 1, count).start == PageWindow(page, count).end < count
  {
  }

  /** The back button leads to the page that ends where this one starts. */
  lemma BackPageAdjoins(page: nat, count: nat)
    requires Buttons(page, count).back.Some? && PageWindow(page, count).start < count
    ensures PageWindow(page - 1, count).end == PageWindow(page, count).start
  {
  }

  /** The first page has no back button and the page holding the last reminder has no next button. */
  lemma EndPagesHaveOneButton(count: nat)
    requires count > 0
    ensures Buttons(0, count).back.None?
    ensures Buttons((count - 1) / RemindersPerPage, count).next.None?
  {
  }

  // ---------------------------------------------------------------------------
  // The page window as Go computes it, on 64-bit ints

  /** OnList's start and end as written, with page*remindersPerPage and (page+1)*remindersPerPage on int64. */
  function GoPageWindow(page: int, count: nat): (w: Window)
    ensures w.end <= count
  {
    var start := Wrap64(page * RemindersPerPage);
    var end := Wrap64(Wrap64(page + 1) * RemindersPerPage);
    Window(start, if end > count then count else end)
  }

  /** The largest page whose window Go computes without overflow. */
  const MaxSafePage: int := (MaxInt64 - RemindersPerPage) / RemindersPerPage

  /** Below the overflow the window as written is the window above. */
  lemma GoPageWindowAgrees(page: nat, count: nat)
    requires page <= MaxSafePage
    ensures GoPageWindow(page, count) == PageWindow(page, count)
  {
  }

  /**
   * A forged payload "rem_page_<n>" with n from 922337203685477581 on passes
   * the p >= 0 check, but page*10 wraps to a negative start, so the loop's
   * first read reminders[start] is out of range for every list.
   */
  lemma GoPageWindowOverflow(page: int, count: nat)
    requires 922337203685477581 <= page <= 1844674407370955160
    ensures PageOf(Some(PageData(page))) == page
    ensures GoPageWindow(page, count).start < 0
    ensures GoPageWindow(page, count).start < GoPageWindow(page, count).end
  {
    PageDataRoundTrip(page);
    WrapOnce(page * RemindersPerPage);
    WrapOnce((page + 1) * RemindersPerPage);
  }

  // ---------------------------------------------------------------------------
  // Listing

  /** One reminder as a page lists it: its number in the list and the reminder. */
  datatype Listed = Listed(number: int, reminder: Reminder)

  /** The entries of a window: reminder start + k under number start + k + 1. */
  function PageListing(reminders: seq<Reminder>, w: Window): (r: seq<Listed>)
    requires 0 <= w.start && w.end <= |reminders|
    ensures |r| == if w.start < w.end then w.end - w.start else 0
    ensures forall k :: 0 <= k < |r| ==> r[k] == Listed(w.start + k + 1, reminders[w.start + k])
  {
    if w.start >= w.end then []
    else seq(w.end - w.start, k requires 0 <= k < w.end - w.start => Listed(w.start + k + 1, reminders[w.start + k]))
  }

  /** The loop of OnList over i in [start, end), each reminder i under number i + 1. */
  method ListPage(reminders: seq<Reminder>, w: Window) returns (listed: seq<Listed>)
    requires 0 <= w.start && w.end <= |reminders|
    ensures listed == PageListing(reminders, w)
  {
    listed := [];
    var i := w.start;
    while i < w.end
      invariant i == w.start || w.start < i <= w.end
      invariant |listed| == i - w.start
      invariant forall k :: 0 <= k < |listed| ==> listed[k] == Listed(w.start + k + 1, reminders[w.start + k])
    {
      listed := listed + [Listed(i + 1, reminders[i])];
      i := i + 1;
    }
  }

  /** What /list and the page buttons answer. */
  datatype ListReply = ListFailed | NoReminders | Page(listed: seq<Listed>, nav: Nav, edit: bool)

  /** The older list marks every reminder: a pause sign or a tick. */
  function LegacyStatus(paused: bool): (s: string)
    ensures s != ""
  {
    if paused then "⏸️" else "✅"
  }

  /** Unlike FormatStatus, the older mark tells paused from active reminders by two different signs. */
  lemma LegacyStatusDistinct()
    ensures LegacyStatus(true) != LegacyStatus(false) && FormatStatus(false) == ""
  {
    assert LegacyStatus(true)[0] != LegacyStatus(false)[0];
  }

  /** The older formatRepeat: no case for yearly reminders, which print "-", and no repeat-day details. */
  function LegacyFormatRepeat(r: Reminder): (s: string)
    ensures s == "-" <==> r.repeat == RepeatEveryYear
  {
    match r.repeat
    case RepeatNone => RepeatOnce
    case RepeatEveryDay => RepeatDaily
    case RepeatEveryWeek => RepeatWeekly
    case RepeatEveryMonth => RepeatMonthly
    case RepeatEveryNDays => "каждые " + Itoa(r.repeatEvery) + " дней"
    case RepeatEveryYear => "-"
  }

  /** The two repeat texts agree except for yearly reminders and the details of weekly and monthly ones. */
  lemma RepeatTextsAgree(r: Reminder)
    requires r.repeat != RepeatEveryYear
    requires r.repeat == RepeatEveryWeek || r.repeat == RepeatEveryMonth ==> r.repeatDays == []
    ensures LegacyFormatRepeat(r) == FormatRepeat(r)
  {
  }

  // ---------------------------------------------------------------------------
  // Addressing a reminder by number

  /** The replies of the number-addressed commands. */
  datatype Action = Delete | Pause | Resume

  datatype CrudReply =
    | Usage
    | BadNumber
    | ListError
    | NoSuchReminder
    | ActionFailed(action: Action)
    | ActionDone(action: Action)
    | EditFailed
    | Edited

  /** The key handleReminderAction formats into its error message and looks its texts up by. */
  function ActionName(a: Action): (s: string)
    ensures |s| >= 5
  {
    match a
    case Delete => "delete"
    case Pause => "pause"
    case Resume => "resume"
  }

  /** The three actions have different keys, so each finds its own emoji and text. */
  lemma ActionNamesDistinct(a: Action, b: Action)
    requires ActionName(a) == ActionName(b)
    ensures a == b
  {
    assert ActionName(a)[0] == ActionName(b)[0];
  }

  /**
   * The reminder a number argument addresses: the number is parsed first,
   * then the list is read, and a number past the end is refused; number n
   * is the reminder at index n - 1.
   */
  function Target(arg: string, list: Result<seq<Reminder>, RepoError>): (r: Result<Reminder, CrudReply>)
    ensures ReminderNumber(arg).None? ==> r == Err(BadNumber)
    ensures ReminderNumber(arg).Some? && list.Err? ==> r == Err(ListError)
    ensures r.Ok? <==> ReminderNumber(arg).Some? && list.Ok? && ReminderNumber(arg).value <= |list.value|
    ensures r.Ok? ==> r.value == list.value[ReminderNumber(arg).value - 1]
    ensures r.Err? ==> r.error == BadNumber || r.error == ListError || r.error == NoSuchReminder
  {
    match ReminderNumber(arg)
    case None => Err(BadNumber)
    case Some(num) =>
      if list.Err? then Err(ListError)
      else if num > |list.value| then Err(NoSuchReminder)
      else Ok(list.value[num - 1])
  }

  /** The number a page lists next to a reminder, typed back as the argument, addresses that reminder. */
  lemma ListedNumberAddresses(reminders: seq<Reminder>, w: Window, k: int)
    requires 0 <= w.start && w.end <= |reminders|
    requires 0 <= k < |PageListing(reminders, w)|
    requires |reminders| <= MaxInt64
    ensures var e := PageListing(reminders, w)[k];
      Target(Itoa(e.number), Ok(reminders)) == Ok(e.reminder)
  {
    ReminderNumberOfItoa(w.start + k + 1);
  }

  // ---------------------------------------------------------------------------
  // /edit

  /** The pieces of an /edit payload: the number, a new time ("" for none) and the new text. */
  datatype EditArgs = EditArgs(number: string, time: string, text: string)

  /**
   * OnEdit's argument split: the fields of the trimmed payload; fewer than
   * two is a usage error; with three or more and a valid time second, that
   * time and the rest as text, otherwise everything after the number as text.
   */
  function ParseEditArgs(payload: string): (r: Option<EditArgs>)
    ensures r.None? <==> |Fields(TrimSpace(payload))| < 2
    ensures r.Some? ==> var args := Fields(TrimSpace(payload));
      r.value.number == args[0]
      && (r.value.time != "" <==> |args| >= 3 && IsTime(args[1]))
      && (r.value.time != "" ==> r.value.time == args[1] && Fields(r.value.text) == args[2..])
      && (r.value.time == "" ==> Fields(r.value.text) == args[1..])
      && r.value.text != ""
  {
    var args := Fields(TrimSpace(payload));
    if |args| < 2 then None
    else if |args| >= 3 && IsTime(args[1]) then
      FieldsJoin(args[2..]);
      Some(EditArgs(args[0], args[1], Join(args[2..], ' ')))
    else
      FieldsJoin(args[1..]);
      Some(EditArgs(args[0], "", Join(args[1..], ' ')))
  }

  /** The payload "<n> <HH:MM> <words>" is read back as that number, that time and the words. */
  lemma EditArgsRoundTrip(n: int, c: Clock, words: seq<string>)
    requires 0 < n <= MaxInt64
    requires |words| > 0 && forall i :: 0 <= i < |words| ==> |words[i]| > 0 && NoSpace(words[i])
    ensures ParseEditArgs(Join([Itoa(n), ClockText(c)] + words, ' '))
            == Some(EditArgs(Itoa(n), ClockText(c), Join(words, ' ')))
  {
    var parts := [Itoa(n), ClockText(c)] + words;
    EditPayloadFields(n, c, words);
    ClockTextIsTime(c);
    assert parts[2..] == words;
  }

  /** The fields of such a payload are its parts. */
  lemma EditPayloadFields(n: int, c: Clock, words: seq<string>)
    requires |words| > 0 && forall i :: 0 <= i < |words| ==> |words[i]| > 0 && NoSpace(words[i])
    ensures var parts := [Itoa(n), ClockText(c)] + words; Fields(TrimSpace(Join(parts, ' '))) == parts
  {
    var parts := [Itoa(n), ClockText(c)] + words;
    ItoaNoSpace(n);
    assert NoSpace(ClockText(c)) by {
      var s := ClockText(c);
      forall k | 0 <= k < 5
        ensures !IsSpace(s[k])
      {
        assert IsDigit(s[k]) || s[k] == ':';
      }
    }
    assert forall i :: 0 <= i < |parts| ==> |parts[i]| > 0 && NoSpace(parts[i]) by {
      forall i | 0 <= i < |parts|
        ensures |parts[i]| > 0 && NoSpace(parts[i])
      {
        if i >= 2 {
          assert parts[i] == words[i - 2];
        }
      }
    }
    JoinEnds(parts, ' ');
    assert parts[|parts| - 1] == words[|words| - 1];
    TrimSpaceClean(Join(parts, ' '));
    FieldsJoin(parts);
  }

  /**
   * OnEdit's change to the addressed reminder, before it is stored: the text
   * is replaced, and a given time moves NextTime to the first instant at or
   * after it with that clock (in the zone z of the stored instant).
   */
  function EditTarget(payload: string, list: Result<seq<Reminder>, RepoError>, z: Zone): (r: Result<Reminder, CrudReply>)
    ensures ParseEditArgs(payload).None? ==> r == Err(Usage)
    ensures ParseEditArgs(payload).Some? ==> var t := Target(ParseEditArgs(payload).value.number, list);
      (t.Err? ==> r == Err(t.error))
      && (t.Ok? ==> r.Ok? && r.value.text == ParseEditArgs(payload).value.text
                    && r.value.(text := t.value.text, nextTime := t.value.nextTime) == t.value)
    ensures r.Ok? ==> var a := ParseEditArgs(payload).value; var before := Target(a.number, list).value;
      (a.time == "" ==> r.value.nextTime == before.nextTime)
      && (a.time != "" ==>
            var c := ParseClock(a.time).value;
            before.nextTime <= r.value.nextTime < before.nextTime + 86400
            && HourOf(r.value.nextTime, z) == c.hour && MinuteOf(r.value.nextTime, z) == c.minute)
  {
    match ParseEditArgs(payload)
    case None => Err(Usage)
    case Some(a) =>
      match Target(a.number, list)
      case Err(e) => Err(e)
      case Ok(rem) =>
        var timed := if a.time != "" then
                       assert IsTime(a.time);
                       rem.(nextTime := NextTimeFromString(a.time, rem.nextTime, z))
                     else rem;
        Ok(if a.text != "" then timed.(text := a.text) else timed)
  }

  // ---------------------------------------------------------------------------
  // The handlers over the use cases

  /** Every reminder a successful listing returns is stored under its id, with a chat. */
  lemma ListedAreStored(store: ReminderStore, chatId: int, listFails: bool)
    requires store.Valid() && store.ListByChat(chatId, listFails).Ok?
    ensures var r := store.ListByChat(chatId, listFails).value;
      forall i :: 0 <= i < |r| ==> r[i].id in store.rows && r[i].chatId != 0 && r[i].id > 0
  {
    store.ListByChatExact(chatId);
  }

  /** The table after a successful action on reminder id. */
  function AfterAction(a: Action, rows: map<int, Row>, id: int, clock: Instant): map<int, Row>
    requires id in rows
  {
    match a
    case Delete => map k | k in rows && k != id :: rows[k]
    case Pause => WithPaused(rows, id, true, clock)
    case Resume => WithPaused(rows, id, false, clock)
  }

  /** ReminderCRUD: the commands over the reminder use cases. */
  class Commands {
    const usecase: Usecase

    constructor (usecase: Usecase)
      ensures this.usecase == usecase
    {
      this.usecase := usecase;
    }

    /**
     * OnList: the chat's reminders (listFails stands for a failed query), the
     * page the callback asks for, its entries and its buttons; a button press
     * edits the shown message.
     */
    method OnList(chatId: int, listFails: bool, callback: Option<string>) returns (reply: ListReply)
      ensures var list := usecase.ListReminders(chatId, listFails);
        (list.Err? ==> reply == ListFailed)
        && (list.Ok? && list.value == [] ==> reply == NoReminders)
        && (list.Ok? && list.value != [] ==>
              var w := PageWindow(PageOf(callback), |list.value|);
              reply == Page(PageListing(list.value, w), Buttons(PageOf(callback), |list.value|), callback.Some?))
    {
      var list := usecase.ListReminders(chatId, listFails);
      if list.Err? {
        return ListFailed;
      }
      if list.value == [] {
        return NoReminders;
      }
      var page := PageOf(callback);
      var w := PageWindow(page, |list.value|);
      var listed := ListPage(list.value, w);
      reply := Page(listed, Buttons(page, |list.value|), callback.Some?);
    }

    /**
     * handleReminderAction: the number is read from the trimmed payload, the
     * addressed reminder is deleted, paused or resumed. A listed number always
     * addresses a stored reminder, so the action fails only on a database
     * error (readFails for the read of pause and resume, writeFails for the
     * write).
     */
    method HandleAction(chatId: int, payload: string, action: Action, listFails: bool, clock: Instant,
                        readFails: bool, writeFails: bool) returns (reply: CrudReply)
      requires usecase.repo.Valid()
      modifies usecase.repo
      ensures usecase.repo.Valid()
      ensures var t := Target(TrimSpace(payload), old(usecase.ListReminders(chatId, listFails)));
        (t.Err? ==> reply == t.error && usecase.repo.rows == old(usecase.repo.rows))
        && (t.Ok? ==>
              t.value.id in old(usecase.repo.rows)
              && (reply == ActionDone(action) <==> !writeFails && (action == Delete || !readFails))
              && (reply != ActionDone(action) ==> reply == ActionFailed(action) && usecase.repo.rows == old(usecase.repo.rows))
              && (reply == ActionDone(action) ==>
                    usecase.repo.rows == AfterAction(action, old(usecase.repo.rows), t.value.id, clock)))
    {
      var arg := TrimSpace(payload);
      var list := usecase.ListReminders(chatId, listFails);
      var t := Target(arg, list);
      if t.Err? {
        return t.error;
      }
      ListedAreStored(usecase.repo, chatId, listFails);
      var id := t.value.id;
      var err: Option<RepoError>;
      match action {
        case Delete =>
          err := usecase.DeleteReminder(id, writeFails);
        case Pause =>
          err := usecase.PauseReminder(id, clock, readFails, writeFails);
        case Resume =>
          err := usecase.ResumeReminder(id, clock, readFails, writeFails);
      }
      reply := if err.Some? then ActionFailed(action) else ActionDone(action);
    }

    /**
     * OnEdit: the addressed reminder with its new text (and time) is written
     * back; it is always valid and stored, so only a database error
     * (writeFails) makes the update fail.
     */
    method OnEdit(chatId: int, payload: string, z: Zone, listFails: bool, clock: Instant, writeFails: bool)
      returns (reply: CrudReply)
      requires usecase.repo.Valid()
      modifies usecase.repo
      ensures usecase.repo.Valid()
      ensures var e := EditTarget(payload, old(usecase.ListReminders(chatId, listFails)), z);
        (e.Err? ==> reply == e.error && usecase.repo.rows == old(usecase.repo.rows))
        && (e.Ok? ==>
              e.value.id in old(usecase.repo.rows)
              && (reply == Edited <==> !writeFails)
              && (reply != Edited ==> reply == EditFailed && usecase.repo.rows == old(usecase.repo.rows))
              && (reply == Edited ==>
                    usecase.repo.rows == old(usecase.repo.rows)[e.value.id := RowOf(e.value.(updatedAt := clock))]))
    {
      var list := usecase.ListReminders(chatId, listFails);
      var e := EditTarget(payload, list, z);
      if e.Err? {
        return e.error;
      }
      ListedAreStored(usecase.repo, chatId, listFails);
      var err := usecase.EditReminder(Some(e.value), clock, writeFails);
      reply := if err.Some? then EditFailed else Edited;
    }
  }
}
