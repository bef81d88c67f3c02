/**
 * internal/repository/reminder_repository.go over an in-memory reminders
 * table: rows keyed by their AUTOINCREMENT id, the guard checks each query
 * makes before touching the table, and the "no row affected means not found"
 * rule. A failing database call is an input (dbFails) of each operation.
 */
module ReminderRepository {
  import opened Wrappers
  import opened GoStrconv
  import opened GoTime
  import opened Domain
  import opened RepeatDaysCodec

  /** ErrInvalidReminder, ErrReminderNotFound and ErrDatabaseError. */
  datatype RepoError = InvalidReminder | ReminderNotFound | DatabaseError

  /**
   * A row of the reminders table as the INSERT and UPDATE queries write it:
   * no user id column, and the repeat days as their stored text.
   */
  datatype Row = Row(
    chatId: int,
    text: string,
    nextTime: Instant,
    repeat: RepeatType,
    repeatDays: string,
    repeatEvery: int,
    paused: bool,
    createdAt: Instant,
    updatedAt: Instant)

  /** The columns the reminders table declares NOT NULL with no default. */
  const RequiredColumns: set<string> := {"chat_id", "user_id", "text", "next_time", "repeat", "created_at", "updated_at"}

  /** The columns createReminderQuery inserts. */
  const InsertColumns: seq<string> :=
    ["chat_id", "text", "next_time", "repeat", "repeat_days", "repeat_every", "paused", "created_at", "updated_at"]

  /** The same query with the user id added. */
  const InsertColumnsWithUser: seq<string> := InsertColumns + ["user_id"]

  /** The required columns an INSERT naming `cols` leaves unset. */
  function MissingColumns(cols: seq<string>): (m: set<string>)
    ensures forall c :: c in m <==> c in RequiredColumns && c !in cols
  {
    set c | c in RequiredColumns && c !in cols
  }

  /** SQLite refuses an INSERT that leaves a NOT NULL column without a default unset. */
  predicate InsertAccepted(cols: seq<string>)
  {
    MissingColumns(cols) == {}
  }

  /**
   * On a table the schema creates, createReminderQuery leaves user_id unset,
   * so every INSERT fails the NOT NULL constraint: Create always takes its
   * dbFails path and adds no row.
   */
  lemma InsertOmitsUserId()
    ensures MissingColumns(InsertColumns) == {"user_id"}
    ensures !InsertAccepted(InsertColumns)
  {
    assert "user_id" in MissingColumns(InsertColumns);
  }

  /** With user_id inserted as well, no required column is left unset. */
  lemma InsertWithUserAccepted()
    ensures InsertAccepted(InsertColumnsWithUser)
  {
    forall c | c in RequiredColumns
      ensures c in InsertColumnsWithUser
    {
      assert c in InsertColumns || c == InsertColumnsWithUser[9];
    }
  }

  /** validateReminder: nil, an empty text and chat id 0 are invalid; the user id is not looked at. */
  function Validate(rem: Option<Reminder>): (err: Option<RepoError>)
    ensures err.None? <==> rem.Some? && rem.value.text != "" && rem.value.chatId != 0
    ensures err.Some? ==> err == Some(InvalidReminder)
  {
    if rem.None? then Some(InvalidReminder)
    else if rem.value.text == "" then Some(InvalidReminder)
    else if rem.value.chatId == 0 then Some(InvalidReminder)
    else None
  }

  /** The verdict of validateReminder does not depend on the user id. */
  lemma ValidateIgnoresUser(rem: Reminder, userId: int)
    ensures Validate(Some(rem.(userId := userId))) == Validate(Some(rem))
  {
  }

  /** The columns Create and Update write for a reminder. */
  function RowOf(rem: Reminder): Row
  {
    Row(rem.chatId, rem.text, rem.nextTime, rem.repeat, Serialized(rem.repeatDays),
      rem.repeatEvery, rem.paused, rem.createdAt, rem.updatedAt)
  }

  /** scanReminder: the reminder read back from a row; the user id is not stored and reads as 0. */
  function ReminderOf(id: int, row: Row): Reminder
  {
    Reminder(id, row.chatId, 0, row.text, row.nextTime, row.repeat, Deserialized(row.repeatDays),
      row.repeatEvery, row.paused, row.createdAt, row.updatedAt)
  }

  /** Stored repeat-days text that reads back and writes back unchanged. */
  predicate Canonical(days: string)
  {
    Serialized(Deserialized(days)) == days
  }

  /** Writing a reminder and reading it back under id gives it back with that id and user id 0. */
  lemma ReadBack(id: int, rem: Reminder)
    ensures ReminderOf(id, RowOf(rem)) == rem.(id := id, userId := 0)
    ensures Canonical(RowOf(rem).repeatDays)
  {
    RepeatDaysRoundTrip(rem.repeatDays);
  }

  /** Reading a row, changing some fields and writing it back changes those columns only. */
  lemma WriteBack(id: int, row: Row, paused: bool, updatedAt: Instant)
    requires Canonical(row.repeatDays)
    ensures RowOf(ReminderOf(id, row).(paused := paused, updatedAt := updatedAt))
      == row.(paused := paused, updatedAt := updatedAt)
  {
  }

  /** The WHERE clause of a listing query. */
  datatype Query = ByChat(chatId: int) | DueAt(now: Instant)

  /** Whether a row satisfies the WHERE clause: chat_id = ?, or next_time <= ? AND paused = 0. */
  predicate Selects(q: Query, row: Row)
  {
    match q
    case ByChat(c) => row.chatId == c
    case DueAt(now) => row.nextTime <= now && !row.paused
  }

  /** A table scan: the ids lo..hi, in order, of the stored rows the query selects. */
  function ScanIds(rows: map<int, Row>, q: Query, lo: int, hi: int): seq<int>
    decreases hi - lo
  {
    if lo > hi then []
    else if lo in rows && Selects(q, rows[lo]) then [lo] + ScanIds(rows, q, lo + 1, hi)
    else ScanIds(rows, q, lo + 1, hi)
  }

  /** A scan yields exactly the stored ids of its range whose rows the query selects. */
  lemma {:induction false} ScanIdsExact(rows: map<int, Row>, q: Query, lo: int, hi: int)
    ensures forall id :: id in ScanIds(rows, q, lo, hi) <==> lo <= id <= hi && id in rows && Selects(q, rows[id])
    decreases hi - lo
  {
    if lo <= hi {
      ScanIdsExact(rows, q, lo + 1, hi);
    }
  }

  /** A scan yields its ids in increasing order, so each at most once. */
  lemma {:induction false} ScanIdsAscending(rows: map<int, Row>, q: Query, lo: int, hi: int)
    ensures forall i, j :: 0 <= i < j < |ScanIds(rows, q, lo, hi)| ==> ScanIds(rows, q, lo, hi)[i] < ScanIds(rows, q, lo, hi)[j]
    decreases hi - lo
  {
    if lo <= hi {
      ScanIdsAscending(rows, q, lo + 1, hi);
      ScanIdsExact(rows, q, lo + 1, hi);
      var rest := ScanIds(rows, q, lo + 1, hi);
      if lo in rows && Selects(q, rows[lo]) {
        assert forall k :: 0 <= k < |rest| ==> rest[k] in rest;
      }
    }
  }

  /** scanReminders: each scanned row read back, in scan order. */
  function ReadRows(rows: map<int, Row>, ids: seq<int>): seq<Reminder>
    requires forall id :: id in ids ==> id in rows
  {
    seq(|ids|, i requires 0 <= i < |ids| => ReminderOf(ids[i], rows[ids[i]]))
  }

  /** The ids of a list of reminders, in order. */
  function IdsOf(r: seq<Reminder>): seq<int>
  {
    seq(|r|, i requires 0 <= i < |r| => r[i].id)
  }

  /** Reading rows back keeps their ids: each reminder carries the id it was read under. */
  lemma ReadRowsIds(rows: map<int, Row>, ids: seq<int>)
    requires forall id :: id in ids ==> id in rows
    ensures IdsOf(ReadRows(rows, ids)) == ids
    ensures forall i :: 0 <= i < |ids| ==> ReadRows(rows, ids)[i] == ReminderOf(ids[i], rows[ids[i]])
  {
  }

  /** ListDue's instant: a zero now stands for the current time. */
  function DueInstant(now: Instant, clock: Instant): Instant
  {
    if now == ZeroTime then clock else now
  }

  /** Create's timestamps: a zero CreatedAt or UpdatedAt becomes the current time. */
  function Stamped(rem: Reminder, clock: Instant): Reminder
  {
    rem.(createdAt := if rem.createdAt == ZeroTime then clock else rem.createdAt,
         updatedAt := if rem.updatedAt == ZeroTime then clock else rem.updatedAt)
  }

  /** A table state: ids are positive and at most the last one handed out; every row passed validation. */
  ghost predicate Table(rows: map<int, Row>, lastId: int)
  {
    0 <= lastId
    && forall id :: id in rows ==>
         0 < id <= lastId && rows[id].text != "" && rows[id].chatId != 0 && Canonical(rows[id].repeatDays)
  }

  /** Inserting a validated row under the next id keeps the table well formed and overwrites nothing. */
  lemma TableInsert(rows: map<int, Row>, lastId: int, row: Row)
    requires Table(rows, lastId)
    requires row.text != "" && row.chatId != 0 && Canonical(row.repeatDays)
    ensures lastId + 1 > 0 && lastId + 1 !in rows
    ensures Table(rows[lastId + 1 := row], lastId + 1)
  {
  }

  /** The reminders table behind reminderRepository. */
  class ReminderStore {
    /** The rows, by id. */
    var rows: map<int, Row>
    /** The largest id ever handed out: AUTOINCREMENT never reuses an id. */
    var lastId: int

    /** Ids are positive and handed out in order; every stored row passed validation. */
    ghost predicate Valid()
      reads this
    {
      Table(rows, lastId)
    }

    /** An empty table. */
    constructor ()
      ensures Valid() && rows == map[] && lastId == 0
    {
      rows := map[];
      lastId := 0;
    }

    /**
     * Create: validation, then the missing timestamps, then the INSERT; the
     * new id is the next AUTOINCREMENT value and is returned in the reminder.
     */
    method Create(rem: Option<Reminder>, clock: Instant, dbFails: bool) returns (r: Result<Reminder, RepoError>)
      requires Valid()
      modifies this
      ensures Valid()
      ensures Validate(rem).Some? ==> r == Err(InvalidReminder)
      ensures Validate(rem).None? && dbFails ==> r == Err(DatabaseError)
      ensures r.Err? ==> rows == old(rows) && lastId == old(lastId)
      ensures r.Ok? <==> Validate(rem).None? && !dbFails
      ensures r.Ok? ==>
        var id := old(lastId) + 1;
        id > 0 && id !in old(rows) && lastId == id
        && r.value == Stamped(rem.value, clock).(id := id)
        && rows == old(rows)[id := RowOf(r.value)]
    {
      var err := Validate(rem);
      if err.Some? {
        return Err(err.value);
      }
      var stamped := Stamped(rem.value, clock);
      if dbFails {
        return Err(DatabaseError);
      }
      var created := stamped.(id := lastId + 1);
      ReadBack(lastId + 1, created);
      TableInsert(rows, lastId, RowOf(created));
      lastId := lastId + 1;
      rows := rows[lastId := RowOf(created)];
      r := Ok(created);
    }

    /**
     * Update: validation, then the id guard, then the UPDATE stamped with the
     * current time; no row with that id means not found.
     */
    method Update(rem: Option<Reminder>, clock: Instant, dbFails: bool) returns (err: Option<RepoError>)
      requires Valid()
      modifies this
      ensures Valid() && lastId == old(lastId)
      ensures Validate(rem).Some? ==> err == Some(InvalidReminder)
      ensures Validate(rem).None? && rem.value.id <= 0 ==> err == Some(InvalidReminder)
      ensures Validate(rem).None? && rem.value.id > 0 && dbFails ==> err == Some(DatabaseError)
      ensures Validate(rem).None? && rem.value.id > 0 && !dbFails && rem.value.id !in old(rows) ==>
        err == Some(ReminderNotFound)
      ensures err.Some? ==> rows == old(rows)
      ensures err.None? <==> Validate(rem).None? && rem.value.id in old(rows) && !dbFails
      ensures err.None? ==> rows == old(rows)[rem.value.id := RowOf(rem.value.(updatedAt := clock))]
    {
      err := Validate(rem);
      if err.Some? {
        return;
      }
      var id := rem.value.id;
      if id <= 0 {
        return Some(InvalidReminder);
      }
      if dbFails {
        return Some(DatabaseError);
      }
      if id !in rows {
        return Some(ReminderNotFound);
      }
      var stamped := rem.value.(updatedAt := clock);
      ReadBack(id, stamped);
      rows := rows[id := RowOf(stamped)];
    }

    /** Delete: the id guard, then the DELETE; no row with that id means not found. */
    method Delete(id: int, dbFails: bool) returns (err: Option<RepoError>)
      requires Valid()
      modifies this
      ensures Valid() && lastId == old(lastId)
      ensures id <= 0 ==> err == Some(InvalidReminder)
      ensures id > 0 && dbFails ==> err == Some(DatabaseError)
      ensures id > 0 && !dbFails && id !in old(rows) ==> err == Some(ReminderNotFound)
      ensures err.Some? ==> rows == old(rows)
      ensures err.None? <==> id in old(rows) && !dbFails
      ensures err.None? ==> rows == map k | k in old(rows) && k != id :: old(rows)[k]
    {
      if id <= 0 {
        return Some(InvalidReminder);
      }
      if dbFails {
        return Some(DatabaseError);
      }
      if id !in rows {
        return Some(ReminderNotFound);
      }
      rows := map k | k in rows && k != id :: rows[k];
      err := None;
    }

    /** GetByID: the id guard, then the row read back; no row means not found. */
    function GetByID(id: int, dbFails: bool): (r: Result<Reminder, RepoError>)
      reads this
      ensures id <= 0 ==> r == Err(InvalidReminder)
      ensures id > 0 && dbFails ==> r == Err(DatabaseError)
      ensures id > 0 && !dbFails && id !in rows ==> r == Err(ReminderNotFound)
      ensures r.Ok? <==> id > 0 && !dbFails && id in rows
      ensures r.Ok? ==> r.value.id == id && r.value == ReminderOf(id, rows[id])
    {
      if id <= 0 then Err(InvalidReminder)
      else if dbFails then Err(DatabaseError)
      else if id !in rows then Err(ReminderNotFound)
      else Ok(ReminderOf(id, rows[id]))
    }

    /** ListByChat: chat id 0 is refused; otherwise the chat's reminders in id order. */
    function ListByChat(chatId: int, dbFails: bool): (r: Result<seq<Reminder>, RepoError>)
      reads this
      ensures chatId == 0 ==> r == Err(InvalidReminder)
      ensures chatId != 0 && dbFails ==> r == Err(DatabaseError)
      ensures r.Ok? <==> chatId != 0 && !dbFails
      ensures r.Ok? ==> IdsOf(r.value) == ScanIds(rows, ByChat(chatId), 1, lastId)
    {
      if chatId == 0 then Err(InvalidReminder)
      else if dbFails then Err(DatabaseError)
      else
        var ids := ScanIds(rows, ByChat(chatId), 1, lastId);
        ScanIdsExact(rows, ByChat(chatId), 1, lastId);
        ReadRowsIds(rows, ids);
        Ok(ReadRows(rows, ids))
    }

    /** ListDue: the unpaused reminders due at now (the current time when now is zero), in id order. */
    function ListDue(now: Instant, clock: Instant, dbFails: bool): (r: Result<seq<Reminder>, RepoError>)
      reads this
      ensures r.Ok? <==> !dbFails
      ensures r.Ok? ==> IdsOf(r.value) == ScanIds(rows, DueAt(DueInstant(now, clock)), 1, lastId)
    {
      if dbFails then Err(DatabaseError)
      else
        var ids := ScanIds(rows, DueAt(DueInstant(now, clock)), 1, lastId);
        ScanIdsExact(rows, DueAt(DueInstant(now, clock)), 1, lastId);
        ReadRowsIds(rows, ids);
        Ok(ReadRows(rows, ids))
    }

    /**
     * What ListDue returns, stated on the table: the stored rows that are
     * unpaused with next_time at or before the due instant, each once, in id
     * order, each read back under its own id.
     */
    lemma ListDueExact(now: Instant, clock: Instant)
      requires Valid()
      ensures var at := DueInstant(now, clock); var ids := IdsOf(ListDue(now, clock, false).value);
        (forall id :: id in ids <==> id in rows && !rows[id].paused && rows[id].nextTime <= at)
        && (forall i, j :: 0 <= i < j < |ids| ==> ids[i] < ids[j])
      ensures var r := ListDue(now, clock, false).value;
        forall i :: 0 <= i < |r| ==> r[i].id in rows && r[i] == ReminderOf(r[i].id, rows[r[i].id])
    {
      var q := DueAt(DueInstant(now, clock));
      var ids := ScanIds(rows, q, 1, lastId);
      ScanIdsExact(rows, q, 1, lastId);
      ScanIdsAscending(rows, q, 1, lastId);
      ReadRowsIds(rows, ids);
    }

    /** ListByChat returns the chat's stored rows, each once, in id order, each read back under its own id. */
    lemma ListByChatExact(chatId: int)
      requires Valid() && chatId != 0
      ensures var ids := IdsOf(ListByChat(chatId, false).value);
        (forall id :: id in ids <==> id in rows && rows[id].chatId == chatId)
        && (forall i, j :: 0 <= i < j < |ids| ==> ids[i] < ids[j])
      ensures var r := ListByChat(chatId, false).value;
        forall i :: 0 <= i < |r| ==> r[i].id in rows && r[i] == ReminderOf(r[i].id, rows[r[i].id])
    {
      var q := ByChat(chatId);
      var ids := ScanIds(rows, q, 1, lastId);
      ScanIdsExact(rows, q, 1, lastId);
      ScanIdsAscending(rows, q, 1, lastId);
      ReadRowsIds(rows, ids);
    }
  }
}
