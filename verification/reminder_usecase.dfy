/**
 * internal/usecase/reminder_usecase.go: the reminder use cases over the
 * repository. Most delegate; pause and resume read the stored reminder, flip
 * its Paused flag and write it back.
 */
module ReminderUsecase {
  import opened Wrappers
  import opened GoTime
  import opened Domain
  import opened ReminderRepository

  /** The table after pausing or resuming row id at clock: that row's flag and UpdatedAt change, nothing else. */
  function WithPaused(rows: map<int, Row>, id: int, paused: bool, clock: Instant): (r: map<int, Row>)
    requires id in rows
    ensures r.Keys == rows.Keys
    ensures r[id].paused == paused && r[id].updatedAt == clock
    ensures forall k :: k in rows && k != id ==> r[k] == rows[k]
  {
    rows[id := rows[id].(paused := paused, updatedAt := clock)]
  }

  /** Pausing twice is pausing once (at the later time). */
  lemma PauseIdempotent(rows: map<int, Row>, id: int, t1: Instant, t2: Instant)
    requires id in rows
    ensures WithPaused(WithPaused(rows, id, true, t1), id, true, t2) == WithPaused(rows, id, true, t2)
  {
  }

  /** Pausing then resuming leaves the row unpaused and every other column as it was. */
  lemma PauseThenResume(rows: map<int, Row>, id: int, t1: Instant, t2: Instant)
    requires id in rows
    ensures var r := WithPaused(WithPaused(rows, id, true, t1), id, false, t2);
      !r[id].paused && r[id] == rows[id].(paused := false, updatedAt := t2)
  {
  }

  /** reminderUsecase: the use cases over one repository. */
  class Usecase {
    const repo: ReminderStore

    constructor (repo: ReminderStore)
      ensures this.repo == repo
    {
      this.repo := repo;
    }

    /** AddReminder: Create. */
    method AddReminder(rem: Option<Reminder>, clock: Instant, dbFails: bool) returns (r: Result<Reminder, RepoError>)
      requires repo.Valid()
      modifies repo
      ensures repo.Valid()
      ensures r.Ok? <==> Validate(rem).None? && !dbFails
      ensures r.Err? ==> repo.rows == old(repo.rows)
      ensures r.Ok? ==> r.value.id !in old(repo.rows) && repo.rows == old(repo.rows)[r.value.id := RowOf(r.value)]
      ensures r.Ok? ==> r.value == Stamped(rem.value, clock).(id := r.value.id)
    {
      r := repo.Create(rem, clock, dbFails);
    }

    /** EditReminder: Update. */
    method EditReminder(rem: Option<Reminder>, clock: Instant, dbFails: bool) returns (err: Option<RepoError>)
      requires repo.Valid()
      modifies repo
      ensures repo.Valid()
      ensures err.None? <==> Validate(rem).None? && rem.value.id in old(repo.rows) && !dbFails
      ensures err.Some? ==> repo.rows == old(repo.rows)
      ensures err.None? ==> repo.rows == old(repo.rows)[rem.value.id := RowOf(rem.value.(updatedAt := clock))]
    {
      err := repo.Update(rem, clock, dbFails);
    }

    /** DeleteReminder: Delete. */
    method DeleteReminder(id: int, dbFails: bool) returns (err: Option<RepoError>)
      requires repo.Valid()
      modifies repo
      ensures repo.Valid()
      ensures err.None? <==> id in old(repo.rows) && !dbFails
      ensures err.Some? ==> repo.rows == old(repo.rows)
      ensures err.None? ==> repo.rows == map k | k in old(repo.rows) && k != id :: old(repo.rows)[k]
    {
      err := repo.Delete(id, dbFails);
    }

    /**
     * PauseReminder: GetByID, then Update with Paused set. A failed read is
     * returned as it is and nothing is written.
     */
    method PauseReminder(id: int, clock: Instant, readFails: bool, writeFails: bool) returns (err: Option<RepoError>)
      requires repo.Valid()
      modifies repo
      ensures repo.Valid()
      ensures old(repo.GetByID(id, readFails)).Err? ==> err == Some(old(repo.GetByID(id, readFails)).error)
      ensures err.Some? ==> repo.rows == old(repo.rows)
      ensures err.None? <==> old(repo.GetByID(id, readFails)).Ok? && !writeFails
      ensures err.None? ==> id in old(repo.rows) && repo.rows == WithPaused(old(repo.rows), id, true, clock)
    {
      err := SetPaused(id, true, clock, readFails, writeFails);
    }

    /** ResumeReminder: GetByID, then Update with Paused cleared. */
    method ResumeReminder(id: int, clock: Instant, readFails: bool, writeFails: bool) returns (err: Option<RepoError>)
      requires repo.Valid()
      modifies repo
      ensures repo.Valid()
      ensures old(repo.GetByID(id, readFails)).Err? ==> err == Some(old(repo.GetByID(id, readFails)).error)
      ensures err.Some? ==> repo.rows == old(repo.rows)
      ensures err.None? <==> old(repo.GetByID(id, readFails)).Ok? && !writeFails
      ensures err.None? ==> id in old(repo.rows) && repo.rows == WithPaused(old(repo.rows), id, false, clock)
    {
      err := SetPaused(id, false, clock, readFails, writeFails);
    }

    /** The read-modify-write shared by pause and resume. */
    method SetPaused(id: int, paused: bool, clock: Instant, readFails: bool, writeFails: bool)
      returns (err: Option<RepoError>)
      requires repo.Valid()
      modifies repo
      ensures repo.Valid()
      ensures old(repo.GetByID(id, readFails)).Err? ==> err == Some(old(repo.GetByID(id, readFails)).error)
      ensures err.Some? ==> repo.rows == old(repo.rows)
      ensures err.None? <==> old(repo.GetByID(id, readFails)).Ok? && !writeFails
      ensures err.None? ==> id in old(repo.rows) && repo.rows == WithPaused(old(repo.rows), id, paused, clock)
    {
      var got := repo.GetByID(id, readFails);
      if got.Err? {
        return Some(got.error);
      }
      var rem := got.value.(paused := paused);
      WriteBack(id, repo.rows[id], paused, clock);
      err := repo.Update(Some(rem), clock, writeFails);
    }

    /** ListReminders: ListByChat. */
    function ListReminders(chatId: int, dbFails: bool): (r: Result<seq<Reminder>, RepoError>)
      reads repo
      ensures r == repo.ListByChat(chatId, dbFails)
    {
      repo.ListByChat(chatId, dbFails)
    }

    /** ListDue: the repository's ListDue. */
    function ListDue(now: Instant, clock: Instant, dbFails: bool): (r: Result<seq<Reminder>, RepoError>)
      reads repo
      ensures r == repo.ListDue(now, clock, dbFails)
    {
      repo.ListDue(now, clock, dbFails)
    }
  }
}
