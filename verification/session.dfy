/**
 * The per-(chat, user) wizard sessions of internal/delivery/telegram/session/session.go
 * (and its identical older copy handler/session.go): one session value per
 * "chatID:userID" key in a map that Set overwrites and Delete removes from.
 */
module Session {
  import opened Wrappers
  import opened GoStrconv

  /** AddReminderStep; Go numbers the steps 0..7 with iota, in this order. */
  datatype Step =
    | StepNone
    | StepType
    | StepTime
    | StepText
    | StepInterval
    | StepDate
    | StepConfirm
    | StepTimezone

  /** AddReminderSession: who is talking, the wizard step and what has been entered so far. */
  datatype AddReminderSession = AddReminderSession(
    userId: int,
    chatId: int,
    step: Step,
    kind: string,
    time: string,
    date: string,
    interval: Int64,
    text: string)

  /** The session a missing key stands for once created: only the ids and the step are set. */
  function Fresh(chatId: int, userId: int, step: Step): (s: AddReminderSession)
    ensures s.chatId == chatId && s.userId == userId && s.step == step
    ensures s.kind == "" && s.time == "" && s.date == "" && s.interval == 0 && s.text == ""
  {
    AddReminderSession(userId, chatId, step, "", "", "", 0, "")
  }

  /** sessionKey: fmt.Sprintf("%d:%d", chatID, userID). */
  function SessionKey(chatId: int, userId: int): (k: string)
    ensures ':' in k
    ensures |k| > |Itoa(chatId)| && k[|Itoa(chatId)|] == ':' && ':' !in k[..|Itoa(chatId)|]
  {
    ItoaNoColon(chatId);
    Itoa(chatId) + ":" + Itoa(userId)
  }

  /** A decimal never contains ':', so the first ':' of a key ends the chat id. */
  lemma ItoaNoColon(n: int)
    ensures ':' !in Itoa(n)
  {
    var s := Itoa(n);
    assert forall k :: 0 <= k < |s| ==> s[k] != ':';
  }

  /** The position of the first ':' in s, or |s| when there is none. */
  function ColonIndex(s: string): (i: nat)
    ensures i <= |s|
  {
    if |s| == 0 || s[0] == ':' then 0 else 1 + ColonIndex(s[1..])
  }

  /** In a + ":" + rest with no ':' in a, the first ':' is the one after a. */
  lemma {:induction false} ColonAfter(a: string, rest: string)
    requires ':' !in a
    ensures ColonIndex(a + ":" + rest) == |a|
  {
    if |a| > 0 {
      assert (a + ":" + rest)[1..] == a[1..] + ":" + rest;
      ColonAfter(a[1..], rest);
    }
  }

  /** Different (chat, user) pairs, negative group chat ids included, never share a key. */
  lemma SessionKeyInjective(c1: int, u1: int, c2: int, u2: int)
    requires SessionKey(c1, u1) == SessionKey(c2, u2)
    ensures c1 == c2 && u1 == u2
  {
    var a1, a2 := Itoa(c1), Itoa(c2);
    var k := SessionKey(c1, u1);
    ItoaNoColon(c1);
    ItoaNoColon(c2);
    ColonAfter(a1, Itoa(u1));
    ColonAfter(a2, Itoa(u2));
    assert a1 == k[..|a1|] == a2;
    assert Itoa(u1) == k[|a1| + 1..] == Itoa(u2);
    ItoaInjective(c1, c2);
    ItoaInjective(u1, u2);
  }

  type Sessions = map<string, AddReminderSession>

  /** Every session is filed under the key of its own ids. */
  predicate Keyed(m: Sessions)
  {
    forall k :: k in m ==> k == SessionKey(m[k].chatId, m[k].userId)
  }

  /** Get as a value: the session filed under (chat, user), if any. */
  function Lookup(m: Sessions, chatId: int, userId: int): (r: Option<AddReminderSession>)
    ensures r.Some? <==> SessionKey(chatId, userId) in m
    ensures r.Some? ==> r.value == m[SessionKey(chatId, userId)]
  {
    var k := SessionKey(chatId, userId);
    if k in m then Some(m[k]) else None
  }

  /** Set as a value: s filed under its own ids, replacing what was there. */
  function Stored(m: Sessions, s: AddReminderSession): (r: Sessions)
    ensures r.Keys == m.Keys + {SessionKey(s.chatId, s.userId)}
  {
    m[SessionKey(s.chatId, s.userId) := s]
  }

  /** Delete as a value: the key of (chat, user) removed. */
  function Removed(m: Sessions, chatId: int, userId: int): (r: Sessions)
    ensures r.Keys == m.Keys - {SessionKey(chatId, userId)}
  {
    m - {SessionKey(chatId, userId)}
  }

  /** Storing and removing keep every session under the key of its own ids. */
  lemma KeyedKept(m: Sessions, s: AddReminderSession, chatId: int, userId: int)
    requires Keyed(m)
    ensures Keyed(Stored(m, s)) && Keyed(Removed(m, chatId, userId))
  {
  }

  /** Get right after Set(s) returns s for s's own ids and what was there before for any other pair. */
  lemma SetThenGet(m: Sessions, s: AddReminderSession, chatId: int, userId: int)
    ensures Lookup(Stored(m, s), chatId, userId)
      == if chatId == s.chatId && userId == s.userId then Some(s) else Lookup(m, chatId, userId)
  {
    if SessionKey(chatId, userId) == SessionKey(s.chatId, s.userId) {
      SessionKeyInjective(chatId, userId, s.chatId, s.userId);
    }
  }

  /** Get after Delete(c, u) finds nothing for (c, u) and what was there before for any other pair. */
  lemma DeleteThenGet(m: Sessions, c: int, u: int, chatId: int, userId: int)
    ensures Lookup(Removed(m, c, u), chatId, userId)
      == if chatId == c && userId == u then None else Lookup(m, chatId, userId)
  {
    if SessionKey(chatId, userId) == SessionKey(c, u) {
      SessionKeyInjective(chatId, userId, c, u);
    }
  }

  /** A second Set for the same pair replaces the first: there is at most one session per pair. */
  lemma SetOverwrites(m: Sessions, s1: AddReminderSession, s2: AddReminderSession)
    requires s1.chatId == s2.chatId && s1.userId == s2.userId
    ensures Stored(Stored(m, s1), s2) == Stored(m, s2)
  {
  }

  /** In a keyed map each pair has at most one session, and it carries that pair's ids. */
  lemma KeyedLookup(m: Sessions, chatId: int, userId: int)
    requires Keyed(m)
    ensures Lookup(m, chatId, userId).Some? ==>
      Lookup(m, chatId, userId).value.chatId == chatId && Lookup(m, chatId, userId).value.userId == userId
  {
    var k := SessionKey(chatId, userId);
    if k in m {
      SessionKeyInjective(chatId, userId, m[k].chatId, m[k].userId);
    }
  }

  /** Manager: the session map behind a mutex; the mutex only serialises the three operations. */
  class Manager {
    var sessions: Sessions

    ghost predicate Valid()
      reads this
    {
      Keyed(sessions)
    }

    /** NewSessionManager: no sessions. */
    constructor ()
      ensures Valid() && sessions == map[]
      ensures forall c, u :: Get(c, u).None?
    {
      sessions := map[];
    }

    /** Get: the session of (chat, user), or none (Go's nil). */
    function Get(chatId: int, userId: int): (r: Option<AddReminderSession>)
      reads this
      requires Valid()
      ensures r.Some? ==> r.value.chatId == chatId && r.value.userId == userId
      ensures r.Some? ==> SessionKey(chatId, userId) in sessions && r.value == sessions[SessionKey(chatId, userId)]
      ensures r.None? <==> SessionKey(chatId, userId) !in sessions
    {
      KeyedLookup(sessions, chatId, userId);
      Lookup(sessions, chatId, userId)
    }

    /** Set: files s under its own ids, replacing any session of that pair. */
    method Set(s: AddReminderSession)
      requires Valid()
      modifies this
      ensures Valid()
      ensures sessions == Stored(old(sessions), s)
      ensures Get(s.chatId, s.userId) == Some(s)
    {
      sessions := Stored(sessions, s);
      SetThenGet(old(sessions), s, s.chatId, s.userId);
    }

    /** Delete: removes the session of (chat, user) and nothing else. */
    method Delete(chatId: int, userId: int)
      requires Valid()
      modifies this
      ensures Valid()
      ensures sessions == Removed(old(sessions), chatId, userId)
      ensures Get(chatId, userId).None?
    {
      sessions := Removed(sessions, chatId, userId);
    }
  }
}
