/** The conversation store behind both chat back ends: an append-only
    `messages` table and a `sessions` table. SQL is not modelled; the
    tables are sequences of rows and every statement is a pure transition
    of them. `CURRENT_TIMESTAMP` is a counter that each successful write
    statement advances, so `ORDER BY created_at` is append order. */
module Store {
  import opened Wrappers

  /** The `role IN ('user', 'assistant')` check of the messages table. */
  datatype Role = User | Assistant

  /** One row of `messages`; `id` is the AUTOINCREMENT key. */
  datatype Turn = Turn(id: nat, sessionId: string, role: Role, content: string, createdAt: nat)

  /** One row of `sessions`. */
  datatype SessionRow = SessionRow(id: string, createdAt: nat, updatedAt: nat)

  /** A failed storage statement, with the driver's error message. */
  datatype StoreError = StorageError(message: string)

  // ---------------------------------------------------------------------
  // The messages table
  // ---------------------------------------------------------------------

  /** `INSERT INTO messages (session_id, role, content)` at time `now`. */
  function Appended(log: seq<Turn>, sessionId: string, role: Role, content: string, now: nat): (r: seq<Turn>)
    ensures |r| == |log| + 1 && r[..|log|] == log
    ensures r[|log|].sessionId == sessionId && r[|log|].role == role && r[|log|].content == content
    ensures r[|log|].id == |log| + 1 && r[|log|].createdAt == now
  {
    log + [Turn(|log| + 1, sessionId, role, content, now)]
  }

  /** Creation times strictly increase along the log. */
  ghost predicate Chronological(log: seq<Turn>)
  {
    forall i, j :: 0 <= i < j < |log| ==> log[i].createdAt < log[j].createdAt
  }

  /** `SELECT ... FROM messages WHERE session_id = ? ORDER BY created_at ASC`:
      the session's turns in log order. */
  function SessionTurns(log: seq<Turn>, sessionId: string): (r: seq<Turn>)
    ensures |r| <= |log|
    ensures forall t :: t in r <==> t in log && t.sessionId == sessionId
  {
    if log == [] then []
    else
      var last := log[|log| - 1];
      SessionTurns(log[..|log| - 1], sessionId) + (if last.sessionId == sessionId then [last] else [])
  }

  /** Appending one turn extends exactly the history of that turn's session. */
  lemma SessionTurnsAppend(log: seq<Turn>, t: Turn, sessionId: string)
    ensures SessionTurns(log + [t], sessionId)
         == SessionTurns(log, sessionId) + (if t.sessionId == sessionId then [t] else [])
  {
    assert (log + [t])[..|log|] == log;
  }

  /** A session's history keeps the log's order, so it is ascending in
      creation time whenever the log is. */
  lemma {:induction false} SessionTurnsChronological(log: seq<Turn>, sessionId: string)
    requires Chronological(log)
    ensures Chronological(SessionTurns(log, sessionId))
    decreases |log|
  {
    if log != [] {
      var init := log[..|log| - 1];
      var last := log[|log| - 1];
      assert Chronological(init);
      SessionTurnsChronological(init, sessionId);
      var h := SessionTurns(init, sessionId);
      forall i | 0 <= i < |h|
        ensures h[i].createdAt < last.createdAt
      {
        assert h[i] in init;
        var k :| 0 <= k < |init| && init[k] == h[i];
      }
    }
  }

  function Reverse(s: seq<Turn>): (r: seq<Turn>)
    ensures |r| == |s|
    ensures forall i :: 0 <= i < |s| ==> r[i] == s[|s| - 1 - i]
  {
    seq(|s|, i requires 0 <= i < |s| => s[|s| - 1 - i])
  }

  /** `ORDER BY created_at DESC LIMIT limit`, then `rows.reverse()`. */
  function Recent(log: seq<Turn>, sessionId: string, limit: nat): seq<Turn>
  {
    var newestFirst := Reverse(SessionTurns(log, sessionId));
    Reverse(newestFirst[..if limit < |newestFirst| then limit else |newestFirst|])
  }

  /** Taking the newest `limit` turns and reversing them yields the
      chronologically last `min(limit, n)` turns of the session, oldest first
      (not the oldest ones). */
  lemma RecentIsNewestSuffix(log: seq<Turn>, sessionId: string, limit: nat)
    ensures var h := SessionTurns(log, sessionId);
            var n := if limit < |h| then limit else |h|;
            Recent(log, sessionId, limit) == h[|h| - n..]
  {
    var h := SessionTurns(log, sessionId);
    var n := if limit < |h| then limit else |h|;
    var r := Recent(log, sessionId, limit);
    assert |r| == n;
    forall k | 0 <= k < n
      ensures r[k] == h[|h| - n..][k]
    {
    }
  }

  /** History read right after storing a user turn (the Netlify order): it
      is non-empty, holds at most `limit` turns, all of that session, oldest
      first, and ends with the turn just stored. */
  lemma RecentAfterAppend(log: seq<Turn>, sessionId: string, content: string, now: nat, limit: nat)
    requires limit > 0
    requires Chronological(log) && forall i :: 0 <= i < |log| ==> log[i].createdAt < now
    ensures var log' := Appended(log, sessionId, User, content, now);
            var r := Recent(log', sessionId, limit);
            && 1 <= |r| <= limit
            && r[|r| - 1] == log'[|log|]
            && (forall t :: t in r ==> t in log' && t.sessionId == sessionId)
            && Chronological(r)
  {
    var log' := Appended(log, sessionId, User, content, now);
    var t := log'[|log|];
    assert log' == log + [t];
    SessionTurnsAppend(log, t, sessionId);
    AppendKeepsChronological(log, t);
    SessionTurnsChronological(log', sessionId);
    RecentIsNewestSuffix(log', sessionId, limit);
    var h := SessionTurns(log', sessionId);
    var n := if limit < |h| then limit else |h|;
    SuffixFacts(h, n);
  }

  lemma AppendKeepsChronological(log: seq<Turn>, t: Turn)
    requires Chronological(log) && forall i :: 0 <= i < |log| ==> log[i].createdAt < t.createdAt
    ensures Chronological(log + [t])
  {
  }

  lemma SuffixFacts(h: seq<Turn>, n: nat)
    requires n <= |h|
    ensures Chronological(h) ==> Chronological(h[|h| - n..])
    ensures forall u :: u in h[|h| - n..] ==> u in h
  {
    var r := h[|h| - n..];
    forall u | u in r ensures u in h {
      var k :| 0 <= k < |r| && r[k] == u;
      assert h[|h| - n + k] == u;
    }
    if Chronological(h) {
      forall i, j | 0 <= i < j < |r| ensures r[i].createdAt < r[j].createdAt {
        assert r[i] == h[|h| - n + i] && r[j] == h[|h| - n + j];
      }
    }
  }

  /** One user turn and one assistant turn for `sessionId`, in that order:
      the session's history gains exactly those two turns and every other
      session's history is unchanged. */
  lemma ExchangeAppendsTwo(log: seq<Turn>, sessionId: string, question: string, answer: string, t0: nat, other: string)
    ensures var log' := Appended(Appended(log, sessionId, User, question, t0), sessionId, Assistant, answer, t0 + 1);
            && SessionTurns(log', sessionId)
               == SessionTurns(log, sessionId) + [Turn(|log| + 1, sessionId, User, question, t0),
                                                  Turn(|log| + 2, sessionId, Assistant, answer, t0 + 1)]
            && (other != sessionId ==> SessionTurns(log', other) == SessionTurns(log, other))
  {
    var u := Turn(|log| + 1, sessionId, User, question, t0);
    var a := Turn(|log| + 2, sessionId, Assistant, answer, t0 + 1);
    SessionTurnsAppend(log, u, sessionId);
    SessionTurnsAppend(log + [u], a, sessionId);
    SessionTurnsAppend(log, u, other);
    SessionTurnsAppend(log + [u], a, other);
  }

  // ---------------------------------------------------------------------
  // The sessions table
  // ---------------------------------------------------------------------

  /** `id TEXT PRIMARY KEY`. */
  ghost predicate UniqueIds(rows: seq<SessionRow>)
  {
    forall i, j :: 0 <= i < j < |rows| ==> rows[i].id != rows[j].id
  }

  predicate HasSession(rows: seq<SessionRow>, sessionId: string)
  {
    exists i | 0 <= i < |rows| :: rows[i].id == sessionId
  }

  /** `INSERT OR IGNORE INTO sessions (id) VALUES (?)`. */
  function InsertOrIgnore(rows: seq<SessionRow>, sessionId: string, now: nat): seq<SessionRow>
  {
    if HasSession(rows, sessionId) then rows else rows + [SessionRow(sessionId, now, now)]
  }

  /** `UPDATE sessions SET updated_at = CURRENT_TIMESTAMP WHERE id = ?`. */
  function SetUpdated(rows: seq<SessionRow>, sessionId: string, now: nat): seq<SessionRow>
  {
    seq(|rows|, i requires 0 <= i < |rows| =>
      if rows[i].id == sessionId then rows[i].(updatedAt := now) else rows[i])
  }

  /** `updateSessionTimestamp`: insert-or-ignore at `t1`, then update at `t2`. */
  function Upsert(rows: seq<SessionRow>, sessionId: string, t1: nat, t2: nat): seq<SessionRow>
  {
    SetUpdated(InsertOrIgnore(rows, sessionId, t1), sessionId, t2)
  }

  /** After an upsert exactly one row carries the id, refreshed to `t2`; its
      creation time is the old one if the row existed and `t1` otherwise;
      every other row is kept, in place. */
  lemma UpsertExactlyOne(rows: seq<SessionRow>, sessionId: string, t1: nat, t2: nat)
    requires UniqueIds(rows)
    ensures var r := Upsert(rows, sessionId, t1, t2);
            && UniqueIds(r)
            && |r| == (if HasSession(rows, sessionId) then |rows| else |rows| + 1)
            && (exists k :: 0 <= k < |r| && r[k].id == sessionId && r[k].updatedAt == t2
                  && r[k].createdAt == (if HasSession(rows, sessionId) then rows[k].createdAt else t1))
            && (forall i :: 0 <= i < |rows| && rows[i].id != sessionId ==> r[i] == rows[i])
  {
    var r := Upsert(rows, sessionId, t1, t2);
    if HasSession(rows, sessionId) {
      var k :| 0 <= k < |rows| && rows[k].id == sessionId;
      assert r[k].id == sessionId;
    } else {
      assert r[|rows|].id == sessionId;
    }
  }

  /** Calling the upsert a second time creates no duplicate, keeps
      `created_at` and refreshes `updated_at`. */
  lemma UpsertTwice(rows: seq<SessionRow>, sessionId: string, t1: nat, t2: nat, t3: nat, t4: nat)
    requires UniqueIds(rows)
    ensures var once := Upsert(rows, sessionId, t1, t2);
            var twice := Upsert(once, sessionId, t3, t4);
            && |twice| == |once|
            && UniqueIds(twice)
            && forall i :: 0 <= i < |once| ==>
                 twice[i].id == once[i].id && twice[i].createdAt == once[i].createdAt
                 && twice[i].updatedAt == (if once[i].id == sessionId then t4 else once[i].updatedAt)
  {
    var once := Upsert(rows, sessionId, t1, t2);
    UpsertExactlyOne(rows, sessionId, t1, t2);
    var k :| 0 <= k < |once| && once[k].id == sessionId;
    assert HasSession(once, sessionId);
  }

  /** The update-only touch of the Netlify function: with no row for the id,
      the table is unchanged; otherwise only that row's `updated_at` moves. */
  lemma TouchWithoutRowIsNoop(rows: seq<SessionRow>, sessionId: string, now: nat)
    ensures !HasSession(rows, sessionId) ==> SetUpdated(rows, sessionId, now) == rows
    ensures var r := SetUpdated(rows, sessionId, now);
            && |r| == |rows|
            && forall i :: 0 <= i < |rows| ==>
                 && r[i].id == rows[i].id && r[i].createdAt == rows[i].createdAt
                 && r[i].updatedAt == (if rows[i].id == sessionId then now else rows[i].updatedAt)
  {
    if !HasSession(rows, sessionId) {
      var r := SetUpdated(rows, sessionId, now);
      forall i | 0 <= i < |rows| ensures r[i] == rows[i] {
        assert rows[i].id != sessionId;
      }
    }
  }

  /** `ORDER BY updated_at DESC`. */
  ghost predicate NewestFirst(rows: seq<SessionRow>)
  {
    forall i, j :: 0 <= i < j < |rows| ==> rows[i].updatedAt >= rows[j].updatedAt
  }

  function InsertByRecency(row: SessionRow, rows: seq<SessionRow>): (r: seq<SessionRow>)
    requires NewestFirst(rows)
    ensures NewestFirst(r)
    ensures multiset(r) == multiset(rows) + multiset{row}
    ensures |r| == |rows| + 1 && (r[0] == row || (rows != [] && r[0] == rows[0]))
  {
    if rows == [] || row.updatedAt >= rows[0].updatedAt then
      [row] + rows
    else
      assert rows == [rows[0]] + rows[1..];
      var rest := InsertByRecency(row, rows[1..]);
      assert rows[0].updatedAt >= rest[0].updatedAt;
      [rows[0]] + rest
  }

  /** `getAllSessions`: every session, newest `updated_at` first. */
  function ByRecency(rows: seq<SessionRow>): (r: seq<SessionRow>)
    ensures NewestFirst(r)
    ensures multiset(r) == multiset(rows)
  {
    if rows == [] then []
    else
      assert rows == [rows[0]] + rows[1..];
      InsertByRecency(rows[0], ByRecency(rows[1..]))
  }

  // ---------------------------------------------------------------------
  // The store object
  // ---------------------------------------------------------------------

  /** The two tables and the clock, with one method per store helper or
      inline query of the source. A fault argument `Some(e)` makes the SQL
      statement it belongs to fail with `e` and change nothing. */
  class ConversationStore {
    var turns: seq<Turn>
    var sessions: seq<SessionRow>
    var clock: nat

    ghost predicate Valid()
      reads this
    {
      && Chronological(turns)
      && (forall i :: 0 <= i < |turns| ==> turns[i].id == i + 1 && turns[i].createdAt < clock)
      && UniqueIds(sessions)
      && (forall i :: 0 <= i < |sessions| ==> sessions[i].createdAt <= sessions[i].updatedAt < clock)
    }

    /** A store holding no messages and the given session rows, at time `now`. */
    constructor (rows: seq<SessionRow>, now: nat)
      requires UniqueIds(rows)
      requires forall i :: 0 <= i < |rows| ==> rows[i].createdAt <= rows[i].updatedAt < now
      ensures Valid()
      ensures turns == [] && sessions == rows && clock == now
    {
      turns := [];
      sessions := rows;
      clock := now;
    }

    /** `storeMessage` (server/index.js) and the inline INSERTs of the Netlify
        function: append one turn and return its id. */
    method StoreMessage(sessionId: string, role: Role, content: string, fault: Option<StoreError>)
      returns (r: Result<nat, StoreError>)
      requires Valid()
      modifies this
      ensures Valid()
      ensures sessions == old(sessions)
      ensures fault.Some? ==> r == Failure(fault.value) && turns == old(turns) && clock == old(clock)
      ensures fault.None? ==> && r == Success(|old(turns)| + 1)
                              && turns == Appended(old(turns), sessionId, role, content, old(clock))
                              && clock == old(clock) + 1
    {
      if fault.Some? {
        return Failure(fault.value);
      }
      turns := Appended(turns, sessionId, role, content, clock);
      clock := clock + 1;
      r := Success(|turns|);
    }

    /** `getConversationHistory`: the whole session, oldest first. */
    method GetConversationHistory(sessionId: string, fault: Option<StoreError>)
      returns (r: Result<seq<Turn>, StoreError>)
      requires Valid()
      ensures fault.Some? ==> r == Failure(fault.value)
      ensures fault.None? ==> r.Success? && Chronological(r.value)
                              && (forall t :: t in r.value <==> t in turns && t.sessionId == sessionId)
                              && r.value == SessionTurns(turns, sessionId)
    {
      if fault.Some? {
        return Failure(fault.value);
      }
      SessionTurnsChronological(turns, sessionId);
      r := Success(SessionTurns(turns, sessionId));
    }

    /** The Netlify history query: newest `limit` turns, put back in
        ascending order. */
    method GetRecentHistory(sessionId: string, limit: nat, fault: Option<StoreError>)
      returns (r: Result<seq<Turn>, StoreError>)
      ensures fault.Some? ==> r == Failure(fault.value)
      ensures fault.None? ==> r == Success(Recent(turns, sessionId, limit))
    {
      if fault.Some? {
        return Failure(fault.value);
      }
      r := Success(Recent(turns, sessionId, limit));
    }

    /** `updateSessionTimestamp`: insert-or-ignore, then update. A failed
        insert changes nothing; a failed update leaves the inserted row. */
    method UpdateSessionTimestamp(sessionId: string, insertFault: Option<StoreError>, updateFault: Option<StoreError>)
      returns (r: Result<(), StoreError>)
      requires Valid()
      modifies this
      ensures Valid()
      ensures turns == old(turns)
      ensures insertFault.Some? ==> r == Failure(insertFault.value) && sessions == old(sessions) && clock == old(clock)
      ensures insertFault.None? && updateFault.Some? ==>
                && r == Failure(updateFault.value)
                && sessions == InsertOrIgnore(old(sessions), sessionId, old(clock))
                && clock == old(clock) + 1
      ensures insertFault.None? && updateFault.None? ==>
                && r == Success(())
                && sessions == Upsert(old(sessions), sessionId, old(clock), old(clock) + 1)
                && clock == old(clock) + 2
    {
      if insertFault.Some? {
        return Failure(insertFault.value);
      }
      assert UniqueIds(InsertOrIgnore(sessions, sessionId, clock));
      sessions := InsertOrIgnore(sessions, sessionId, clock);
      clock := clock + 1;
      if updateFault.Some? {
        return Failure(updateFault.value);
      }
      sessions := SetUpdated(sessions, sessionId, clock);
      clock := clock + 1;
      r := Success(());
    }

    /** The Netlify function's session touch: UPDATE only, no insert. */
    method TouchSession(sessionId: string, fault: Option<StoreError>)
      returns (r: Result<(), StoreError>)
      requires Valid()
      modifies this
      ensures Valid()
      ensures turns == old(turns)
      ensures fault.Some? ==> r == Failure(fault.value) && sessions == old(sessions) && clock == old(clock)
      ensures fault.None? ==> && r == Success(())
                              && sessions == SetUpdated(old(sessions), sessionId, old(clock))
                              && clock == old(clock) + 1
    {
      if fault.Some? {
        return Failure(fault.value);
      }
      sessions := SetUpdated(sessions, sessionId, clock);
      clock := clock + 1;
      r := Success(());
    }

    /** `getAllSessions`. */
    method GetAllSessions(fault: Option<StoreError>) returns (r: Result<seq<SessionRow>, StoreError>)
      ensures fault.Some? ==> r == Failure(fault.value)
      ensures fault.None? ==> r.Success? && NewestFirst(r.value) && multiset(r.value) == multiset(sessions)
    {
      if fault.Some? {
        return Failure(fault.value);
      }
      r := Success(ByRecency(sessions));
    }
  }
}
