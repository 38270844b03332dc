/**
 * The SQLite database as three in-memory tables in insertion order, with
 * the query shapes the repositories use: `.filter(...).first()` and
 * `.filter(...).all()` / `.count()`. Primary keys come from per-table
 * counters.
 */
module Tables {
  import opened Common
  import opened Models

  /** `.filter(p).first()`: the index of the first row satisfying p. */
  function FirstWhere<T>(rows: seq<T>, p: T -> bool): (r: Option<nat>)
    ensures r.Some? ==> r.value < |rows| && p(rows[r.value]) && forall j | 0 <= j < r.value :: !p(rows[j])
    ensures r.None? ==> forall j | 0 <= j < |rows| :: !p(rows[j])
  {
    if rows == [] then None
    else if p(rows[0]) then Some(0)
    else
      match FirstWhere(rows[1..], p)
      case None => None
      case Some(i) => Some(i + 1)
  }

  /** `.filter(p).all()`: the rows satisfying p, in table order. */
  function Filter<T(!new)>(rows: seq<T>, p: T -> bool): (r: seq<T>)
    ensures |r| <= |rows|
    ensures forall x :: x in r <==> x in rows && p(x)
  {
    if rows == [] then []
    else (if p(rows[0]) then [rows[0]] else []) + Filter(rows[1..], p)
  }

  /** No two rows share a key. */
  ghost predicate Unique<T, K>(rows: seq<T>, key: T -> K) {
    forall i, j | 0 <= i < j < |rows| :: key(rows[i]) != key(rows[j])
  }

  /** With a unique key, a row is the first one matching any test that picks out its key alone. */
  lemma UniqueFirst<T, K>(rows: seq<T>, key: T -> K, i: nat, p: T -> bool)
    requires Unique(rows, key) && i < |rows| && p(rows[i])
    requires forall j | 0 <= j < |rows| && p(rows[j]) :: key(rows[j]) == key(rows[i])
    ensures FirstWhere(rows, p) == Some(i)
  {
    var r := FirstWhere(rows, p);
    assert r.Some? && p(rows[r.value]);
  }

  lemma UniqueAppend<T, K>(rows: seq<T>, x: T, key: T -> K)
    requires Unique(rows, key)
    requires forall y | y in rows :: key(y) != key(x)
    ensures Unique(rows + [x], key)
  {
    var s := rows + [x];
    forall i, j | 0 <= i < j < |s|
      ensures key(s[i]) != key(s[j])
    {
      if j == |rows| {
        assert s[i] in rows;
      }
    }
  }

  lemma UniqueUpdate<T, K>(rows: seq<T>, i: nat, x: T, key: T -> K)
    requires Unique(rows, key) && i < |rows| && key(x) == key(rows[i])
    ensures Unique(rows[i := x], key)
  {
  }

  lemma UniqueRemove<T, K>(rows: seq<T>, i: nat, key: T -> K)
    requires Unique(rows, key) && i < |rows|
    ensures Unique(rows[..i] + rows[i + 1..], key)
  {
    var s := rows[..i] + rows[i + 1..];
    forall a, b | 0 <= a < b < |s|
      ensures key(s[a]) != key(s[b])
    {
      var a' := if a < i then a else a + 1;
      var b' := if b < i then b else b + 1;
      assert s[a] == rows[a'] && s[b] == rows[b'];
    }
  }

  lemma {:induction false} UniqueFilter<T(!new), K>(rows: seq<T>, p: T -> bool, key: T -> K)
    requires Unique(rows, key)
    ensures Unique(Filter(rows, p), key)
  {
    if rows != [] {
      assert Unique(rows[1..], key);
      UniqueFilter(rows[1..], p, key);
      var rest := Filter(rows[1..], p);
      forall y | y in rest
        ensures key(y) != key(rows[0])
      {
        var k :| 0 <= k < |rows[1..]| && rows[1..][k] == y;
        assert rows[k + 1] == y;
      }
      if p(rows[0]) {
        var s := [rows[0]] + rest;
        forall a, b | 0 <= a < b < |s|
          ensures key(s[a]) != key(s[b])
        {
          if a == 0 {
            assert s[b] in rest;
          } else {
            assert s[a] == rest[a - 1] && s[b] == rest[b - 1];
          }
        }
      } else {
        assert Filter(rows, p) == rest;
      }
    }
  }

  function HasUserId(id: int): User -> bool { (u: User) => u.id == id }
  function HasUsername(username: string): User -> bool { (u: User) => u.username == username }
  function HasSessionId(id: int): SessionRecord -> bool { (s: SessionRecord) => s.id == id }
  function HasToken(token: string): SessionRecord -> bool { (s: SessionRecord) => s.sessionToken == token }

  function UserWithId(users: seq<User>, id: int): Option<nat> {
    FirstWhere(users, HasUserId(id))
  }

  function UserNamed(users: seq<User>, username: string): Option<nat> {
    FirstWhere(users, HasUsername(username))
  }

  function SessionWithId(sessions: seq<SessionRecord>, id: int): Option<nat> {
    FirstWhere(sessions, HasSessionId(id))
  }

  function SessionWithToken(sessions: seq<SessionRecord>, token: string): Option<nat> {
    FirstWhere(sessions, HasToken(token))
  }

  /** The user's active sessions, in table order. */
  function ActiveSessionsOf(sessions: seq<SessionRecord>, userId: int): seq<SessionRecord> {
    Filter(sessions, (s: SessionRecord) => s.userId == userId && s.isActive)
  }

  function ActiveSessions(sessions: seq<SessionRecord>): seq<SessionRecord> {
    Filter(sessions, (s: SessionRecord) => s.isActive)
  }

  function UserId(u: User): int { u.id }
  function Username(u: User): string { u.username }
  function SessionId(s: SessionRecord): int { s.id }
  function Token(s: SessionRecord): string { s.sessionToken }

  class Database {
    var users: seq<User>
    var sessions: seq<SessionRecord>
    var logs: seq<ConnectionLog>
    var nextUserId: int
    var nextSessionId: int
    var nextLogId: int

    /**
     * Primary keys and the unique columns (username, session_token) are
     * unique, and every key lies below its table's counter.
     */
    ghost predicate Valid()
      reads this
    {
      Unique(users, UserId) && Unique(users, Username) &&
      (forall u | u in users :: u.id < nextUserId) &&
      Unique(sessions, SessionId) && Unique(sessions, Token) &&
      (forall s | s in sessions :: s.id < nextSessionId) &&
      (forall l | l in logs :: l.id < nextLogId)
    }

    constructor ()
      ensures Valid()
      ensures users == [] && sessions == [] && logs == []
    {
      users := [];
      sessions := [];
      logs := [];
      nextUserId := 1;
      nextSessionId := 1;
      nextLogId := 1;
    }
  }
}
