/**
 * SessionRepository: session rows over the sessions table, their expiry
 * and termination, and the connection log written when a session ends.
 * The clock and the random session token are arguments.
 */
module SessionRepo {
  import opened Common
  import opened Text
  import opened Exceptions
  import opened Models
  import opened Tables

  /** A session row as inserted: active, no traffic, expiring `expiryHours` from now. */
  function NewSession(id: int, token: string, userId: int, assignedIp: string, clientRealIp: string,
                      clientVersion: string, encryptionKey: string, now: int, expiryHours: int): SessionRecord
  {
    SessionRecord(id, token, userId, assignedIp, Some(clientRealIp), Some(clientVersion), encryptionKey,
                  true, 0, 0, 0, 0, now, now, now + expiryHours * SECONDS_PER_HOUR, None)
  }

  /** The row change of terminate_session. */
  function Terminated(s: SessionRecord, now: int): SessionRecord {
    s.(isActive := false, disconnectedAt := Some(now))
  }

  /** The audit row terminate_session writes for a session ending now. */
  function ClosingLog(id: int, s: SessionRecord, now: int, reason: string): (l: ConnectionLog)
    ensures l.userId == s.userId && l.clientIp == s.clientRealIp && l.assignedIp == Some(s.assignedIp)
    ensures l.connectedAt == s.createdAt && l.disconnectedAt == Some(now)
    ensures l.bytesSent == s.bytesSent && l.bytesReceived == s.bytesReceived
    ensures l.durationSeconds == now - s.createdAt && l.disconnectReason == Some(reason)
  {
    CalculateDuration(ConnectionLog(id, s.userId, s.clientRealIp, Some(s.assignedIp), s.createdAt,
                                    Some(now), s.bytesSent, s.bytesReceived, 0, Some(reason)))
  }

  const SESSION_EXPIRED := "Session expired"

  /** The outcome of validate_session for a token. */
  datatype Validation = Unknown | Inactive | Expired(index: nat) | Valid(index: nat)

  function Validate(sessions: seq<SessionRecord>, token: string, now: int): (v: Validation)
    ensures (v.Expired? || v.Valid?) ==>
      v.index < |sessions| && sessions[v.index].sessionToken == token && sessions[v.index].isActive
    ensures v.Expired? ==> IsExpired(sessions[v.index], now)
    ensures v.Valid? ==> !IsExpired(sessions[v.index], now)
    ensures v.Unknown? <==> forall s | s in sessions :: s.sessionToken != token
  {
    match SessionWithToken(sessions, token)
    case None => Unknown
    case Some(i) =>
      if !sessions[i].isActive then Inactive
      else if IsExpired(sessions[i], now) then Expired(i)
      else Valid(i)
  }

  /**
   * A session validate_session found expired is terminated, and from then
   * on every validation of its token finds it inactive, whatever the clock.
   */
  lemma ExpiredStaysInactive(sessions: seq<SessionRecord>, token: string, now: int, later: int)
    requires Unique(sessions, Token)
    requires Validate(sessions, token, now).Expired?
    ensures var i := Validate(sessions, token, now).index;
      Validate(sessions[i := Terminated(sessions[i], now)], token, later) == Inactive
  {
    var i := Validate(sessions, token, now).index;
    var s := sessions[i := Terminated(sessions[i], now)];
    UniqueUpdate(sessions, i, s[i], Token);
    UniqueFirst(s, Token, i, HasToken(token));
  }

  /** A session that validates stays valid until its expiry, however often it is used. */
  lemma ValidUntilExpiry(sessions: seq<SessionRecord>, token: string, now: int, later: int)
    requires Unique(sessions, Token)
    requires Validate(sessions, token, now).Valid?
    requires later <= sessions[Validate(sessions, token, now).index].expiresAt
    ensures var i := Validate(sessions, token, now).index;
      Validate(sessions[i := UpdateActivity(sessions[i], now)], token, later) == Valid(i)
  {
    var i := Validate(sessions, token, now).index;
    var s := sessions[i := UpdateActivity(sessions[i], now)];
    UniqueUpdate(sessions, i, s[i], Token);
    UniqueFirst(s, Token, i, HasToken(token));
  }

  datatype SessionStatistics = SessionStatistics(
    sessionId: int,
    userId: int,
    assignedIp: string,
    isActive: bool,
    bytesSent: int,
    bytesReceived: int,
    totalBytes: int,
    packetsSent: int,
    packetsReceived: int,
    durationSeconds: int,
    createdAt: int,
    lastActivity: int)

  /**
   * The statistics of one row: an active session's duration runs to now,
   * a closed one's to its disconnect time; a closed row without a
   * disconnect time fails as Python's `None - datetime` does.
   */
  function StatisticsOf(s: SessionRecord, now: int): (r: Result<SessionStatistics, Error>)
    ensures r.Failure? <==> !s.isActive && s.disconnectedAt.None?
    ensures r.Success? ==>
      r.value.totalBytes == r.value.bytesSent + r.value.bytesReceived &&
      r.value.bytesSent == s.bytesSent && r.value.bytesReceived == s.bytesReceived &&
      r.value.createdAt + r.value.durationSeconds == (if s.isActive then now else s.disconnectedAt.value)
  {
    if !s.isActive && s.disconnectedAt.None? then
      Failure(TypeError("unsupported operand type(s) for -: 'NoneType' and 'datetime.datetime'"))
    else
      var end := if s.isActive then now else s.disconnectedAt.value;
      Success(SessionStatistics(s.id, s.userId, s.assignedIp, s.isActive, s.bytesSent, s.bytesReceived,
                                s.bytesSent + s.bytesReceived, s.packetsSent, s.packetsReceived,
                                end - s.createdAt, s.createdAt, s.lastActivity))
  }

  /**
   * Once terminated, a session's statistics agree with the connection log
   * written for it: same duration and byte counts, at any later time.
   */
  lemma TerminatedStatisticsMatchLog(s: SessionRecord, now: int, later: int, logId: int, reason: string)
    ensures var st := StatisticsOf(Terminated(s, now), later);
      var l := ClosingLog(logId, s, now, reason);
      st.Success? && st.value.durationSeconds == l.durationSeconds &&
      st.value.bytesSent == l.bytesSent && st.value.bytesReceived == l.bytesReceived
  {
  }

  /** The rows cleanup_expired_sessions selects: active, with expiry strictly before now. */
  function IsExpiring(now: int): SessionRecord -> bool {
    (s: SessionRecord) => s.isActive && s.expiresAt < now
  }

  /** The selection is exactly the active sessions `is_expired` holds of. */
  lemma ExpiringMeansExpired(s: SessionRecord, now: int)
    ensures IsExpiring(now)(s) <==> s.isActive && IsExpired(s, now)
  {
  }

  /** The sessions table with every row whose id is in `ids` terminated at `now`. */
  function TerminateIds(rows: seq<SessionRecord>, ids: set<int>, now: int): (r: seq<SessionRecord>)
    ensures |r| == |rows|
  {
    seq(|rows|, j requires 0 <= j < |rows| => if rows[j].id in ids then Terminated(rows[j], now) else rows[j])
  }

  /** The log rows cleanup writes: one per expired session, in selection order, with consecutive ids. */
  function ExpiryLogs(expired: seq<SessionRecord>, firstId: int, now: int): (r: seq<ConnectionLog>)
    ensures |r| == |expired|
  {
    seq(|expired|, k requires 0 <= k < |expired| => ClosingLog(firstId + k, expired[k], now, SESSION_EXPIRED))
  }

  function IdsOf(rows: seq<SessionRecord>): set<int> {
    set s | s in rows :: s.id
  }

  /**
   * Selecting by id is selecting the rows themselves: with unique ids, a
   * row's id is among the selected ids exactly when the row is selected.
   */
  lemma IdsOfSelection(rows: seq<SessionRecord>, selected: seq<SessionRecord>, j: nat)
    requires Unique(rows, SessionId) && j < |rows|
    requires forall s | s in selected :: s in rows
    ensures rows[j].id in IdsOf(selected) <==> rows[j] in selected
  {
    if rows[j].id in IdsOf(selected) {
      var s :| s in selected && s.id == rows[j].id;
      var i :| 0 <= i < |rows| && rows[i] == s;
      assert SessionId(rows[i]) == SessionId(rows[j]);
    }
  }

  /**
   * Terminating the selected ids terminates exactly the expiring rows, so
   * afterwards no row is expiring any more.
   */
  lemma TerminateExpiring(rows: seq<SessionRecord>, now: int)
    requires Unique(rows, SessionId)
    ensures var r := TerminateIds(rows, IdsOf(Filter(rows, IsExpiring(now))), now);
      (forall j | 0 <= j < |rows| ::
        r[j] == if IsExpiring(now)(rows[j]) then Terminated(rows[j], now) else rows[j]) &&
      (forall s | s in r :: !IsExpiring(now)(s))
  {
    var expired := Filter(rows, IsExpiring(now));
    var r := TerminateIds(rows, IdsOf(expired), now);
    forall j | 0 <= j < |rows|
      ensures rows[j].id in IdsOf(expired) <==> IsExpiring(now)(rows[j])
    {
      IdsOfSelection(rows, expired, j);
    }
    forall s | s in r
      ensures !IsExpiring(now)(s)
    {
      var j :| 0 <= j < |r| && r[j] == s;
    }
  }

  /** Terminating rows keeps every row's id in place, so the ids stay unique. */
  lemma TerminateIdsKeepsIds(rows: seq<SessionRecord>, ids: set<int>, now: int)
    requires Unique(rows, SessionId)
    ensures forall j | 0 <= j < |rows| :: TerminateIds(rows, ids, now)[j].id == rows[j].id
    ensures Unique(TerminateIds(rows, ids, now), SessionId)
  {
    var cur := TerminateIds(rows, ids, now);
    forall a, b | 0 <= a < b < |cur|
      ensures SessionId(cur[a]) != SessionId(cur[b])
    {
      assert SessionId(rows[a]) != SessionId(rows[b]);
    }
  }

  /** With unique ids, the k-th selected session's id is not among those before it. */
  lemma FreshId(expired: seq<SessionRecord>, k: nat)
    requires Unique(expired, SessionId) && k < |expired|
    ensures expired[k].id !in IdsOf(expired[..k])
    ensures IdsOf(expired[..k + 1]) == IdsOf(expired[..k]) + {expired[k].id}
  {
    forall m | 0 <= m < k
      ensures expired[m].id != expired[k].id
    {
      assert SessionId(expired[m]) != SessionId(expired[k]);
    }
    assert expired[..k + 1] == expired[..k] + [expired[k]];
  }

  /** Closing one more expired session appends its log to those already written. */
  lemma ExpiryLogsStep(expired: seq<SessionRecord>, k: nat, first: int, now: int)
    requires k < |expired|
    ensures ExpiryLogs(expired[..k], first, now) + [ClosingLog(first + k, expired[k], now, SESSION_EXPIRED)] ==
            ExpiryLogs(expired[..k + 1], first, now)
  {
    var a := ExpiryLogs(expired[..k], first, now) + [ClosingLog(first + k, expired[k], now, SESSION_EXPIRED)];
    var b := ExpiryLogs(expired[..k + 1], first, now);
    forall m | 0 <= m < |a|
      ensures a[m] == b[m]
    {
    }
  }

  /**
   * One turn of cleanup: the next selected session is found by its id
   * still unterminated, and closing it extends both the terminated set
   * and the written logs by that one session.
   */
  lemma ExpireStep(rows: seq<SessionRecord>, expired: seq<SessionRecord>, k: nat, first: int, now: int)
    requires Unique(rows, SessionId) && Unique(expired, SessionId)
    requires forall s | s in expired :: s in rows
    requires k < |expired|
    ensures var cur := TerminateIds(rows, IdsOf(expired[..k]), now);
      var i := SessionWithId(cur, expired[k].id);
      i.Some? && cur[i.value] == expired[k] &&
      cur[i.value := Terminated(cur[i.value], now)] == TerminateIds(rows, IdsOf(expired[..k + 1]), now)
    ensures ExpiryLogs(expired[..k], first, now) + [ClosingLog(first + k, expired[k], now, SESSION_EXPIRED)] ==
            ExpiryLogs(expired[..k + 1], first, now)
  {
    var cur := TerminateIds(rows, IdsOf(expired[..k]), now);
    var id := expired[k].id;
    assert expired[k] in expired;
    var i :| 0 <= i < |rows| && rows[i] == expired[k];
    FreshId(expired, k);
    assert cur[i] == rows[i];
    TerminateIdsKeepsIds(rows, IdsOf(expired[..k]), now);
    UniqueFirst(cur, SessionId, i, HasSessionId(id));
    var next := TerminateIds(rows, IdsOf(expired[..k + 1]), now);
    forall j | 0 <= j < |rows|
      ensures cur[i := Terminated(cur[i], now)][j] == next[j]
    {
      if j != i {
        assert SessionId(rows[j]) != SessionId(rows[i]) by {
          if j < i {
            assert SessionId(rows[j]) != SessionId(rows[i]);
          } else {
            assert SessionId(rows[i]) != SessionId(rows[j]);
          }
        }
      }
    }
    ExpiryLogsStep(expired, k, first, now);
  }


  class SessionRepository {
    const db: Database

    constructor (db: Database)
      ensures this.db == db
    {
      this.db := db;
    }

    /** get_by_token */
    function GetByToken(token: string): (r: Option<SessionRecord>)
      reads db
      ensures r.Some? ==> r.value in db.sessions && r.value.sessionToken == token
      ensures r.None? ==> forall s | s in db.sessions :: s.sessionToken != token
    {
      match SessionWithToken(db.sessions, token)
      case None => None
      case Some(i) => Some(db.sessions[i])
    }

    /** get_by_id */
    function GetById(sessionId: int): (r: Option<SessionRecord>)
      reads db
      ensures r.Some? ==> r.value in db.sessions && r.value.id == sessionId
      ensures r.None? ==> forall s | s in db.sessions :: s.id != sessionId
    {
      match SessionWithId(db.sessions, sessionId)
      case None => None
      case Some(i) => Some(db.sessions[i])
    }

    /** get_active_sessions: the active sessions, of one user when a user id is given. */
    function GetActiveSessions(userId: Option<int> := None): (r: seq<SessionRecord>)
      reads db
      ensures forall s :: s in r <==> s in db.sessions && s.isActive && (userId.Some? ==> s.userId == userId.value)
    {
      if userId.None? then ActiveSessions(db.sessions) else ActiveSessionsOf(db.sessions, userId.value)
    }

    /** get_active_session_count */
    function GetActiveSessionCount(userId: int): (r: nat)
      reads db
      ensures r <= |db.sessions|
      ensures r == 0 <==> forall s | s in db.sessions :: !(s.userId == userId && s.isActive)
    {
      var active := ActiveSessionsOf(db.sessions, userId);
      assert active == [] <==> forall s | s in db.sessions :: !(s.userId == userId && s.isActive) by {
        if active != [] {
          assert active[0] in active;
        }
      }
      |active|
    }

    /**
     * create_session: a known user already at its limit raises
     * SessionLimitError (an unknown user id is not refused); a token that
     * is already stored violates the UNIQUE constraint; otherwise a fresh
     * active row is appended.
     */
    method CreateSession(userId: int, assignedIp: string, clientRealIp: string, clientVersion: string,
                         encryptionKey: string, token: string, now: int, expiryHours: int := 24)
      returns (r: Result<SessionRecord, Error>)
      requires db.Valid()
      modifies db
      ensures db.Valid()
      ensures db.users == old(db.users) && db.logs == old(db.logs)
      ensures db.nextUserId == old(db.nextUserId) && db.nextLogId == old(db.nextLogId)
      ensures var u := UserWithId(old(db.users), userId);
        var count := |ActiveSessionsOf(old(db.sessions), userId)|;
        if u.Some? && count >= old(db.users)[u.value].maxSessions then
          r == Failure(Vpn(Raise(SessionLimit, Some("User has reached maximum session limit (" +
                                                    IntToString(old(db.users)[u.value].maxSessions) + ")")))) &&
          db.sessions == old(db.sessions) && db.nextSessionId == old(db.nextSessionId)
        else if SessionWithToken(old(db.sessions), token).Some? then
          r == Failure(IntegrityError("UNIQUE constraint failed: sessions.session_token")) &&
          db.sessions == old(db.sessions) && db.nextSessionId == old(db.nextSessionId)
        else
          r == Success(NewSession(old(db.nextSessionId), token, userId, assignedIp, clientRealIp,
                                  clientVersion, encryptionKey, now, expiryHours)) &&
          db.sessions == old(db.sessions) + [r.value] && db.nextSessionId == old(db.nextSessionId) + 1
    {
      var count := |ActiveSessionsOf(db.sessions, userId)|;
      var u := UserWithId(db.users, userId);
      if u.Some? && count >= db.users[u.value].maxSessions {
        var limit := db.users[u.value].maxSessions;
        return Failure(Vpn(Raise(SessionLimit, Some("User has reached maximum session limit (" + IntToString(limit) + ")"))));
      }
      if SessionWithToken(db.sessions, token).Some? {
        return Failure(IntegrityError("UNIQUE constraint failed: sessions.session_token"));
      }
      var session := NewSession(db.nextSessionId, token, userId, assignedIp, clientRealIp,
                                clientVersion, encryptionKey, now, expiryHours);
      UniqueAppend(db.sessions, session, SessionId);
      UniqueAppend(db.sessions, session, Token);
      db.sessions := db.sessions + [session];
      db.nextSessionId := db.nextSessionId + 1;
      r := Success(session);
    }

    /**
     * terminate_session: the row is marked inactive with its disconnect
     * time, and a connection log closing it is appended. A row already
     * inactive is closed again.
     */
    method TerminateSession(sessionId: int, now: int, reason: string := "User disconnected") returns (found: bool)
      requires db.Valid()
      modifies db
      ensures db.Valid()
      ensures db.users == old(db.users)
      ensures db.nextUserId == old(db.nextUserId) && db.nextSessionId == old(db.nextSessionId)
      ensures found <==> SessionWithId(old(db.sessions), sessionId).Some?
      ensures !found ==> db.sessions == old(db.sessions) && db.logs == old(db.logs) && db.nextLogId == old(db.nextLogId)
      ensures found ==>
        var i := SessionWithId(old(db.sessions), sessionId).value;
        db.sessions == old(db.sessions)[i := Terminated(old(db.sessions)[i], now)] &&
        db.logs == old(db.logs) + [ClosingLog(old(db.nextLogId), old(db.sessions)[i], now, reason)] &&
        db.nextLogId == old(db.nextLogId) + 1
    {
      var i := SessionWithId(db.sessions, sessionId);
      if i.None? {
        return false;
      }
      var s := db.sessions[i.value];
      UniqueUpdate(db.sessions, i.value, Terminated(s, now), SessionId);
      UniqueUpdate(db.sessions, i.value, Terminated(s, now), Token);
      db.sessions := db.sessions[i.value := Terminated(s, now)];
      db.logs := db.logs + [ClosingLog(db.nextLogId, s, now, reason)];
      db.nextLogId := db.nextLogId + 1;
      found := true;
    }

    /**
     * validate_session: an unknown or inactive token is refused and
     * nothing changes; an expired session is refused and terminated with
     * reason "Session expired"; a valid one has its activity time updated
     * and is returned.
     */
    method ValidateSession(token: string, now: int) returns (r: Option<SessionRecord>)
      requires db.Valid()
      modifies db
      ensures db.Valid()
      ensures db.users == old(db.users)
      ensures db.nextUserId == old(db.nextUserId) && db.nextSessionId == old(db.nextSessionId)
      ensures match Validate(old(db.sessions), token, now)
        case Unknown => r.None? && db.sessions == old(db.sessions) && db.logs == old(db.logs) && db.nextLogId == old(db.nextLogId)
        case Inactive => r.None? && db.sessions == old(db.sessions) && db.logs == old(db.logs) && db.nextLogId == old(db.nextLogId)
        case Expired(i) =>
          r.None? && db.sessions == old(db.sessions)[i := Terminated(old(db.sessions)[i], now)] &&
          db.logs == old(db.logs) + [ClosingLog(old(db.nextLogId), old(db.sessions)[i], now, SESSION_EXPIRED)] &&
          db.nextLogId == old(db.nextLogId) + 1
        case Valid(i) =>
          r == Some(UpdateActivity(old(db.sessions)[i], now)) &&
          db.sessions == old(db.sessions)[i := r.value] && db.logs == old(db.logs) && db.nextLogId == old(db.nextLogId)
    {
      var v := Validate(db.sessions, token, now);
      match v
      case Unknown => r := None;
      case Inactive => r := None;
      case Expired(i) =>
        UniqueFirst(db.sessions, SessionId, i, HasSessionId(db.sessions[i].id));
        var _ := TerminateSession(db.sessions[i].id, now, SESSION_EXPIRED);
        r := None;
      case Valid(i) =>
        var s := UpdateActivity(db.sessions[i], now);
        UniqueUpdate(db.sessions, i, s, SessionId);
        UniqueUpdate(db.sessions, i, s, Token);
        db.sessions := db.sessions[i := s];
        r := Some(s);
    }

    /** extend_session: the expiry restarts `hours` from now. */
    method ExtendSession(sessionId: int, now: int, hours: int := 24) returns (found: bool)
      requires db.Valid()
      modifies db
      ensures db.Valid()
      ensures db.users == old(db.users) && db.logs == old(db.logs)
      ensures db.nextUserId == old(db.nextUserId) && db.nextSessionId == old(db.nextSessionId)
      ensures db.nextLogId == old(db.nextLogId)
      ensures found <==> SessionWithId(old(db.sessions), sessionId).Some?
      ensures !found ==> db.sessions == old(db.sessions)
      ensures found ==>
        var i := SessionWithId(old(db.sessions), sessionId).value;
        db.sessions == old(db.sessions)[i := ExtendExpiry(old(db.sessions)[i], hours, now)]
    {
      var i := SessionWithId(db.sessions, sessionId);
      if i.None? {
        return false;
      }
      var s := ExtendExpiry(db.sessions[i.value], hours, now);
      UniqueUpdate(db.sessions, i.value, s, SessionId);
      UniqueUpdate(db.sessions, i.value, s, Token);
      db.sessions := db.sessions[i.value := s];
      found := true;
    }

    /** update_traffic: the traffic is added to the row and its activity time updated. */
    method UpdateTraffic(sessionId: int, bytesSent: int, bytesReceived: int, now: int) returns (found: bool)
      requires db.Valid()
      modifies db
      ensures db.Valid()
      ensures db.users == old(db.users) && db.logs == old(db.logs)
      ensures db.nextUserId == old(db.nextUserId) && db.nextSessionId == old(db.nextSessionId)
      ensures db.nextLogId == old(db.nextLogId)
      ensures found <==> SessionWithId(old(db.sessions), sessionId).Some?
      ensures !found ==> db.sessions == old(db.sessions)
      ensures found ==>
        var i := SessionWithId(old(db.sessions), sessionId).value;
        db.sessions == old(db.sessions)[i := UpdateActivity(AddTraffic(old(db.sessions)[i], bytesSent, bytesReceived), now)]
    {
      var i := SessionWithId(db.sessions, sessionId);
      if i.None? {
        return false;
      }
      var s := UpdateActivity(AddTraffic(db.sessions[i.value], bytesSent, bytesReceived), now);
      UniqueUpdate(db.sessions, i.value, s, SessionId);
      UniqueUpdate(db.sessions, i.value, s, Token);
      db.sessions := db.sessions[i.value := s];
      found := true;
    }

    /**
     * cleanup_expired_sessions: every active session whose expiry lies
     * before now is terminated with reason "Session expired", one closing
     * log each, in table order; the number closed is returned.
     */
    method CleanupExpiredSessions(now: int) returns (count: nat)
      requires db.Valid()
      modifies db
      ensures db.Valid()
      ensures db.users == old(db.users)
      ensures db.nextUserId == old(db.nextUserId) && db.nextSessionId == old(db.nextSessionId)
      ensures var expired := Filter(old(db.sessions), IsExpiring(now));
        count == |expired| &&
        db.logs == old(db.logs) + ExpiryLogs(expired, old(db.nextLogId), now) &&
        db.nextLogId == old(db.nextLogId) + count
      ensures |db.sessions| == |old(db.sessions)|
      ensures forall j | 0 <= j < |db.sessions| ::
        db.sessions[j] == if IsExpiring(now)(old(db.sessions)[j]) then Terminated(old(db.sessions)[j], now) else old(db.sessions)[j]
      ensures forall s | s in db.sessions :: !IsExpiring(now)(s)
    {
      var expired := Filter(db.sessions, IsExpiring(now));
      ghost var rows := db.sessions;
      ghost var logs := db.logs;
      ghost var first := db.nextLogId;
      UniqueFilter(rows, IsExpiring(now), SessionId);
      assert TerminateIds(rows, IdsOf(expired[..0]), now) == rows;
      count := 0;
      while count < |expired|
        invariant count <= |expired|
        invariant db.Valid()
        invariant db.users == old(db.users)
        invariant db.nextUserId == old(db.nextUserId) && db.nextSessionId == old(db.nextSessionId)
        invariant db.sessions == TerminateIds(rows, IdsOf(expired[..count]), now)
        invariant db.logs == logs + ExpiryLogs(expired[..count], first, now)
        invariant db.nextLogId == first + count
      {
        CloseNext(rows, expired, count, first, logs, now);
        count := count + 1;
      }
      assert expired[..count] == expired;
      TerminateExpiring(rows, now);
    }

    /** One turn of the cleanup loop: terminate the next selected session by its id. */
    method CloseNext(ghost rows: seq<SessionRecord>, expired: seq<SessionRecord>, k: nat,
                     ghost first: int, ghost logs: seq<ConnectionLog>, now: int)
      requires db.Valid()
      requires Unique(rows, SessionId) && Unique(expired, SessionId)
      requires forall s | s in expired :: s in rows
      requires k < |expired|
      requires db.sessions == TerminateIds(rows, IdsOf(expired[..k]), now)
      requires db.logs == logs + ExpiryLogs(expired[..k], first, now)
      requires db.nextLogId == first + k
      modifies db
      ensures db.Valid()
      ensures db.users == old(db.users)
      ensures db.nextUserId == old(db.nextUserId) && db.nextSessionId == old(db.nextSessionId)
      ensures db.sessions == TerminateIds(rows, IdsOf(expired[..k + 1]), now)
      ensures db.logs == logs + ExpiryLogs(expired[..k + 1], first, now)
      ensures db.nextLogId == first + k + 1
    {
      ExpireStep(rows, expired, k, first, now);
      var _ := TerminateSession(expired[k].id, now, SESSION_EXPIRED);
    }

    /** get_session_statistics: None for an unknown id. */
    function GetSessionStatistics(sessionId: int, now: int): (r: Result<Option<SessionStatistics>, Error>)
      reads db
      ensures GetById(sessionId).None? ==> r == Success(None)
      ensures GetById(sessionId).Some? ==>
        var s := GetById(sessionId).value;
        (r.Failure? <==> !s.isActive && s.disconnectedAt.None?) &&
        (r.Success? ==> r.value.Some? && r.value.value.sessionId == sessionId &&
                        r.value.value.totalBytes == s.bytesSent + s.bytesReceived)
    {
      match GetById(sessionId)
      case None => Success(None)
      case Some(s) =>
        match StatisticsOf(s, now)
        case Failure(e) => Failure(e)
        case Success(st) => Success(Some(st))
    }
  }
}
