/**
 * AuthHandler: logging a user in (credentials, session limit, virtual IP,
 * session row), token validation, logout, and the set of virtual IPs
 * handed out from the 10.8.0.0/24 client pool.
 */
module AuthHandler {
  import opened Common
  import opened Bytes
  import opened Text
  import opened Exceptions
  import opened Protocol
  import opened Models
  import opened Tables
  import opened UserRepo
  import opened SessionRepo

  /** The number of pool indices _assign_ip tries: 0..252, addresses .2 to .254. */
  const POOL_SIZE: nat := 253

  /** The address of pool index `index`: the pool starts at 10.8.0.2. */
  function PoolAddress(index: nat): string {
    ClientAddress(index + 2)
  }

  /** The lowest pool index at or after `from` whose address is not taken. */
  function LowestFree(ips: set<string>, from: nat := 0): (r: Option<nat>)
    requires from <= POOL_SIZE
    ensures r.Some? ==>
      from <= r.value < POOL_SIZE && PoolAddress(r.value) !in ips &&
      forall j | from <= j < r.value :: PoolAddress(j) in ips
    ensures r.None? ==> forall j | from <= j < POOL_SIZE :: PoolAddress(j) in ips
    decreases POOL_SIZE - from
  {
    if from == POOL_SIZE then None
    else if PoolAddress(from) !in ips then Some(from)
    else LowestFree(ips, from + 1)
  }

  /**
   * _assign_ip never reaches the index get_next_client_ip accepts beyond
   * the pool: what it hands out is a pool address that
   * ip_to_client_index maps back to its index.
   */
  lemma AssignedAddressInPool(ips: set<string>)
    requires LowestFree(ips).Some?
    ensures IpToClientIndex(PoolAddress(LowestFree(ips).value)) == Success(LowestFree(ips).value)
  {
    ClientAddressIndex(LowestFree(ips).value + 2);
  }

  /** No two active sessions hold the same virtual IP. */
  ghost predicate ActiveIpsDistinct(sessions: seq<SessionRecord>) {
    forall i, j | 0 <= i < j < |sessions| && sessions[i].isActive && sessions[j].isActive ::
      sessions[i].assignedIp != sessions[j].assignedIp
  }

  /** Every active session's virtual IP is marked as assigned. */
  ghost predicate Covered(sessions: seq<SessionRecord>, ips: set<string>) {
    forall s | s in sessions && s.isActive :: s.assignedIp in ips
  }

  /** The virtual IPs of the active sessions: what _load_assigned_ips rebuilds. */
  function ActiveIps(sessions: seq<SessionRecord>): (r: set<string>)
    ensures forall ip :: ip in r <==> exists s | s in sessions :: s.isActive && s.assignedIp == ip
  {
    set s | s in ActiveSessions(sessions) :: s.assignedIp
  }

  /** With distinct IPs all marked, there are no more active sessions than marked IPs. */
  lemma {:induction false} ActiveFit(sessions: seq<SessionRecord>, ips: set<string>)
    requires ActiveIpsDistinct(sessions) && Covered(sessions, ips)
    ensures |ActiveSessions(sessions)| <= |ips|
  {
    if sessions != [] {
      var head := sessions[0];
      var tail := sessions[1..];
      assert ActiveIpsDistinct(tail) by {
        forall i, j | 0 <= i < j < |tail| && tail[i].isActive && tail[j].isActive
          ensures tail[i].assignedIp != tail[j].assignedIp
        {
          assert tail[i] == sessions[i + 1] && tail[j] == sessions[j + 1];
        }
      }
      if head.isActive {
        assert head.assignedIp in ips;
        forall s | s in tail && s.isActive
          ensures s.assignedIp in ips - {head.assignedIp}
        {
          var k :| 0 <= k < |tail| && tail[k] == s;
          assert sessions[k + 1] == s;
        }
        ActiveFit(tail, ips - {head.assignedIp});
      } else {
        forall s | s in tail && s.isActive
          ensures s.assignedIp in ips
        {
          assert s in sessions;
        }
        ActiveFit(tail, ips);
      }
    }
  }

  /** terminate_session's release as written: the row's IP is discarded even if the row was already closed. */
  function ReleaseAsWritten(ips: set<string>, row: SessionRecord): (r: set<string>)
    ensures row.assignedIp !in r
    ensures forall ip | ip != row.assignedIp :: ip in r <==> ip in ips
  {
    ips - {row.assignedIp}
  }

  /** The release terminate_session intends: only a session still active gives its IP back. */
  function Release(ips: set<string>, row: SessionRecord): (r: set<string>)
    ensures r <= ips
    ensures row.isActive ==> row.assignedIp !in r
  {
    if row.isActive then ips - {row.assignedIp} else ips
  }

  /**
   * Closing an already closed session whose IP has since gone to another
   * session, as written, frees that IP while its new holder is active, and
   * the next login is handed the same address.
   */
  lemma ReleaseAsWrittenFreesHeldIp()
    ensures var closed := SessionRecord(1, "a", 1, "10.8.0.2", None, None, "", false, 0, 0, 0, 0, 0, 0, 100, Some(5));
      var holder := SessionRecord(2, "b", 1, "10.8.0.2", None, None, "", true, 0, 0, 0, 0, 6, 6, 100, None);
      var sessions := [closed, holder];
      var ips := {"10.8.0.2"};
      ActiveIpsDistinct(sessions) && Covered(sessions, ips) &&
      !Covered(sessions, ReleaseAsWritten(ips, closed)) &&
      LowestFree(ReleaseAsWritten(ips, closed)) == Some(0) &&
      PoolAddress(0) == holder.assignedIp
  {
    assert NatToString(2) == "2";
    var closed := SessionRecord(1, "a", 1, "10.8.0.2", None, None, "", false, 0, 0, 0, 0, 0, 0, 100, Some(5));
    var holder := SessionRecord(2, "b", 1, "10.8.0.2", None, None, "", true, 0, 0, 0, 0, 6, 6, 100, None);
    assert holder in [closed, holder];
  }

  /** The intended release keeps every active session's IP marked once that session's row is closed. */
  lemma ReleaseKeepsCoverage(sessions: seq<SessionRecord>, ips: set<string>, i: nat, now: int)
    requires ActiveIpsDistinct(sessions) && Covered(sessions, ips) && i < |sessions|
    ensures var after := sessions[i := Terminated(sessions[i], now)];
      ActiveIpsDistinct(after) && Covered(after, Release(ips, sessions[i]))
  {
    var after := sessions[i := Terminated(sessions[i], now)];
    forall s | s in after && s.isActive
      ensures s.assignedIp in Release(ips, sessions[i])
    {
      var k :| 0 <= k < |after| && after[k] == s;
      assert k != i && sessions[k] == s;
      if sessions[i].isActive {
        if k < i {
          assert sessions[k].assignedIp != sessions[i].assignedIp;
        } else {
          assert sessions[i].assignedIp != sessions[k].assignedIp;
        }
      }
    }
  }

  datatype AuthStatistics = AuthStatistics(
    activeSessions: nat,
    assignedIps: nat,
    totalBytesSent: int,
    totalBytesReceived: int)

  function BytesSent(rows: seq<SessionRecord>): int {
    if rows == [] then 0 else rows[0].bytesSent + BytesSent(rows[1..])
  }

  function BytesReceived(rows: seq<SessionRecord>): int {
    if rows == [] then 0 else rows[0].bytesReceived + BytesReceived(rows[1..])
  }

  const INVALID_CREDENTIALS := "Invalid username or password"
  const NO_ADDRESS := "No available IP addresses"
  /** Stands for the database's unique-constraint message; its exact wording is the driver's. */
  const DUPLICATE_TOKEN := "UNIQUE constraint failed: sessions.session_token"

  /** How a login attempt ends, in the order authenticate_user checks. */
  datatype Login =
    | BadCredentials
    | AtLimit(maxSessions: int)
    | PoolExhausted
    | TokenTaken
    | Admitted(userId: int, index: nat)

  function LoginOf(users: seq<User>, sessions: seq<SessionRecord>, ips: set<string>, h: Hasher,
                   username: string, password: string, token: string): (l: Login)
    ensures l.BadCredentials? <==> Accepted(users, h, username, password).None?
    ensures l.Admitted? ==>
      var a := Accepted(users, h, username, password).value;
      l.userId == users[a].id && |ActiveSessionsOf(sessions, l.userId)| < users[a].maxSessions &&
      LowestFree(ips) == Some(l.index) && SessionWithToken(sessions, token).None?
  {
    match Accepted(users, h, username, password)
    case None => BadCredentials
    case Some(a) =>
      if |ActiveSessionsOf(sessions, users[a].id)| >= users[a].maxSessions then AtLimit(users[a].maxSessions)
      else match LowestFree(ips)
        case None => PoolExhausted
        case Some(k) => if SessionWithToken(sessions, token).Some? then TokenTaken else Admitted(users[a].id, k)
  }

  /** What validate_token answers for a token, from the sessions as they were before the call. */
  function TokenOutcome(sessions: seq<SessionRecord>, token: string, now: int): (r: Result<SessionRecord, Error>)
    ensures r.Success? <==> Validate(sessions, token, now).Valid?
  {
    match Validate(sessions, token, now)
    case Unknown => Failure(Vpn(Raise(InvalidToken, Some("Invalid session token"))))
    case Inactive =>
      if IsExpired(sessions[SessionWithToken(sessions, token).value], now) then Failure(Vpn(Raise(TokenExpired)))
      else Failure(Vpn(Raise(InvalidToken, Some("Session is inactive"))))
    case Expired(_) => Failure(Vpn(Raise(TokenExpired)))
    case Valid(i) => Success(UpdateActivity(sessions[i], now))
  }

  /** The sessions table after validate_session. */
  function AfterValidation(sessions: seq<SessionRecord>, token: string, now: int): seq<SessionRecord> {
    match Validate(sessions, token, now)
    case Expired(i) => sessions[i := Terminated(sessions[i], now)]
    case Valid(i) => sessions[i := UpdateActivity(sessions[i], now)]
    case _ => sessions
  }

  /**
   * Validation keeps the IP marks sound, and the failure validate_token
   * derives from the table after validate_session is the one the table
   * before it determines.
   */
  lemma ValidationOutcome(sessions: seq<SessionRecord>, ips: set<string>, token: string, now: int)
    requires Unique(sessions, Token) && ActiveIpsDistinct(sessions) && Covered(sessions, ips)
    ensures var after := AfterValidation(sessions, token, now);
      ActiveIpsDistinct(after) && Covered(after, ips) &&
      (!Validate(sessions, token, now).Valid? ==>
        TokenOutcome(sessions, token, now) ==
          match SessionWithToken(after, token)
          case None => Failure(Vpn(Raise(InvalidToken, Some("Invalid session token"))))
          case Some(j) =>
            if IsExpired(after[j], now) then Failure(Vpn(Raise(TokenExpired)))
            else Failure(Vpn(Raise(InvalidToken, Some("Session is inactive")))))
  {
    var after := AfterValidation(sessions, token, now);
    match Validate(sessions, token, now)
    case Expired(i) =>
      ReleaseKeepsCoverage(sessions, ips, i, now);
      UniqueUpdate(sessions, i, after[i], Token);
      UniqueFirst(after, Token, i, HasToken(token));
    case Valid(i) =>
      forall a, b | 0 <= a < b < |after| && after[a].isActive && after[b].isActive
        ensures after[a].assignedIp != after[b].assignedIp
      {
        assert sessions[a].assignedIp != sessions[b].assignedIp;
      }
      forall s | s in after && s.isActive
        ensures s.assignedIp in ips
      {
        var k :| 0 <= k < |after| && after[k] == s;
        assert sessions[k].assignedIp == s.assignedIp && sessions[k].isActive;
      }
    case _ =>
  }

  class Handler {
    const db: Database
    const userRepo: UserRepository
    const sessionRepo: SessionRepository
    var assignedIps: set<string>

    /**
     * The repositories share the handler's database, and the assigned
     * set marks the IP of every active session, no two of which share one.
     */
    ghost predicate Valid()
      reads this, db
    {
      db.Valid() && userRepo.db == db && sessionRepo.db == db &&
      ActiveIpsDistinct(db.sessions) && Covered(db.sessions, assignedIps)
    }

    /** __init__: the assigned set starts as the IPs of the active sessions. */
    constructor (db: Database, hasher: Hasher)
      requires db.Valid()
      ensures this.db == db && userRepo.hasher == hasher
      ensures assignedIps == ActiveIps(db.sessions)
      ensures ActiveIpsDistinct(db.sessions) ==> Valid()
    {
      this.db := db;
      userRepo := new UserRepository(db, hasher);
      sessionRepo := new SessionRepository(db);
      assignedIps := ActiveIps(db.sessions);
    }

    /** _load_assigned_ips */
    method LoadAssignedIps()
      modifies this
      ensures assignedIps == ActiveIps(db.sessions)
      ensures Covered(db.sessions, assignedIps)
    {
      assignedIps := ActiveIps(db.sessions);
    }

    /**
     * _assign_ip: the lowest pool address not yet assigned is marked and
     * returned; with all 253 taken, RuntimeError and nothing changes.
     */
    method AssignIp() returns (r: Result<string, Error>)
      modifies this
      ensures match LowestFree(old(assignedIps))
        case None =>
          r == Failure(RuntimeError(NO_ADDRESS)) && assignedIps == old(assignedIps)
        case Some(k) =>
          r == Success(PoolAddress(k)) && assignedIps == old(assignedIps) + {r.value}
    {
      var i := 0;
      while i < POOL_SIZE
        invariant 0 <= i <= POOL_SIZE
        invariant assignedIps == old(assignedIps)
        invariant LowestFree(assignedIps) == LowestFree(assignedIps, i)
      {
        var ip := GetNextClientIp(i).value;
        if ip !in assignedIps {
          assignedIps := assignedIps + {ip};
          return Success(ip);
        }
        i := i + 1;
      }
      return Failure(RuntimeError(NO_ADDRESS));
    }

    /** release_ip: the address is unmarked; the marks stay sound unless an active session holds it. */
    method ReleaseIp(ip: string)
      modifies this
      ensures assignedIps == old(assignedIps) - {ip}
      ensures old(Valid()) && (forall s | s in db.sessions && s.isActive :: s.assignedIp != ip) ==> Valid()
    {
      assignedIps := assignedIps - {ip};
    }

    /**
     * authenticate_user: bad credentials raise InvalidCredentialsError
     * and change nothing; a user at its session limit raises
     * SessionLimitError; an exhausted pool raises RuntimeError; otherwise
     * the lowest free pool address is assigned and a 24-hour session
     * carrying the hex master key is created. If the row cannot be stored
     * the address is given back and AuthenticationError wraps the cause.
     * A session created here never shares its IP with another active one.
     */
    method AuthenticateUser(username: string, password: string, clientIp: string, clientVersion: string,
                            token: string, masterKey: seq<Byte>, now: int)
      returns (r: Result<(SessionRecord, string), Error>)
      requires Valid()
      modifies this, db
      ensures Valid()
      ensures db.logs == old(db.logs)
      ensures db.nextUserId == old(db.nextUserId) && db.nextLogId == old(db.nextLogId)
      ensures r.Failure? ==>
        db.sessions == old(db.sessions) && assignedIps == old(assignedIps) &&
        db.nextSessionId == old(db.nextSessionId)
      ensures var i := Accepted(old(db.users), userRepo.hasher, username, password);
        db.users == if i.None? then old(db.users)
          else old(db.users)[i.value := old(db.users)[i.value].(lastLogin := Some(now))]
      ensures match LoginOf(old(db.users), old(db.sessions), old(assignedIps), userRepo.hasher, username, password, token)
        case BadCredentials =>
          r == Failure(Vpn(Raise(InvalidCredentials, Some(INVALID_CREDENTIALS)))) && db.users == old(db.users)
        case AtLimit(m) =>
          r == Failure(Vpn(Raise(SessionLimit, Some("Maximum sessions (" + IntToString(m) + ") reached"))))
        case PoolExhausted =>
          r == Failure(RuntimeError(NO_ADDRESS))
        case TokenTaken =>
          r == Failure(Vpn(Raise(Authentication, Some("Failed to create session: " + DUPLICATE_TOKEN))))
        case Admitted(userId, k) =>
          r.Success? &&
          var (session, keyHex) := r.value;
          session.userId == userId && session.isActive && session.assignedIp == PoolAddress(k) &&
          session.assignedIp !in old(assignedIps) &&
          session.sessionToken == token && session.expiresAt == now + 24 * SECONDS_PER_HOUR &&
          keyHex == Hex(masterKey) && session.encryptionKey == keyHex &&
          db.sessions == old(db.sessions) + [session] && assignedIps == old(assignedIps) + {session.assignedIp}
    {
      ghost var i := Accepted(db.users, userRepo.hasher, username, password);
      var user := userRepo.Authenticate(username, password, now);
      if user.None? {
        return Failure(Vpn(Raise(InvalidCredentials, Some(INVALID_CREDENTIALS))));
      }
      UniqueFirst(db.users, UserId, i.value, HasUserId(user.value.id));
      r := Admit(user.value, clientIp, clientVersion, token, masterKey, now);
    }

    /** authenticate_user after the credentials are accepted: limit, address, session row. */
    method Admit(u: User, clientIp: string, clientVersion: string, token: string, masterKey: seq<Byte>, now: int)
      returns (r: Result<(SessionRecord, string), Error>)
      requires Valid()
      requires userRepo.GetById(u.id) == Some(u) && u.isActive
      modifies this, db
      ensures Valid()
      ensures db.logs == old(db.logs) && db.users == old(db.users)
      ensures db.nextUserId == old(db.nextUserId) && db.nextLogId == old(db.nextLogId)
      ensures r.Failure? ==>
        db.sessions == old(db.sessions) && assignedIps == old(assignedIps) &&
        db.nextSessionId == old(db.nextSessionId)
      ensures |ActiveSessionsOf(old(db.sessions), u.id)| >= u.maxSessions ==>
        r == Failure(Vpn(Raise(SessionLimit, Some("Maximum sessions (" + IntToString(u.maxSessions) + ") reached"))))
      ensures |ActiveSessionsOf(old(db.sessions), u.id)| < u.maxSessions ==>
        match LowestFree(old(assignedIps))
        case None => r == Failure(RuntimeError(NO_ADDRESS))
        case Some(k) =>
          if SessionWithToken(old(db.sessions), token).Some? then
            r == Failure(Vpn(Raise(Authentication, Some("Failed to create session: " + DUPLICATE_TOKEN))))
          else
            r.Success? &&
            var (session, keyHex) := r.value;
            session.userId == u.id && session.isActive && session.assignedIp == PoolAddress(k) &&
            session.assignedIp !in old(assignedIps) &&
            session.sessionToken == token && session.expiresAt == now + 24 * SECONDS_PER_HOUR &&
            keyHex == Hex(masterKey) && session.encryptionKey == keyHex &&
            db.sessions == old(db.sessions) + [session] && assignedIps == old(assignedIps) + {session.assignedIp}
    {
      if !userRepo.CanCreateSession(u.id) {
        return Failure(Vpn(Raise(SessionLimit, Some("Maximum sessions (" + IntToString(u.maxSessions) + ") reached"))));
      }
      var ip := AssignIp();
      if ip.Failure? {
        return Failure(ip.error);
      }
      var keyHex := Hex(masterKey);
      var created := Create(u.id, ip.value, clientIp, clientVersion, keyHex, token, now);
      if created.Failure? {
        assignedIps := assignedIps - {ip.value};
        return Failure(Vpn(Raise(Authentication, Some("Failed to create session: " + ErrorStr(created.error)))));
      }
      r := Success((created.value, keyHex));
    }

    /** The session_repo.create_session call of authenticate_user, for a freshly assigned IP. */
    method Create(userId: int, ip: string, clientIp: string, clientVersion: string, keyHex: string,
                  token: string, now: int) returns (r: Result<SessionRecord, Error>)
      requires db.Valid() && userRepo.db == db && sessionRepo.db == db
      requires ActiveIpsDistinct(db.sessions) && Covered(db.sessions, assignedIps - {ip})
      requires ip in assignedIps
      requires forall s | s in db.sessions && s.isActive :: s.assignedIp != ip
      modifies db
      ensures db.Valid() && ActiveIpsDistinct(db.sessions) && Covered(db.sessions, assignedIps)
      ensures db.users == old(db.users) && db.logs == old(db.logs)
      ensures db.nextUserId == old(db.nextUserId) && db.nextLogId == old(db.nextLogId)
      ensures r.Failure? ==> db.sessions == old(db.sessions) && db.nextSessionId == old(db.nextSessionId)
      ensures userRepo.GetById(userId).Some? &&
              |ActiveSessionsOf(old(db.sessions), userId)| < userRepo.GetById(userId).value.maxSessions ==>
        if SessionWithToken(old(db.sessions), token).Some? then
          r == Failure(IntegrityError(DUPLICATE_TOKEN))
        else r.Success?
      ensures r.Success? ==>
        db.sessions == old(db.sessions) + [r.value] && r.value.isActive && r.value.userId == userId &&
        r.value.assignedIp == ip && r.value.sessionToken == token && r.value.encryptionKey == keyHex &&
        r.value.expiresAt == now + 24 * SECONDS_PER_HOUR
    {
      r := sessionRepo.CreateSession(userId, ip, clientIp, clientVersion, keyHex, token, now, 24);
      if r.Success? {
        var s := db.sessions;
        assert s[|s| - 1] == r.value;
        forall i, j | 0 <= i < j < |s| && s[i].isActive && s[j].isActive
          ensures s[i].assignedIp != s[j].assignedIp
        {
          if j == |s| - 1 {
            assert s[i] in old(db.sessions);
          } else {
            assert s[i] == old(db.sessions)[i] && s[j] == old(db.sessions)[j];
          }
        }
      }
    }

    /**
     * validate_token: a valid token yields its session (activity updated);
     * otherwise TokenExpiredError when the token's session is past expiry,
     * InvalidTokenError "Session is inactive" when it is closed but not
     * expired, and "Invalid session token" when no session has it.
     */
    method ValidateToken(token: string, now: int) returns (r: Result<SessionRecord, Error>)
      requires Valid()
      modifies db
      ensures Valid()
      ensures db.users == old(db.users)
      ensures r == TokenOutcome(old(db.sessions), token, now)
      ensures db.sessions == AfterValidation(old(db.sessions), token, now)
    {
      ghost var rows := db.sessions;
      ValidationOutcome(rows, assignedIps, token, now);
      var session := sessionRepo.ValidateSession(token, now);
      if session.Some? {
        return Success(session.value);
      }
      var obj := sessionRepo.GetByToken(token);
      if obj.Some? {
        if IsExpired(obj.value, now) {
          r := Failure(Vpn(Raise(TokenExpired)));
        } else {
          r := Failure(Vpn(Raise(InvalidToken, Some("Session is inactive"))));
        }
      } else {
        r := Failure(Vpn(Raise(InvalidToken, Some("Invalid session token"))));
      }
    }

    /**
     * terminate_session: an unknown token returns false. Otherwise the
     * session row is closed with a connection log, and its IP is released
     * if the session was still active.
     */
    method TerminateSession(token: string, now: int, reason: string := "User logout") returns (found: bool)
      requires Valid()
      modifies this, db
      ensures Valid()
      ensures db.users == old(db.users)
      ensures found <==> SessionWithToken(old(db.sessions), token).Some?
      ensures !found ==> db.sessions == old(db.sessions) && assignedIps == old(assignedIps) && db.logs == old(db.logs)
      ensures found ==>
        var i := SessionWithToken(old(db.sessions), token).value;
        var row := old(db.sessions)[i];
        db.sessions == old(db.sessions)[i := Terminated(row, now)] &&
        db.logs == old(db.logs) + [ClosingLog(old(db.nextLogId), row, now, reason)] &&
        assignedIps == Release(old(assignedIps), row)
    {
      var i := SessionWithToken(db.sessions, token);
      if i.None? {
        return false;
      }
      var row := db.sessions[i.value];
      ReleaseKeepsCoverage(db.sessions, assignedIps, i.value, now);
      assignedIps := Release(assignedIps, row);
      UniqueFirst(db.sessions, SessionId, i.value, HasSessionId(row.id));
      found := sessionRepo.TerminateSession(row.id, now, reason);
    }

    /**
     * terminate_session as written: the row's IP is discarded whether or
     * not the row was still active. The marks stay sound when it was; a
     * closed row's address may meanwhile belong to another active session
     * (ReleaseAsWrittenFreesHeldIp).
     */
    method TerminateSessionAsWritten(token: string, now: int, reason: string := "User logout") returns (found: bool)
      requires Valid()
      modifies this, db
      ensures db.Valid() && ActiveIpsDistinct(db.sessions)
      ensures db.users == old(db.users)
      ensures found <==> SessionWithToken(old(db.sessions), token).Some?
      ensures !found ==> db.sessions == old(db.sessions) && assignedIps == old(assignedIps) && db.logs == old(db.logs)
      ensures found ==>
        var i := SessionWithToken(old(db.sessions), token).value;
        var row := old(db.sessions)[i];
        db.sessions == old(db.sessions)[i := Terminated(row, now)] &&
        db.logs == old(db.logs) + [ClosingLog(old(db.nextLogId), row, now, reason)] &&
        assignedIps == ReleaseAsWritten(old(assignedIps), row) &&
        (row.isActive ==> Valid())
      ensures !found ==> Valid()
    {
      var i := SessionWithToken(db.sessions, token);
      if i.None? {
        return false;
      }
      var row := db.sessions[i.value];
      ReleaseKeepsCoverage(db.sessions, assignedIps, i.value, now);
      assignedIps := ReleaseAsWritten(assignedIps, row);
      UniqueFirst(db.sessions, SessionId, i.value, HasSessionId(row.id));
      found := sessionRepo.TerminateSession(row.id, now, reason);
    }

    /** get_session_by_ip: the first active session holding the address. */
    function GetSessionByIp(ip: string): (r: Option<SessionRecord>)
      reads db
      ensures r.Some? ==> r.value in db.sessions && r.value.isActive && r.value.assignedIp == ip
      ensures r.None? ==> forall s | s in db.sessions && s.isActive :: s.assignedIp != ip
    {
      var active := ActiveSessions(db.sessions);
      match FirstWhere(active, (s: SessionRecord) => s.assignedIp == ip)
      case None =>
        assert forall s | s in db.sessions && s.isActive :: s in active;
        None
      case Some(k) => Some(active[k])
    }

    /**
     * cleanup_expired_sessions: the repository closes the expired
     * sessions and the assigned set is rebuilt from the sessions still
     * active.
     */
    method CleanupExpiredSessions(now: int) returns (count: nat)
      requires Valid()
      modifies this, db
      ensures Valid()
      ensures db.users == old(db.users)
      ensures db.nextUserId == old(db.nextUserId) && db.nextSessionId == old(db.nextSessionId)
      ensures var expired := Filter(old(db.sessions), IsExpiring(now));
        count == |expired| &&
        db.logs == old(db.logs) + ExpiryLogs(expired, old(db.nextLogId), now) &&
        db.nextLogId == old(db.nextLogId) + count
      ensures |db.sessions| == |old(db.sessions)|
      ensures forall j | 0 <= j < |db.sessions| ::
        db.sessions[j] == if IsExpiring(now)(old(db.sessions)[j]) then Terminated(old(db.sessions)[j], now) else old(db.sessions)[j]
      ensures assignedIps == ActiveIps(db.sessions)
      ensures forall s | s in db.sessions :: !IsExpiring(now)(s)
    {
      ghost var rows := db.sessions;
      count := sessionRepo.CleanupExpiredSessions(now);
      assert ActiveIpsDistinct(db.sessions) by {
        forall a, b | 0 <= a < b < |db.sessions| && db.sessions[a].isActive && db.sessions[b].isActive
          ensures db.sessions[a].assignedIp != db.sessions[b].assignedIp
        {
          assert rows[a].assignedIp != rows[b].assignedIp;
        }
      }
      LoadAssignedIps();
    }

    /** get_active_session_count */
    function GetActiveSessionCount(): (r: nat)
      reads this, db
      ensures Valid() ==> r <= |assignedIps|
      ensures r <= |db.sessions|
    {
      ActiveFitWhenValid();
      |ActiveSessions(db.sessions)|
    }

    /** get_statistics: with the marks sound, there are never more active sessions than assigned IPs. */
    function GetStatistics(): (r: AuthStatistics)
      reads this, db
      ensures r.activeSessions == GetActiveSessionCount() && r.assignedIps == |assignedIps|
      ensures Valid() ==> r.activeSessions <= r.assignedIps
    {
      var active := ActiveSessions(db.sessions);
      AuthStatistics(|active|, |assignedIps|, BytesSent(active), BytesReceived(active))
    }

    lemma ActiveFitWhenValid()
      ensures Valid() ==> |ActiveSessions(db.sessions)| <= |assignedIps|
    {
      if Valid() {
        ActiveFit(db.sessions, assignedIps);
      }
    }
  }
}
