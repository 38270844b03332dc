/**
 * The server's in-memory session table: ClientSession objects indexed by
 * session token and by assigned address. The asyncio lock is dropped (the
 * model is sequential); the clock is an integer parameter.
 */
module SessionManager {
  import opened Common
  import opened Bytes

  class ClientSession {
    const sessionId: int
    const sessionToken: string
    const userId: int
    const assignedIp: string
    const clientIp: string
    const connectedAt: int
    var lastActivity: int
    var isActive: bool
    var bytesSent: int
    var bytesReceived: int
    /** The stream writer has been closed. */
    var writerClosed: bool

    constructor (sessionId: int, sessionToken: string, userId: int, assignedIp: string, clientIp: string, now: int)
      ensures this.sessionId == sessionId && this.sessionToken == sessionToken && this.userId == userId
      ensures this.assignedIp == assignedIp && this.clientIp == clientIp
      ensures connectedAt == now && lastActivity == now && isActive && !writerClosed
      ensures bytesSent == 0 && bytesReceived == 0
    {
      this.sessionId := sessionId;
      this.sessionToken := sessionToken;
      this.userId := userId;
      this.assignedIp := assignedIp;
      this.clientIp := clientIp;
      connectedAt := now;
      lastActivity := now;
      isActive := true;
      bytesSent := 0;
      bytesReceived := 0;
      writerClosed := false;
    }

    method UpdateActivity(now: int)
      modifies this
      ensures lastActivity == now
      ensures isActive == old(isActive) && writerClosed == old(writerClosed)
      ensures bytesSent == old(bytesSent) && bytesReceived == old(bytesReceived)
    {
      lastActivity := now;
    }

    /** add_traffic: exactly the given amounts are added. */
    method AddTraffic(sent: int, received: int)
      modifies this
      ensures bytesSent == old(bytesSent) + sent && bytesReceived == old(bytesReceived) + received
      ensures lastActivity == old(lastActivity) && isActive == old(isActive) && writerClosed == old(writerClosed)
    {
      bytesSent := bytesSent + sent;
      bytesReceived := bytesReceived + received;
    }

    /** send_data: the written bytes are counted and the session is active now. */
    method SendData(data: seq<Byte>, now: int)
      modifies this
      ensures bytesSent == old(bytesSent) + |data| && bytesReceived == old(bytesReceived)
      ensures lastActivity == now && isActive == old(isActive) && writerClosed == old(writerClosed)
    {
      bytesSent := bytesSent + |data|;
      UpdateActivity(now);
    }

    /**
     * recv_data on what the reader returned (None: it raised): an empty or
     * failed read yields None and changes nothing.
     */
    method RecvData(read: Option<seq<Byte>>, now: int) returns (data: Option<seq<Byte>>)
      modifies this
      ensures data.Some? <==> read.Some? && read.value != []
      ensures data.Some? ==>
        data == read && bytesReceived == old(bytesReceived) + |read.value| && lastActivity == now
      ensures data.None? ==> bytesReceived == old(bytesReceived) && lastActivity == old(lastActivity)
      ensures bytesSent == old(bytesSent) && isActive == old(isActive) && writerClosed == old(writerClosed)
    {
      if read.None? || read.value == [] {
        return None;
      }
      bytesReceived := bytesReceived + |read.value|;
      UpdateActivity(now);
      data := read;
    }

    /** get_statistics' uptime: whole seconds since the session was created. */
    method UptimeSeconds(now: int) returns (uptime: int)
      ensures uptime == now - connectedAt
    {
      uptime := now - connectedAt;
    }

    /** close: the writer is closed and the session is no longer active. */
    method Close()
      modifies this
      ensures !isActive && writerClosed
      ensures lastActivity == old(lastActivity) && bytesSent == old(bytesSent) && bytesReceived == old(bytesReceived)
    {
      writerClosed := true;
      isActive := false;
    }
  }

  /** Bytes sent (or received) by one session. */
  function Traffic(s: ClientSession, sent: bool): int
    reads s
  {
    if sent then s.bytesSent else s.bytesReceived
  }

  /** The sum of one traffic counter over the sessions under `keys`. */
  ghost function Total(m: map<string, ClientSession>, keys: set<string>, sent: bool): int
    requires keys <= m.Keys
    reads m.Values
    decreases keys
  {
    if keys == {} then 0
    else
      var k :| k in keys;
      Traffic(m[k], sent) + Total(m, keys - {k}, sent)
  }

  /** The sum does not depend on which key is taken first. */
  lemma {:induction false} TotalRemove(m: map<string, ClientSession>, keys: set<string>, sent: bool, k: string)
    requires keys <= m.Keys && k in keys
    ensures Total(m, keys, sent) == Traffic(m[k], sent) + Total(m, keys - {k}, sent)
    decreases keys
  {
    var j :| j in keys && Total(m, keys, sent) == Traffic(m[j], sent) + Total(m, keys - {j}, sent);
    if j != k {
      TotalRemove(m, keys - {j}, sent, k);
      TotalRemove(m, keys - {k}, sent, j);
      assert keys - {j} - {k} == keys - {k} - {j};
    }
  }

  class Manager {
    /** token -> session */
    var sessions: map<string, ClientSession>
    /** assigned address -> session */
    var sessionsByIp: map<string, ClientSession>

    /** Each index files a session under its own token and its own address. */
    predicate Valid()
      reads this
    {
      (forall t | t in sessions :: sessions[t].sessionToken == t) &&
      (forall ip | ip in sessionsByIp :: sessionsByIp[ip].assignedIp == ip)
    }

    /**
     * The address index agrees with the token table: every session is
     * filed under its address, and every filed address belongs to a live
     * session. It holds as long as assigned addresses are unique.
     */
    predicate Consistent()
      reads this
    {
      Valid() &&
      (forall t | t in sessions :: sessions[t].assignedIp in sessionsByIp && sessionsByIp[sessions[t].assignedIp] == sessions[t]) &&
      (forall ip | ip in sessionsByIp :: sessionsByIp[ip].sessionToken in sessions && sessions[sessionsByIp[ip].sessionToken] == sessionsByIp[ip])
    }

    constructor ()
      ensures sessions == map[] && sessionsByIp == map[]
      ensures Consistent()
    {
      sessions := map[];
      sessionsByIp := map[];
    }

    /**
     * add_session: the session is filed under its token and its address,
     * overwriting whatever was there. Agreement survives when the token is
     * new and no other session holds the address.
     */
    method AddSession(session: ClientSession)
      requires Valid()
      modifies this
      ensures Valid()
      ensures sessions == old(sessions)[session.sessionToken := session]
      ensures sessionsByIp == old(sessionsByIp)[session.assignedIp := session]
      ensures old(Consistent()) && session.sessionToken !in old(sessions) && session.assignedIp !in old(sessionsByIp)
        ==> Consistent()
    {
      sessions := sessions[session.sessionToken := session];
      sessionsByIp := sessionsByIp[session.assignedIp := session];
    }

    /**
     * remove_session: a present token is deleted together with its
     * address key, and its session is closed and returned; an absent token
     * returns None and changes nothing.
     */
    method RemoveSession(sessionToken: string) returns (removed: Option<ClientSession>)
      requires Valid()
      modifies this, sessions.Values
      ensures Valid()
      ensures sessionToken !in old(sessions) ==>
        removed == None && sessions == old(sessions) && sessionsByIp == old(sessionsByIp)
      ensures sessionToken in old(sessions) ==>
        removed == Some(old(sessions)[sessionToken]) &&
        sessions == old(sessions) - {sessionToken} &&
        sessionsByIp == old(sessionsByIp) - {old(sessions)[sessionToken].assignedIp} &&
        !removed.value.isActive && removed.value.writerClosed
      ensures forall t | t in old(sessions) && t != sessionToken :: unchanged(old(sessions)[t])
      ensures old(Consistent()) ==> Consistent()
    {
      if sessionToken !in sessions {
        return None;
      }
      var session := sessions[sessionToken];
      sessions := sessions - {sessionToken};
      sessionsByIp := sessionsByIp - {session.assignedIp};
      session.Close();
      removed := Some(session);
    }

    method GetSession(sessionToken: string) returns (session: Option<ClientSession>)
      ensures session == if sessionToken in sessions then Some(sessions[sessionToken]) else None
    {
      session := if sessionToken in sessions then Some(sessions[sessionToken]) else None;
    }

    method GetSessionByIp(ipAddress: string) returns (session: Option<ClientSession>)
      ensures session == if ipAddress in sessionsByIp then Some(sessionsByIp[ipAddress]) else None
    {
      session := if ipAddress in sessionsByIp then Some(sessionsByIp[ipAddress]) else None;
    }

    method GetSessionCount() returns (count: nat)
      ensures count == |sessions|
    {
      count := |sessions|;
    }

    /** The tokens cleanup_inactive_sessions picks: idle longer than the timeout, or no longer active. */
    function StaleTokens(now: int, timeoutSeconds: int): (stale: set<string>)
      reads this, sessions.Values
      ensures stale <= sessions.Keys
    {
      set t | t in sessions && (now - sessions[t].lastActivity > timeoutSeconds || !sessions[t].isActive)
    }

    /**
     * cleanup_inactive_sessions: exactly the stale sessions are removed
     * (and closed), their number is returned, and the rest stay as they were.
     */
    method CleanupInactiveSessions(now: int, timeoutSeconds: int := 300) returns (count: nat)
      requires Valid()
      modifies this, sessions.Values
      ensures Valid()
      ensures count == |old(StaleTokens(now, timeoutSeconds))|
      ensures sessions == old(sessions) - old(StaleTokens(now, timeoutSeconds))
      ensures forall t | t in old(StaleTokens(now, timeoutSeconds)) :: !old(sessions)[t].isActive
      ensures forall t | t in sessions :: sessions[t] == old(sessions)[t] && unchanged(sessions[t])
      ensures old(Consistent()) ==> Consistent()
    {
      var toRemove := CollectStale(now, timeoutSeconds);
      RemoveAll(toRemove);
      count := |toRemove|;
    }

    /** The first pass of cleanup_inactive_sessions: the stale tokens, each once. */
    method CollectStale(now: int, timeoutSeconds: int) returns (toRemove: seq<string>)
      ensures forall j, k | 0 <= j < k < |toRemove| :: toRemove[j] != toRemove[k]
      ensures (set j | 0 <= j < |toRemove| :: toRemove[j]) == StaleTokens(now, timeoutSeconds)
      ensures |toRemove| == |StaleTokens(now, timeoutSeconds)|
    {
      ghost var stale := StaleTokens(now, timeoutSeconds);
      toRemove := [];
      var remaining := sessions.Keys;
      while remaining != {}
        invariant remaining <= sessions.Keys
        invariant forall j | 0 <= j < |toRemove| :: toRemove[j] in stale && toRemove[j] !in remaining
        invariant forall t | t in stale && t !in remaining :: t in toRemove
        invariant forall j, k | 0 <= j < k < |toRemove| :: toRemove[j] != toRemove[k]
        decreases remaining
      {
        var token :| token in remaining;
        var session := sessions[token];
        if now - session.lastActivity > timeoutSeconds || !session.isActive {
          toRemove := toRemove + [token];
        }
        remaining := remaining - {token};
      }
      DistinctCardinality(toRemove, stale);
    }

    /** The second pass of cleanup_inactive_sessions: remove (and close) each listed session. */
    method RemoveAll(toRemove: seq<string>)
      requires Valid()
      requires forall j, k | 0 <= j < k < |toRemove| :: toRemove[j] != toRemove[k]
      requires forall j | 0 <= j < |toRemove| :: toRemove[j] in sessions
      modifies this, sessions.Values
      ensures Valid()
      ensures sessions == old(sessions) - (set j | 0 <= j < |toRemove| :: toRemove[j])
      ensures forall j | 0 <= j < |toRemove| :: !old(sessions)[toRemove[j]].isActive
      ensures forall t | t in sessions :: sessions[t] == old(sessions)[t] && unchanged(sessions[t])
      ensures old(Consistent()) ==> Consistent()
    {
      ghost var sessions0 := sessions;
      var i := 0;
      while i < |toRemove|
        invariant 0 <= i <= |toRemove|
        invariant Valid()
        invariant old(Consistent()) ==> Consistent()
        invariant sessions == sessions0 - (set j | 0 <= j < i :: toRemove[j])
        invariant sessions.Values <= sessions0.Values
        invariant forall j | 0 <= j < i :: !sessions0[toRemove[j]].isActive
        invariant forall t | t in sessions :: unchanged(sessions[t])
      {
        var token := toRemove[i];
        assert token in sessions by {
          assert forall j | 0 <= j < i :: toRemove[j] != token;
        }
        var _ := RemoveSession(token);
        assert (set j | 0 <= j < i + 1 :: toRemove[j]) == (set j | 0 <= j < i :: toRemove[j]) + {token};
        i := i + 1;
      }
    }

    /** get_statistics: the session count and the byte totals over all sessions. */
    method GetStatistics() returns (activeSessions: nat, totalBytesSent: int, totalBytesReceived: int)
      ensures activeSessions == |sessions|
      ensures totalBytesSent == Total(sessions, sessions.Keys, true)
      ensures totalBytesReceived == Total(sessions, sessions.Keys, false)
    {
      totalBytesSent := 0;
      totalBytesReceived := 0;
      var remaining := sessions.Keys;
      while remaining != {}
        invariant remaining <= sessions.Keys
        invariant totalBytesSent + Total(sessions, remaining, true) == Total(sessions, sessions.Keys, true)
        invariant totalBytesReceived + Total(sessions, remaining, false) == Total(sessions, sessions.Keys, false)
        decreases remaining
      {
        var token :| token in remaining;
        TotalRemove(sessions, remaining, true, token);
        TotalRemove(sessions, remaining, false, token);
        totalBytesSent := totalBytesSent + sessions[token].bytesSent;
        totalBytesReceived := totalBytesReceived + sessions[token].bytesReceived;
        remaining := remaining - {token};
      }
      activeSessions := |sessions|;
    }
  }

  /** A repetition-free list holding exactly the members of a set is as long as the set is large. */
  lemma {:induction false} DistinctCardinality<T>(s: seq<T>, members: set<T>)
    requires forall j, k | 0 <= j < k < |s| :: s[j] != s[k]
    requires forall j | 0 <= j < |s| :: s[j] in members
    requires forall x | x in members :: x in s
    ensures |members| == |s|
    ensures (set j | 0 <= j < |s| :: s[j]) == members
  {
    if s == [] {
      assert members == {};
    } else {
      var last := s[|s| - 1];
      var init := s[..|s| - 1];
      DistinctCardinality(init, members - {last});
      assert (set j | 0 <= j < |s| :: s[j]) == (set j | 0 <= j < |init| :: init[j]) + {last};
    }
  }
}
