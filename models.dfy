/**
 * The three ORM tables (users, sessions, connection_logs) as row values,
 * with the row methods of the ORM classes as functions returning the
 * updated row. Timestamps are integer seconds of a UTC clock.
 */
module Models {
  import opened Common

  const SECONDS_PER_HOUR: int := 3600

  datatype User = User(
    id: int,
    username: string,
    passwordHash: string,
    email: Option<string>,
    isActive: bool,
    isAdmin: bool,
    maxSessions: int,
    bandwidthLimitMb: int,
    createdAt: int,
    lastLogin: Option<int>)

  /** A user row as inserted, with the column defaults for status and limits. */
  function NewUser(id: int, username: string, passwordHash: string, createdAt: int,
                   email: Option<string> := None, isActive: bool := true, isAdmin: bool := false,
                   maxSessions: int := 3, bandwidthLimitMb: int := 0): User
  {
    User(id, username, passwordHash, email, isActive, isAdmin, maxSessions, bandwidthLimitMb, createdAt, None)
  }

  /** A user inserted without the optional columns is active, not an admin, limited to 3 sessions, unmetered. */
  lemma NewUserDefaults(id: int, username: string, passwordHash: string, createdAt: int)
    ensures var u := NewUser(id, username, passwordHash, createdAt);
      u.isActive && !u.isAdmin && u.maxSessions == 3 && u.bandwidthLimitMb == 0 &&
      u.email == None && u.lastLogin == None
  {
  }

  datatype SessionRecord = SessionRecord(
    id: int,
    sessionToken: string,
    userId: int,
    assignedIp: string,
    clientRealIp: Option<string>,
    clientVersion: Option<string>,
    encryptionKey: string,
    isActive: bool,
    bytesSent: int,
    bytesReceived: int,
    packetsSent: int,
    packetsReceived: int,
    createdAt: int,
    lastActivity: int,
    expiresAt: int,
    disconnectedAt: Option<int>)

  /** Session.is_expired */
  predicate IsExpired(s: SessionRecord, now: int) {
    now > s.expiresAt
  }

  /** Session.extend_expiry: the new expiry counts from now, whatever the old one was. */
  function ExtendExpiry(s: SessionRecord, hours: int, now: int): (r: SessionRecord)
    ensures r.(expiresAt := s.expiresAt) == s
  {
    s.(expiresAt := now + hours * SECONDS_PER_HOUR)
  }

  /**
   * After extend_expiry(h) the session is unexpired exactly until h hours
   * from now, and the old expiry plays no part.
   */
  lemma ExtendedExpiry(s: SessionRecord, hours: int, now: int, later: int, oldExpiry: int)
    ensures IsExpired(ExtendExpiry(s, hours, now), later) <==> later > now + hours * SECONDS_PER_HOUR
    ensures ExtendExpiry(s.(expiresAt := oldExpiry), hours, now) == ExtendExpiry(s, hours, now)
    ensures hours >= 0 ==> !IsExpired(ExtendExpiry(s, hours, now), now)
  {
  }

  /** Session.update_activity */
  function UpdateActivity(s: SessionRecord, now: int): (r: SessionRecord)
    ensures r.lastActivity == now && r.(lastActivity := s.lastActivity) == s
  {
    s.(lastActivity := now)
  }

  /** Session.add_traffic: the byte arguments are added and each packet counter goes up by one. */
  function AddTraffic(s: SessionRecord, bytesSent: int, bytesReceived: int): (r: SessionRecord)
    ensures r.(bytesSent := s.bytesSent, bytesReceived := s.bytesReceived,
               packetsSent := s.packetsSent, packetsReceived := s.packetsReceived) == s
  {
    s.(bytesSent := s.bytesSent + bytesSent, bytesReceived := s.bytesReceived + bytesReceived,
       packetsSent := s.packetsSent + 1, packetsReceived := s.packetsReceived + 1)
  }

  /**
   * Traffic accumulates: k updates count k packets each way and add up
   * their byte arguments, and nothing else in the row changes.
   */
  lemma {:induction false} AddTrafficAccumulates(s: SessionRecord, sent: seq<int>, received: seq<int>)
    requires |sent| == |received|
    ensures var r := AddAllTraffic(s, sent, received);
      r.bytesSent == s.bytesSent + Sum(sent) && r.bytesReceived == s.bytesReceived + Sum(received) &&
      r.packetsSent == s.packetsSent + |sent| && r.packetsReceived == s.packetsReceived + |sent| &&
      r.(bytesSent := s.bytesSent, bytesReceived := s.bytesReceived,
         packetsSent := s.packetsSent, packetsReceived := s.packetsReceived) == s
    decreases |sent|
  {
    if sent != [] {
      AddTrafficAccumulates(AddTraffic(s, sent[0], received[0]), sent[1..], received[1..]);
    }
  }

  /** update_traffic's row change applied once per pair, in order. */
  function AddAllTraffic(s: SessionRecord, sent: seq<int>, received: seq<int>): SessionRecord
    requires |sent| == |received|
    decreases |sent|
  {
    if sent == [] then s else AddAllTraffic(AddTraffic(s, sent[0], received[0]), sent[1..], received[1..])
  }

  function Sum(xs: seq<int>): int {
    if xs == [] then 0 else xs[0] + Sum(xs[1..])
  }

  datatype ConnectionLog = ConnectionLog(
    id: int,
    userId: int,
    clientIp: Option<string>,
    assignedIp: Option<string>,
    connectedAt: int,
    disconnectedAt: Option<int>,
    bytesSent: int,
    bytesReceived: int,
    durationSeconds: int,
    disconnectReason: Option<string>)

  /** ConnectionLog.calculate_duration: only a closed log gets a duration. */
  function CalculateDuration(log: ConnectionLog): (r: ConnectionLog)
    ensures log.disconnectedAt.None? ==> r == log
    ensures log.disconnectedAt.Some? ==>
      r == log.(durationSeconds := r.durationSeconds) &&
      r.connectedAt + r.durationSeconds == log.disconnectedAt.value
  {
    if log.disconnectedAt.Some? then log.(durationSeconds := log.disconnectedAt.value - log.connectedAt)
    else log
  }
}
