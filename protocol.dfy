/**
 * Protocol constants and helpers shared by client and server: message,
 * packet and error codes with their names, the version-compatibility test
 * and the mapping between pool indices and client addresses 10.8.0.2-254.
 */
module Protocol {
  import opened Common
  import opened Bytes
  import opened Text
  import opened Exceptions

  const PROTOCOL_VERSION: string := "1.0.0"
  const EXPECTED_MAJOR: int := 1
  const EXPECTED_MINOR: int := 0
  /** "IRVP" */
  const MAGIC_BYTES: seq<Byte> := [0x49, 0x52, 0x56, 0x50]

  const KEY_SIZE: nat := 32
  const NONCE_SIZE: nat := 12
  const TAG_SIZE: nat := 16
  /** The HKDF salt. */
  const KDF_INFO: string := "IranVPN-v1.0"
  const MAX_PACKET_SIZE: nat := 1500
  const REPLAY_WINDOW_SIZE: nat := 64
  const KEEPALIVE_INTERVAL: nat := 15
  const RECONNECT_INITIAL_DELAY: nat := 1
  const RECONNECT_MAX_DELAY: nat := 30
  const RECONNECT_BACKOFF_MULTIPLIER: nat := 2
  const SESSION_TIMEOUT: nat := 86400
  const MAX_SESSIONS_PER_USER: nat := 3

  /** Control message types; the value is the type byte on the wire. */
  datatype MessageType =
    | AuthRequest | AuthResponse | AuthSuccess | AuthFailure
    | SessionCreate | SessionCreated | SessionDestroy | SessionDestroyed
    | ConnectRequest | ConnectAccept | Disconnect
    | Ping | Pong
    | RekeyRequest | RekeyResponse
    | TunnelData
    | ErrorMessage
  {
    function Code(): int {
      match this
      case AuthRequest => 0x01
      case AuthResponse => 0x02
      case AuthSuccess => 0x03
      case AuthFailure => 0x04
      case SessionCreate => 0x10
      case SessionCreated => 0x11
      case SessionDestroy => 0x12
      case SessionDestroyed => 0x13
      case ConnectRequest => 0x20
      case ConnectAccept => 0x21
      case Disconnect => 0x22
      case Ping => 0x30
      case Pong => 0x31
      case RekeyRequest => 0x40
      case RekeyResponse => 0x41
      case TunnelData => 0x50
      case ErrorMessage => 0xFF
    }

    function Name(): string {
      match this
      case AuthRequest => "AUTH_REQUEST"
      case AuthResponse => "AUTH_RESPONSE"
      case AuthSuccess => "AUTH_SUCCESS"
      case AuthFailure => "AUTH_FAILURE"
      case SessionCreate => "SESSION_CREATE"
      case SessionCreated => "SESSION_CREATED"
      case SessionDestroy => "SESSION_DESTROY"
      case SessionDestroyed => "SESSION_DESTROYED"
      case ConnectRequest => "CONNECT_REQUEST"
      case ConnectAccept => "CONNECT_ACCEPT"
      case Disconnect => "DISCONNECT"
      case Ping => "PING"
      case Pong => "PONG"
      case RekeyRequest => "REKEY_REQUEST"
      case RekeyResponse => "REKEY_RESPONSE"
      case TunnelData => "TUNNEL_DATA"
      case ErrorMessage => "ERROR"
    }
  }

  /** `MessageType(code)`: the member with that value, or the ValueError (None). */
  function MessageTypeOf(code: int): (r: Option<MessageType>)
    ensures r.Some? ==> r.value.Code() == code
  {
    match code
    case 0x01 => Some(AuthRequest)
    case 0x02 => Some(AuthResponse)
    case 0x03 => Some(AuthSuccess)
    case 0x04 => Some(AuthFailure)
    case 0x10 => Some(SessionCreate)
    case 0x11 => Some(SessionCreated)
    case 0x12 => Some(SessionDestroy)
    case 0x13 => Some(SessionDestroyed)
    case 0x20 => Some(ConnectRequest)
    case 0x21 => Some(ConnectAccept)
    case 0x22 => Some(Disconnect)
    case 0x30 => Some(Ping)
    case 0x31 => Some(Pong)
    case 0x40 => Some(RekeyRequest)
    case 0x41 => Some(RekeyResponse)
    case 0x50 => Some(TunnelData)
    case 0xFF => Some(ErrorMessage)
    case _ => None
  }

  /** Every message type fits the single type byte, and its code leads back to it. */
  lemma MessageTypeCodes(t: MessageType)
    ensures 0 <= t.Code() < 256
    ensures MessageTypeOf(t.Code()) == Some(t)
  {
  }

  /** Tunnel packet types. */
  datatype PacketType = Control | Data | Keepalive
  {
    function Code(): int {
      match this
      case Control => 0x01
      case Data => 0x02
      case Keepalive => 0x03
    }

    function Name(): string {
      match this
      case Control => "CONTROL"
      case Data => "DATA"
      case Keepalive => "KEEPALIVE"
    }
  }

  function PacketTypeOf(code: int): (r: Option<PacketType>)
    ensures r.Some? ==> r.value.Code() == code
  {
    match code
    case 0x01 => Some(Control)
    case 0x02 => Some(Data)
    case 0x03 => Some(Keepalive)
    case _ => None
  }

  lemma PacketTypeCodes(t: PacketType)
    ensures PacketTypeOf(t.Code()) == Some(t)
  {
  }

  /** Codes carried by ERROR messages. */
  datatype ErrorCode =
    | UnknownError | InvalidMessage | ProtocolVersionMismatchCode
    | AuthFailed | InvalidCredentialsCode | InvalidTokenCode | TokenExpiredCode
    | TooManySessions | UserDisabled
    | SessionNotFoundCode | SessionExpiredCode | SessionLimitReached
    | TunnelCreationFailed | IpAllocationFailed | RoutingErrorCode
    | EncryptionFailed | DecryptionFailed | KeyExchangeFailed | ReplayAttackDetected
    | NetworkErrorCode | ConnectionLostCode | TimeoutCode
    | ServerOverloadedCode | MaintenanceModeCode
  {
    function Code(): int {
      match this
      case UnknownError => 0x00
      case InvalidMessage => 0x01
      case ProtocolVersionMismatchCode => 0x02
      case AuthFailed => 0x10
      case InvalidCredentialsCode => 0x11
      case InvalidTokenCode => 0x12
      case TokenExpiredCode => 0x13
      case TooManySessions => 0x14
      case UserDisabled => 0x15
      case SessionNotFoundCode => 0x20
      case SessionExpiredCode => 0x21
      case SessionLimitReached => 0x22
      case TunnelCreationFailed => 0x30
      case IpAllocationFailed => 0x31
      case RoutingErrorCode => 0x32
      case EncryptionFailed => 0x40
      case DecryptionFailed => 0x41
      case KeyExchangeFailed => 0x42
      case ReplayAttackDetected => 0x43
      case NetworkErrorCode => 0x50
      case ConnectionLostCode => 0x51
      case TimeoutCode => 0x52
      case ServerOverloadedCode => 0x60
      case MaintenanceModeCode => 0x61
    }

    function Name(): string {
      match this
      case UnknownError => "UNKNOWN_ERROR"
      case InvalidMessage => "INVALID_MESSAGE"
      case ProtocolVersionMismatchCode => "PROTOCOL_VERSION_MISMATCH"
      case AuthFailed => "AUTH_FAILED"
      case InvalidCredentialsCode => "INVALID_CREDENTIALS"
      case InvalidTokenCode => "INVALID_TOKEN"
      case TokenExpiredCode => "TOKEN_EXPIRED"
      case TooManySessions => "TOO_MANY_SESSIONS"
      case UserDisabled => "USER_DISABLED"
      case SessionNotFoundCode => "SESSION_NOT_FOUND"
      case SessionExpiredCode => "SESSION_EXPIRED"
      case SessionLimitReached => "SESSION_LIMIT_REACHED"
      case TunnelCreationFailed => "TUNNEL_CREATION_FAILED"
      case IpAllocationFailed => "IP_ALLOCATION_FAILED"
      case RoutingErrorCode => "ROUTING_ERROR"
      case EncryptionFailed => "ENCRYPTION_FAILED"
      case DecryptionFailed => "DECRYPTION_FAILED"
      case KeyExchangeFailed => "KEY_EXCHANGE_FAILED"
      case ReplayAttackDetected => "REPLAY_ATTACK_DETECTED"
      case NetworkErrorCode => "NETWORK_ERROR"
      case ConnectionLostCode => "CONNECTION_LOST"
      case TimeoutCode => "TIMEOUT"
      case ServerOverloadedCode => "SERVER_OVERLOADED"
      case MaintenanceModeCode => "MAINTENANCE_MODE"
    }
  }

  function ErrorCodeOf(code: int): (r: Option<ErrorCode>)
    ensures r.Some? ==> r.value.Code() == code
  {
    match code
    case 0x00 => Some(UnknownError)
    case 0x01 => Some(InvalidMessage)
    case 0x02 => Some(ProtocolVersionMismatchCode)
    case 0x10 => Some(AuthFailed)
    case 0x11 => Some(InvalidCredentialsCode)
    case 0x12 => Some(InvalidTokenCode)
    case 0x13 => Some(TokenExpiredCode)
    case 0x14 => Some(TooManySessions)
    case 0x15 => Some(UserDisabled)
    case 0x20 => Some(SessionNotFoundCode)
    case 0x21 => Some(SessionExpiredCode)
    case 0x22 => Some(SessionLimitReached)
    case 0x30 => Some(TunnelCreationFailed)
    case 0x31 => Some(IpAllocationFailed)
    case 0x32 => Some(RoutingErrorCode)
    case 0x40 => Some(EncryptionFailed)
    case 0x41 => Some(DecryptionFailed)
    case 0x42 => Some(KeyExchangeFailed)
    case 0x43 => Some(ReplayAttackDetected)
    case 0x50 => Some(NetworkErrorCode)
    case 0x51 => Some(ConnectionLostCode)
    case 0x52 => Some(TimeoutCode)
    case 0x60 => Some(ServerOverloadedCode)
    case 0x61 => Some(MaintenanceModeCode)
    case _ => None
  }

  lemma ErrorCodeCodes(c: ErrorCode)
    ensures ErrorCodeOf(c.Code()) == Some(c)
  {
  }

  /** A text ending in ')', as every unknown-code text does and no member name does. */
  predicate EndsInParen(s: string) {
    |s| >= 1 && s[|s| - 1] == ')'
  }

  /** packet_type_to_string: a member name exactly when the code is a packet type. */
  function PacketTypeToString(code: int): (r: string)
    ensures PacketTypeOf(code).Some? <==> !EndsInParen(r)
  {
    match PacketTypeOf(code)
    case Some(t) => t.Name()
    case None => UnknownTextEndsInParen("UNKNOWN(", code); "UNKNOWN(" + IntToString(code) + ")"
  }

  /** message_type_to_string: a member name exactly when the code is a message type. */
  function MessageTypeToString(code: int): (r: string)
    ensures MessageTypeOf(code).Some? <==> !EndsInParen(r)
  {
    match MessageTypeOf(code)
    case Some(t) => MessageNameNoParen(t); t.Name()
    case None => UnknownTextEndsInParen("UNKNOWN(", code); "UNKNOWN(" + IntToString(code) + ")"
  }

  /** error_code_to_string: a member name exactly when the code is an error code. */
  function ErrorCodeToString(code: int): (r: string)
    ensures ErrorCodeOf(code).Some? <==> !EndsInParen(r)
  {
    match ErrorCodeOf(code)
    case Some(c) => ErrorNameNoParen(c); c.Name()
    case None => UnknownTextEndsInParen("UNKNOWN_ERROR(", code); "UNKNOWN_ERROR(" + IntToString(code) + ")"
  }

  /** The text for an unknown code names that code: different codes give different texts. */
  lemma UnknownTextInjective(prefix: string, a: int, b: int)
    requires a != b
    ensures prefix + IntToString(a) + ")" != prefix + IntToString(b) + ")"
  {
    var sa := prefix + IntToString(a) + ")";
    var sb := prefix + IntToString(b) + ")";
    if sa == sb {
      assert IntToString(a) == sa[|prefix|..|sa| - 1];
      assert IntToString(b) == sb[|prefix|..|sb| - 1];
      ParseIntToString(a);
      ParseIntToString(b);
    }
  }

  /** Unknown-code texts end in ')', which no member name does. */
  lemma UnknownTextEndsInParen(prefix: string, code: int)
    ensures var s := prefix + IntToString(code) + ")"; |s| >= 1 && s[|s| - 1] == ')'
  {
  }

  /**
   * `message_type_to_string` loses nothing: distinct codes, known or unknown,
   * are rendered as distinct texts.
   */
  lemma {:induction false} MessageTypeToStringInjective(a: int, b: int)
    requires a != b
    ensures MessageTypeToString(a) != MessageTypeToString(b)
  {
    var oa, ob := MessageTypeOf(a), MessageTypeOf(b);
    if oa.Some? && ob.Some? {
      MessageNamesDistinct(oa.value, ob.value);
    } else if oa.None? && ob.None? {
      UnknownTextInjective("UNKNOWN(", a, b);
    } else if oa.Some? {
      UnknownTextEndsInParen("UNKNOWN(", b);
      MessageNameNoParen(oa.value);
    } else {
      UnknownTextEndsInParen("UNKNOWN(", a);
      MessageNameNoParen(ob.value);
    }
  }

  lemma MessageNameNoParen(t: MessageType)
    ensures |t.Name()| >= 1 && t.Name()[|t.Name()| - 1] != ')'
  {
  }

  lemma ErrorNameNoParen(c: ErrorCode)
    ensures |c.Name()| >= 1 && c.Name()[|c.Name()| - 1] != ')'
  {
  }

  lemma MessageNamesDistinct(s: MessageType, t: MessageType)
    requires s != t
    ensures s.Name() != t.Name()
  {
  }

  lemma ErrorNamesDistinct(s: ErrorCode, t: ErrorCode)
    requires s != t
    ensures s.Name() != t.Name()
  {
  }

  /**
   * `error_code_to_string` loses nothing either, even though the known name
   * "UNKNOWN_ERROR" (code 0) shares its prefix with the unknown-code texts.
   */
  lemma {:induction false} ErrorCodeToStringInjective(a: int, b: int)
    requires a != b
    ensures ErrorCodeToString(a) != ErrorCodeToString(b)
  {
    var oa, ob := ErrorCodeOf(a), ErrorCodeOf(b);
    if oa.Some? && ob.Some? {
      ErrorNamesDistinct(oa.value, ob.value);
    } else if oa.None? && ob.None? {
      UnknownTextInjective("UNKNOWN_ERROR(", a, b);
    } else if oa.Some? {
      UnknownTextEndsInParen("UNKNOWN_ERROR(", b);
      ErrorNameNoParen(oa.value);
    } else {
      UnknownTextEndsInParen("UNKNOWN_ERROR(", a);
      ErrorNameNoParen(ob.value);
    }
  }

  /** The session and network exception classes carry exactly the matching ERROR codes. */
  lemma ExceptionCodesMatchErrorCodes()
    ensures DefaultCode(SessionNotFound) == SessionNotFoundCode.Code()
    ensures DefaultCode(SessionExpired) == SessionExpiredCode.Code()
    ensures DefaultCode(SessionLimit) == SessionLimitReached.Code()
    ensures DefaultCode(Network) == NetworkErrorCode.Code()
    ensures DefaultCode(ConnectionLost) == ConnectionLostCode.Code()
    ensures DefaultCode(Timeout) == TimeoutCode.Code()
    ensures VersionMismatch("", "").errorCode == ProtocolVersionMismatchCode.Code()
  {
  }

  /** The fixed code of every exception class is one of the ERROR codes. */
  lemma ExceptionCodeIsErrorCode(cls: ExceptionClass)
    ensures ErrorCodeOf(DefaultCode(cls)).Some?
  {
    match cls
    case VpnBase =>
    case Authentication =>
    case InvalidCredentials =>
    case InvalidToken =>
    case TokenExpired =>
    case Tunnel =>
    case TunnelCreation =>
    case IpAllocation =>
    case Routing =>
    case Encryption =>
    case Decryption =>
    case KeyExchange =>
    case ReplayAttack =>
    case Network =>
    case ConnectionLost =>
    case Timeout =>
    case Session =>
    case SessionNotFound =>
    case SessionExpired =>
    case SessionLimit =>
    case Protocol =>
    case ProtocolVersionMismatch =>
    case Server =>
    case ServerOverloaded =>
    case MaintenanceMode =>
  }

  // ---------------------------------------------------------------
  // Version compatibility
  // ---------------------------------------------------------------

  /**
   * validate_protocol_version: exactly three integer parts, the same major
   * version and a minor version no newer than ours. Any parse failure is False.
   */
  function ValidateProtocolVersion(version: string): (r: bool)
    ensures r ==> var parts := Split(version, '.');
      |parts| == 3 && ParseInt(parts[0]) == Some(EXPECTED_MAJOR) &&
      ParseInt(parts[1]).Some? && ParseInt(parts[1]).value <= EXPECTED_MINOR && ParseInt(parts[2]).Some?
    ensures (exists i | 0 <= i < |Split(version, '.')| :: ParseInt(Split(version, '.')[i]).None?) ==> !r
  {
    var parts := Split(version, '.');
    if |parts| != 3 then false
    else
      match (ParseInt(parts[0]), ParseInt(parts[1]), ParseInt(parts[2]))
      case (Some(major), Some(minor), Some(_)) => major == EXPECTED_MAJOR && minor <= EXPECTED_MINOR
      case _ => false
  }

  /** The expected major and minor numbers are those of PROTOCOL_VERSION. */
  lemma ExpectedVersionParts()
    ensures Split(PROTOCOL_VERSION, '.') == ["1", "0", "0"]
    ensures ParseInt("1") == Some(EXPECTED_MAJOR) && ParseInt("0") == Some(EXPECTED_MINOR)
  {
    assert Join(["1", "0", "0"], '.') == PROTOCOL_VERSION;
    SplitJoin(["1", "0", "0"], '.');
  }

  /** Any "major.minor.patch" made of integers is accepted iff major = 1 and minor <= 0. */
  lemma VersionAcceptance(major: int, minor: int, patch: int)
    ensures ValidateProtocolVersion(Join([IntToString(major), IntToString(minor), IntToString(patch)], '.'))
            <==> major == EXPECTED_MAJOR && minor <= EXPECTED_MINOR
  {
    var parts := [IntToString(major), IntToString(minor), IntToString(patch)];
    IntStringHasNoDot(major);
    IntStringHasNoDot(minor);
    IntStringHasNoDot(patch);
    SplitJoin(parts, '.');
    ParseIntToString(major);
    ParseIntToString(minor);
    ParseIntToString(patch);
  }

  /** Our own version is compatible with itself. */
  lemma OwnVersionAccepted()
    ensures ValidateProtocolVersion(PROTOCOL_VERSION)
  {
    ExpectedVersionParts();
  }

  // ---------------------------------------------------------------
  // Client address pool 10.8.0.2 .. 10.8.0.254
  // ---------------------------------------------------------------

  /** The address text "10.8.0.<octet>". */
  function ClientAddress(octet: nat): string {
    "10.8.0." + NatToString(octet)
  }

  /**
   * get_next_client_ip as written: indices 0..253 are accepted, so index 253
   * yields "10.8.0.255", outside the pool.
   */
  function GetNextClientIp(clientIndex: int): (r: Result<string, Error>)
    ensures r.Failure? <==> clientIndex < 0 || clientIndex > 253
    ensures r.Failure? ==> r.error.ValueError?
  {
    if clientIndex < 0 || clientIndex > 253 then
      Failure(ValueError("Client index " + IntToString(clientIndex) + " out of range (0-253)"))
    else Success(ClientAddress(clientIndex + 2))
  }

  /** get_next_client_ip with the bound the pool implies: indices 0..252, addresses .2 to .254. */
  function GetClientIp(clientIndex: int): (r: Result<string, Error>)
    ensures r.Failure? <==> clientIndex < 0 || clientIndex > 252
    ensures r.Success? ==> IpToClientIndex(r.value) == Success(clientIndex)
  {
    if clientIndex < 0 || clientIndex > 252 then
      Failure(ValueError("Client index " + IntToString(clientIndex) + " out of range (0-252)"))
    else
      ClientAddressIndex(clientIndex + 2);
      Success(ClientAddress(clientIndex + 2))
  }

  /** ip_to_client_index: the pool index of a client address, or ValueError. */
  function IpToClientIndex(ipAddress: string): (r: Result<int, Error>)
    ensures r.Success? ==> 0 <= r.value <= 252
    ensures r.Failure? ==> r.error.ValueError?
  {
    var parts := Split(ipAddress, '.');
    if |parts| != 4 || parts[..3] != ["10", "8", "0"] then
      Failure(ValueError("Invalid client IP: " + ipAddress))
    else
      match ParseInt(parts[3])
      case None => Failure(ValueError("invalid literal for int() with base 10: '" + parts[3] + "'"))
      case Some(lastOctet) =>
        if lastOctet < 2 || lastOctet > 254 then Failure(ValueError("Invalid client IP: " + ipAddress))
        else Success(lastOctet - 2)
  }

  lemma ClientAddressParts(octet: nat)
    ensures Split(ClientAddress(octet), '.') == ["10", "8", "0", NatToString(octet)]
  {
    var parts := ["10", "8", "0", NatToString(octet)];
    DigitsHaveNoDot(NatToString(octet));
    calc {
      Join(parts, '.');
      "10" + "." + Join(parts[1..], '.');
      { assert parts[1..][1..] == ["0", NatToString(octet)]; }
      "10" + "." + ("8" + "." + Join(["0", NatToString(octet)], '.'));
      "10" + "." + ("8" + "." + ("0" + "." + NatToString(octet)));
      ClientAddress(octet);
    }
    SplitJoin(parts, '.');
  }

  /** The address of a pool octet 2..254 leads back to its index. */
  lemma ClientAddressIndex(octet: nat)
    requires 2 <= octet <= 254
    ensures IpToClientIndex(ClientAddress(octet)) == Success(octet - 2)
  {
    ClientAddressParts(octet);
    ParseIntToString(octet);
    assert IntToString(octet) == NatToString(octet);
  }

  /**
   * Every index get_next_client_ip accepts below 253 round-trips through
   * ip_to_client_index.
   */
  lemma ClientIpRoundTrip(i: int)
    requires 0 <= i <= 252
    ensures GetNextClientIp(i).Success?
    ensures IpToClientIndex(GetNextClientIp(i).value) == Success(i)
  {
    ClientAddressIndex(i + 2);
  }

  /** The last index get_next_client_ip accepts gives an address ip_to_client_index refuses. */
  lemma ClientIpLastIndexRejected()
    ensures GetNextClientIp(253) == Success("10.8.0.255")
    ensures IpToClientIndex(GetNextClientIp(253).value).Failure?
  {
    assert NatToString(255) == "255" by {
      assert NatToString(2) == "2";
      assert NatToString(25) == "25";
    }
    assert ClientAddress(255) == "10.8.0.255";
    ClientAddressParts(255);
    ParseIntToString(255);
    assert IntToString(255) == "255";
  }

  /**
   * The other direction: every address ip_to_client_index accepts has an
   * index that the bounded pool maps to an address with the same index.
   */
  lemma ClientIndexRoundTrip(ip: string)
    requires IpToClientIndex(ip).Success?
    ensures GetClientIp(IpToClientIndex(ip).value).Success?
    ensures IpToClientIndex(GetClientIp(IpToClientIndex(ip).value).value) == IpToClientIndex(ip)
  {
  }

  /**
   * An accepted address is rebuilt exactly from its index precisely when it
   * is written canonically, "10.8.0." and the octet's decimal digits; a
   * form such as "10.8.0.05" keeps only its index.
   */
  lemma CanonicalAddressRebuilt(ip: string)
    requires IpToClientIndex(ip).Success?
    ensures GetClientIp(IpToClientIndex(ip).value) == Success(ip) <==> exists octet: nat :: ip == ClientAddress(octet)
  {
    var i := IpToClientIndex(ip).value;
    if octet: nat :| ip == ClientAddress(octet) {
      ClientAddressParts(octet);
      ParseIntToString(octet);
      assert IntToString(octet) == NatToString(octet);
      assert i == octet - 2;
    } else {
      assert GetClientIp(i) == Success(ClientAddress(i + 2));
    }
  }
}
