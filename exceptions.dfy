/**
 * The exception taxonomy of the VPN system: every error class carries a
 * message and a numeric error code, and each concrete class fixes its code
 * whatever message it is given.
 */
module Exceptions {
  import opened Common
  import opened Text

  /** The classes of the hierarchy rooted at VPNException. */
  datatype ExceptionClass =
    | VpnBase
    | Authentication | InvalidCredentials | InvalidToken | TokenExpired
    | Tunnel | TunnelCreation | IpAllocation | Routing
    | Encryption | Decryption | KeyExchange | ReplayAttack
    | Network | ConnectionLost | Timeout
    | Session | SessionNotFound | SessionExpired | SessionLimit
    | Protocol | ProtocolVersionMismatch
    | Server | ServerOverloaded | MaintenanceMode
  {
    /** The direct base class (VPNException is its own). */
    function Parent(): ExceptionClass {
      match this
      case VpnBase => VpnBase
      case Authentication | Tunnel | Encryption | Network | Session | Protocol | Server => VpnBase
      case InvalidCredentials | InvalidToken | TokenExpired => Authentication
      case TunnelCreation | IpAllocation | Routing => Tunnel
      case Decryption | KeyExchange | ReplayAttack => Encryption
      case ConnectionLost | Timeout => Network
      case SessionNotFound | SessionExpired | SessionLimit => Session
      case ProtocolVersionMismatch => Protocol
      case ServerOverloaded | MaintenanceMode => Server
    }

    /** `issubclass(this, base)`: the hierarchy is at most two levels below the root. */
    predicate IsSubclassOf(base: ExceptionClass) {
      this == base || Parent() == base || Parent().Parent() == base
    }

    /** The family bases accept a caller-chosen code; the concrete classes fix theirs. */
    predicate TakesCode() {
      this in {VpnBase, Authentication, Tunnel, Encryption, Network, Session, Protocol, Server}
    }
  }

  /** An instance: `message` and `error_code` as set by the constructor. */
  datatype VpnException = VpnException(cls: ExceptionClass, message: string, errorCode: int)

  /** The default message of each class's constructor. */
  function DefaultMessage(cls: ExceptionClass): string
    requires cls != VpnBase && cls != ProtocolVersionMismatch
  {
    match cls
    case Authentication => "Authentication failed"
    case InvalidCredentials => "Invalid credentials"
    case InvalidToken => "Invalid session token"
    case TokenExpired => "Session token expired"
    case Tunnel => "Tunnel error"
    case TunnelCreation => "Failed to create tunnel interface"
    case IpAllocation => "Failed to allocate IP address"
    case Routing => "Routing configuration failed"
    case Encryption => "Encryption error"
    case Decryption => "Decryption failed"
    case KeyExchange => "Key exchange failed"
    case ReplayAttack => "Replay attack detected"
    case Network => "Network error"
    case ConnectionLost => "Connection lost"
    case Timeout => "Operation timed out"
    case Session => "Session error"
    case SessionNotFound => "Session not found"
    case SessionExpired => "Session expired"
    case SessionLimit => "Session limit reached"
    case Protocol => "Protocol error"
    case Server => "Server error"
    case ServerOverloaded => "Server is overloaded, please try again later"
    case MaintenanceMode => "Server is in maintenance mode"
  }

  /** The code each constructor passes up when the caller gives none. */
  function DefaultCode(cls: ExceptionClass): int {
    match cls
    case VpnBase => 0
    case Authentication => 0x10
    case InvalidCredentials => 0x11
    case InvalidToken => 0x12
    case TokenExpired => 0x13
    case Tunnel => 0x30
    case TunnelCreation => 0x30
    case IpAllocation => 0x31
    case Routing => 0x32
    case Encryption => 0x40
    case Decryption => 0x41
    case KeyExchange => 0x42
    case ReplayAttack => 0x43
    case Network => 0x50
    case ConnectionLost => 0x51
    case Timeout => 0x52
    case Session => 0x20
    case SessionNotFound => 0x20
    case SessionExpired => 0x21
    case SessionLimit => 0x22
    case Protocol => 0x01
    case ProtocolVersionMismatch => 0x02
    case Server => 0x60
    case ServerOverloaded => 0x60
    case MaintenanceMode => 0x61
  }

  /** The code block (high nibble) reserved for each family of the hierarchy. */
  function FamilyBlock(cls: ExceptionClass): int {
    if cls.IsSubclassOf(Authentication) then 1
    else if cls.IsSubclassOf(Session) then 2
    else if cls.IsSubclassOf(Tunnel) then 3
    else if cls.IsSubclassOf(Encryption) then 4
    else if cls.IsSubclassOf(Network) then 5
    else if cls.IsSubclassOf(Server) then 6
    else 0
  }

  /**
   * `Cls(message)` for every class but the root and the version mismatch:
   * the message defaults per class and the code is the class's own.
   */
  function Raise(cls: ExceptionClass, message: Option<string> := None): (e: VpnException)
    requires cls != VpnBase && cls != ProtocolVersionMismatch
    ensures e.cls == cls
    ensures message.Some? ==> e.message == message.value
    ensures message.None? ==> e.message == DefaultMessage(cls)
  {
    VpnException(cls, if message.Some? then message.value else DefaultMessage(cls), DefaultCode(cls))
  }

  /**
   * The code of every concrete class lies in its family's block: its high
   * nibble names the family, and no class raises with code 0.
   */
  lemma RaisedCodeInFamilyBlock(cls: ExceptionClass, message: Option<string>)
    requires cls != VpnBase && cls != ProtocolVersionMismatch
    ensures Raise(cls, message).errorCode / 16 == FamilyBlock(cls)
    ensures Raise(cls, message).errorCode != 0
  {
  }

  /** `Base(message, error_code)` for the root and the family bases, which accept any code. */
  function RaiseWithCode(cls: ExceptionClass, message: string, errorCode: int): (e: VpnException)
    requires cls.TakesCode()
    ensures e.cls == cls && e.message == message && e.errorCode == errorCode
  {
    VpnException(cls, message, errorCode)
  }

  /** ProtocolVersionMismatchError(client_version, server_version). */
  function VersionMismatch(clientVersion: string, serverVersion: string): (e: VpnException)
    ensures e.cls.IsSubclassOf(Protocol) && e.errorCode == 0x02
    ensures e.message == "Protocol version mismatch: client=" + clientVersion + ", server=" + serverVersion
  {
    VpnException(ProtocolVersionMismatch,
      "Protocol version mismatch: client=" + clientVersion + ", server=" + serverVersion, 0x02)
  }

  /** `str(e)`: the message, prefixed with "[Code n] " when the code is not zero. */
  function Str(e: VpnException): string {
    if e.errorCode != 0 then "[Code " + IntToString(e.errorCode) + "] " + e.message else e.message
  }

  /** The message is always the tail of `str(e)`, and a zero code adds nothing. */
  lemma StrEndsWithMessage(e: VpnException)
    ensures |Str(e)| >= |e.message|
    ensures Str(e)[|Str(e)| - |e.message|..] == e.message
    ensures e.errorCode == 0 <==> Str(e) == e.message
  {
    if e.errorCode != 0 {
      var prefix := "[Code " + IntToString(e.errorCode) + "] ";
      assert Str(e) == prefix + e.message;
      assert |Str(e)| > |e.message|;
    }
  }

  /** A non-zero code can be read back from `str(e)`: the prefix carries it in decimal. */
  lemma StrCarriesCode(e: VpnException)
    requires e.errorCode != 0
    ensures var n := |IntToString(e.errorCode)|;
      |Str(e)| >= 8 + n && Str(e)[..6] == "[Code " &&
      ParseInt(Str(e)[6..6 + n]) == Some(e.errorCode) && Str(e)[6 + n..8 + n] == "] "
  {
    var digits := IntToString(e.errorCode);
    var s := Str(e);
    assert s == "[Code " + digits + "] " + e.message;
    assert s[6..6 + |digits|] == digits;
    ParseIntToString(e.errorCode);
  }

  /** The concrete classes keep their family's code whatever message they are given. */
  lemma FamilyCodes(m: Option<string>)
    ensures Raise(InvalidCredentials, m).errorCode == 0x11
    ensures Raise(InvalidToken, m).errorCode == 0x12
    ensures Raise(TokenExpired, m).errorCode == 0x13
    ensures Raise(Decryption, m).errorCode == 0x41
    ensures Raise(KeyExchange, m).errorCode == 0x42
    ensures Raise(ReplayAttack, m).errorCode == 0x43
  {
  }

  /** Every authentication error raises with a code in 0x10..0x13. */
  lemma AuthenticationCodes(cls: ExceptionClass, m: Option<string>)
    requires cls.IsSubclassOf(Authentication)
    ensures 0x10 <= Raise(cls, m).errorCode <= 0x13
  {
  }

  /** Every encryption error raises with a code in 0x40..0x43. */
  lemma EncryptionCodes(cls: ExceptionClass, m: Option<string>)
    requires cls.IsSubclassOf(Encryption)
    ensures 0x40 <= Raise(cls, m).errorCode <= 0x43
  {
  }

  /** The Python built-in exceptions the modelled code raises, and the VPN ones. */
  datatype Error =
    | Vpn(exc: VpnException)
    | ValueError(msg: string)
    | RuntimeError(msg: string)
    | TypeError(msg: string)
    | IntegrityError(msg: string)

  /** `str(e)` for any raised exception. */
  function ErrorStr(err: Error): string {
    match err
    case Vpn(e) => Str(e)
    case ValueError(m) => m
    case RuntimeError(m) => m
    case TypeError(m) => m
    case IntegrityError(m) => m
  }
}
