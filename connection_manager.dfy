/**
 * ConnectionManager: the client's connection state machine. The tunnel
 * client is reduced to whether one exists and the address it was assigned;
 * what its awaited connect, disconnect and send do is an input; the UTC
 * clock is an integer parameter; callbacks are recorded in order.
 */
module ConnectionManager {
  import opened Common
  import opened Text
  import opened Values

  datatype ConnectionState = Disconnected | Connecting | Authenticating | Connected | Reconnecting | Disconnecting | Error

  /** What the awaited tunnel_client.connect() did. */
  datatype TunnelConnect =
    | Established(assignedIp: Option<string>)   // returned True, with the address it was given (if any)
    | Refused                                   // returned False
    | Raised(message: string)                   // raised; message is str(e)

  /** An optional text that Python treats as true: present and non-empty. */
  predicate NonEmpty(s: Option<string>) {
    s.Some? && s.value != ""
  }

  /** The address is usable only when it is a non-empty text. */
  predicate HasAddress(ip: Option<string>) {
    NonEmpty(ip)
  }

  /** What on_error receives for an error text: the text itself, unless it is missing or empty. */
  function Notified(error: Option<string>): (r: seq<string>)
    ensures |r| <= 1
    ensures r != [] <==> NonEmpty(error)
    ensures r != [] ==> r[0] == error.value
  {
    if NonEmpty(error) then [error.value] else []
  }

  /** `f"{x}"` of an optional string: None prints as "None". */
  function Show(s: Option<string>): string {
    if s.Some? then s.value else "None"
  }

  /** The hours and leftover whole minutes of an uptime in seconds, as floor division. */
  function UptimeParts(uptime: int): (hm: (int, int)) {
    (uptime / 3600, (uptime % 3600) / 60)
  }

  /** For a non-negative uptime the parts are the whole hours and the minutes below 60 that remain. */
  lemma UptimePartsMeaning(uptime: int)
    requires uptime >= 0
    ensures var (hours, minutes) := UptimeParts(uptime);
      0 <= minutes < 60 && hours >= 0 &&
      hours * 3600 + minutes * 60 <= uptime < hours * 3600 + minutes * 60 + 60
  {
    var hours := uptime / 3600;
    var rest := uptime % 3600;
    assert uptime == hours * 3600 + rest && 0 <= rest < 3600;
    var minutes := rest / 60;
    assert rest == minutes * 60 + rest % 60 && 0 <= rest % 60 < 60;
  }

  /** get_status_summary's text (Persian, as the UI shows it). */
  function StatusSummary(state: ConnectionState, ip: Option<string>, connectTime: Option<int>,
                         errorMessage: Option<string>, now: int): string
  {
    match state
    case Connected =>
      if connectTime.Some? then
        var (hours, minutes) := UptimeParts(now - connectTime.value);
        "متصل • IP: " + Show(ip) + " • مدت: " + IntToString(hours) + "h " + IntToString(minutes) + "m"
      else "متصل • IP: " + Show(ip)
    case Connecting => "در حال اتصال..."
    case Authenticating => "در حال احراز هویت..."
    case Reconnecting => "در حال اتصال مجدد..."
    case Disconnecting => "در حال قطع اتصال..."
    case Error => "خطا: " + Show(errorMessage)
    case Disconnected => "قطع شده"
  }

  /**
   * The error connect records for an outcome: "Connection failed" when the
   * tunnel refused, the raised text, "No assigned IP" when the tunnel came
   * up without an address, and none on success.
   */
  function ErrorText(outcome: TunnelConnect): (r: Option<string>)
    ensures r.None? <==> outcome.Established? && HasAddress(outcome.assignedIp)
  {
    match outcome
    case Refused => Some("Connection failed")
    case Raised(message) => Some(message)
    case Established(ip) => if HasAddress(ip) then None else Some("No assigned IP")
  }

  /** The states connect announces after the awaited tunnel connect. */
  function ConcludingStates(outcome: TunnelConnect): seq<ConnectionState> {
    match outcome
    case Established(ip) => if HasAddress(ip) then [Connected] else [Connected, Error]
    case _ => [Error]
  }

  datatype ConnectionStatistics = ConnectionStatistics(
    state: ConnectionState, error: Option<string>, connectionAttempts: nat, successfulConnections: nat,
    connectTime: Option<int>, uptimeSeconds: Option<int>, disconnectTime: Option<int>)

  class Manager {
    const config: map<string, Value>
    var state: ConnectionState
    var errorMessage: Option<string>
    /** A TunnelClient exists. */
    var hasTunnel: bool
    /** The tunnel client's assigned_ip. */
    var tunnelIp: Option<string>
    /** Whether enable_auto_reconnect() was called on the current tunnel client. */
    var tunnelAutoReconnect: bool
    var connectTime: Option<int>
    var disconnectTime: Option<int>
    var connectionAttempts: nat
    var successfulConnections: nat
    /** Every state passed to on_state_change, in order. */
    var stateLog: seq<ConnectionState>
    /** Every message passed to on_error, in order. */
    var errorLog: seq<string>
    /** Every address passed to on_ip_assigned, in order. */
    var ipLog: seq<string>

    /** A new manager is DISCONNECTED, with no tunnel client and no attempts. */
    constructor (config: map<string, Value>)
      ensures this.config == config
      ensures state == Disconnected && errorMessage == None && !hasTunnel && tunnelIp == None
      ensures !tunnelAutoReconnect && connectTime == None && disconnectTime == None
      ensures connectionAttempts == 0 && successfulConnections == 0
      ensures stateLog == [] && errorLog == [] && ipLog == []
    {
      this.config := config;
      state := Disconnected;
      errorMessage := None;
      hasTunnel := false;
      tunnelIp := None;
      tunnelAutoReconnect := false;
      connectTime := None;
      disconnectTime := None;
      connectionAttempts := 0;
      successfulConnections := 0;
      stateLog := [];
      errorLog := [];
      ipLog := [];
    }

    /**
     * _set_state: records the error message given (clearing it when none
     * is), notifies the new state, and notifies a non-empty error.
     */
    method SetState(newState: ConnectionState, error: Option<string> := None)
      modifies this
      ensures state == newState && errorMessage == error
      ensures stateLog == old(stateLog) + [newState]
      ensures errorLog == old(errorLog) + Notified(error)
      ensures hasTunnel == old(hasTunnel) && tunnelIp == old(tunnelIp) && tunnelAutoReconnect == old(tunnelAutoReconnect)
      ensures connectTime == old(connectTime) && disconnectTime == old(disconnectTime)
      ensures connectionAttempts == old(connectionAttempts) && successfulConnections == old(successfulConnections)
      ensures ipLog == old(ipLog)
    {
      state := newState;
      errorMessage := error;
      stateLog := stateLog + [newState];
      errorLog := errorLog + Notified(error);
    }

    /**
     * connect: refused (False, nothing changed) unless DISCONNECTED or
     * ERROR; otherwise it is an attempt, as Attempt states.
     */
    method Connect(outcome: TunnelConnect, now: int) returns (ok: bool)
      modifies this
      ensures old(state) != Disconnected && old(state) != Error ==>
        !ok && state == old(state) && errorMessage == old(errorMessage) &&
        hasTunnel == old(hasTunnel) && tunnelIp == old(tunnelIp) &&
        connectionAttempts == old(connectionAttempts) && successfulConnections == old(successfulConnections) &&
        connectTime == old(connectTime) && stateLog == old(stateLog) && errorLog == old(errorLog) && ipLog == old(ipLog) &&
        tunnelAutoReconnect == old(tunnelAutoReconnect)
      ensures old(state) == Disconnected || old(state) == Error ==>
        connectionAttempts == old(connectionAttempts) + 1 && hasTunnel &&
        tunnelAutoReconnect == Truthy(Get(config, "auto_reconnect", Bool(true))) &&
        (ok <==> outcome.Established? && HasAddress(outcome.assignedIp)) &&
        state == (if ok then Connected else Error) &&
        ipLog == old(ipLog) + (if ok then [outcome.assignedIp.value] else []) &&
        successfulConnections == old(successfulConnections) + (if outcome.Established? then 1 else 0) &&
        connectTime == (if outcome.Established? then Some(now) else old(connectTime)) &&
        tunnelIp == (if outcome.Established? then outcome.assignedIp else None) &&
        errorMessage == ErrorText(outcome) &&
        errorLog == old(errorLog) + Notified(ErrorText(outcome)) &&
        stateLog == old(stateLog) + [Connecting, Authenticating] + ConcludingStates(outcome)
      ensures disconnectTime == old(disconnectTime)
    {
      if state != Disconnected && state != Error {
        return false;
      }
      ok := Attempt(outcome, now);
    }

    /**
     * The body of connect once the state allows it: one attempt is counted
     * and a fresh tunnel client made, and the manager ends CONNECTED (True)
     * or ERROR (False). A connection whose tunnel has no address counts as
     * successful and then fails network setup with "No assigned IP".
     */
    method Attempt(outcome: TunnelConnect, now: int) returns (ok: bool)
      modifies this
      ensures connectionAttempts == old(connectionAttempts) + 1 && hasTunnel
      ensures tunnelAutoReconnect == Truthy(Get(config, "auto_reconnect", Bool(true)))
      ensures ok <==> outcome.Established? && HasAddress(outcome.assignedIp)
      ensures ok ==> state == Connected && ipLog == old(ipLog) + [outcome.assignedIp.value]
      ensures !ok ==> state == Error && ipLog == old(ipLog)
      ensures if outcome.Established? then
          successfulConnections == old(successfulConnections) + 1 &&
          connectTime == Some(now) && tunnelIp == outcome.assignedIp
        else
          successfulConnections == old(successfulConnections) && connectTime == old(connectTime) &&
          tunnelIp == None
      ensures errorMessage == ErrorText(outcome)
      ensures errorLog == old(errorLog) + Notified(ErrorText(outcome))
      ensures stateLog == old(stateLog) + [Connecting, Authenticating] + ConcludingStates(outcome)
      ensures disconnectTime == old(disconnectTime)
    {
      SetState(Connecting);
      connectionAttempts := connectionAttempts + 1;
      hasTunnel := true;
      tunnelIp := None;
      tunnelAutoReconnect := Truthy(Get(config, "auto_reconnect", Bool(true)));
      SetState(Authenticating);
      ok := Conclude(outcome, now);
    }

    /** What connect does after the awaited tunnel connect returns or raises. */
    method Conclude(outcome: TunnelConnect, now: int) returns (ok: bool)
      requires hasTunnel
      modifies this
      ensures hasTunnel && connectionAttempts == old(connectionAttempts)
      ensures tunnelAutoReconnect == old(tunnelAutoReconnect)
      ensures ok <==> outcome.Established? && HasAddress(outcome.assignedIp)
      ensures ok ==> state == Connected && ipLog == old(ipLog) + [outcome.assignedIp.value]
      ensures !ok ==> state == Error && ipLog == old(ipLog)
      ensures if outcome.Established? then
          successfulConnections == old(successfulConnections) + 1 &&
          connectTime == Some(now) && tunnelIp == outcome.assignedIp
        else
          successfulConnections == old(successfulConnections) && connectTime == old(connectTime) &&
          tunnelIp == old(tunnelIp)
      ensures errorMessage == ErrorText(outcome)
      ensures errorLog == old(errorLog) + Notified(ErrorText(outcome))
      ensures stateLog == old(stateLog) + ConcludingStates(outcome)
      ensures disconnectTime == old(disconnectTime)
    {
      match outcome {
        case Established(ip) =>
          tunnelIp := ip;
          connectTime := Some(now);
          successfulConnections := successfulConnections + 1;
          SetState(Connected);
          // _setup_network
          if !HasAddress(tunnelIp) {
            SetState(Error, Some("No assigned IP"));
            return false;
          }
          ipLog := ipLog + [tunnelIp.value];
          return true;
        case Refused =>
          SetState(Error, Some("Connection failed"));
          return false;
        case Raised(message) =>
          SetState(Error, Some(message));
          return false;
      }
    }

    /**
     * disconnect: nothing happens when already DISCONNECTED; otherwise the
     * tunnel client is disconnected and dropped and the manager ends
     * DISCONNECTED, or ERROR with the message when the tunnel's disconnect
     * raised (the client is then kept).
     */
    method Disconnect(tunnelFailure: Option<string>, now: int)
      modifies this
      ensures old(state) == Disconnected ==>
        state == old(state) && errorMessage == old(errorMessage) && hasTunnel == old(hasTunnel) &&
        tunnelIp == old(tunnelIp) && disconnectTime == old(disconnectTime) &&
        stateLog == old(stateLog) && errorLog == old(errorLog)
      ensures old(state) != Disconnected && old(hasTunnel) && tunnelFailure.Some? ==>
        state == Error && errorMessage == tunnelFailure && hasTunnel && tunnelIp == old(tunnelIp) &&
        disconnectTime == old(disconnectTime) && stateLog == old(stateLog) + [Disconnecting, Error] &&
        errorLog == old(errorLog) + Notified(tunnelFailure)
      ensures old(state) != Disconnected && !(old(hasTunnel) && tunnelFailure.Some?) ==>
        state == Disconnected && errorMessage == None && !hasTunnel &&
        tunnelIp == (if old(hasTunnel) then None else old(tunnelIp)) &&
        disconnectTime == Some(now) && stateLog == old(stateLog) + [Disconnecting, Disconnected] &&
        errorLog == old(errorLog)
      ensures connectTime == old(connectTime) && connectionAttempts == old(connectionAttempts)
      ensures tunnelAutoReconnect == old(tunnelAutoReconnect)
      ensures successfulConnections == old(successfulConnections) && ipLog == old(ipLog)
    {
      if state == Disconnected {
        return;
      }
      SetState(Disconnecting);
      // _cleanup_network has nothing to undo yet
      if hasTunnel {
        if tunnelFailure.Some? {
          SetState(Error, tunnelFailure);
          return;
        }
        hasTunnel := false;
        tunnelIp := None;
      }
      disconnectTime := Some(now);
      SetState(Disconnected);
    }

    /** _on_tunnel_disconnected: only an unexpected loss while CONNECTED moves to RECONNECTING. */
    method OnTunnelDisconnected(reason: string)
      modifies this
      ensures state == if old(state) == Connected then Reconnecting else old(state)
      ensures stateLog == old(stateLog) + (if old(state) == Connected then [Reconnecting] else [])
      ensures errorMessage == (if old(state) == Connected then None else old(errorMessage))
      ensures hasTunnel == old(hasTunnel) && tunnelIp == old(tunnelIp) && errorLog == old(errorLog)
      ensures ipLog == old(ipLog) && tunnelAutoReconnect == old(tunnelAutoReconnect)
      ensures connectTime == old(connectTime) && disconnectTime == old(disconnectTime)
      ensures connectionAttempts == old(connectionAttempts) && successfulConnections == old(successfulConnections)
    {
      if state == Connected {
        SetState(Reconnecting);
      }
    }

    /** send_packet: False unless CONNECTED with a tunnel client, else what the tunnel's send returned. */
    method SendPacket(packet: seq<int>, tunnelSent: bool) returns (sent: bool)
      ensures sent <==> hasTunnel && state == Connected && tunnelSent
    {
      if !hasTunnel || state != Connected {
        return false;
      }
      return tunnelSent;
    }

    method IsConnected() returns (connected: bool)
      ensures connected <==> state == Connected
    {
      connected := state == Connected;
    }

    /** get_assigned_ip */
    method GetAssignedIp() returns (ip: Option<string>)
      ensures ip == if hasTunnel then tunnelIp else None
    {
      ip := if hasTunnel then tunnelIp else None;
    }

    /** get_statistics: an uptime only while CONNECTED with a connect time. */
    method GetStatistics(now: int) returns (s: ConnectionStatistics)
      ensures s.state == state && s.error == errorMessage
      ensures s.connectionAttempts == connectionAttempts && s.successfulConnections == successfulConnections
      ensures s.connectTime == connectTime && s.disconnectTime == disconnectTime
      ensures s.uptimeSeconds.Some? <==> connectTime.Some? && state == Connected
      ensures s.uptimeSeconds.Some? ==> s.uptimeSeconds.value == now - connectTime.value
    {
      var uptime: Option<int> := None;
      if connectTime.Some? && state == Connected {
        uptime := Some(now - connectTime.value);
      }
      s := ConnectionStatistics(state, errorMessage, connectionAttempts, successfulConnections,
        connectTime, uptime, disconnectTime);
    }

    /** get_status_summary */
    method GetStatusSummary(now: int) returns (summary: string)
      ensures summary == StatusSummary(state, if hasTunnel then tunnelIp else None, connectTime, errorMessage, now)
    {
      var ip := GetAssignedIp();
      summary := StatusSummary(state, ip, connectTime, errorMessage, now);
    }
  }
}
