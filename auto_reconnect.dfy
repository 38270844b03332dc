/**
 * AutoReconnect: the reconnection state machine with exponential backoff.
 * The awaited connect function and the other tasks that may disable the
 * handler meanwhile are a script of attempt outcomes; the clock is a
 * parameter; sleeps are recorded rather than performed.
 */
module AutoReconnect {
  import opened Common
  import opened Bytes
  import opened Protocol

  datatype ReconnectState = Idle | Waiting | Connecting | Connected | Failed

  /** What the awaited connect function did on one attempt. */
  datatype AttemptResult =
    | Connects(at: int)    // returned True; `at` is time.time() just after
    | Fails                // returned False
    | Raises               // raised an ordinary exception
    | Cancelled            // the task was cancelled by disable()/stop() while connect was awaited
    | CancelledWhileWaiting // the task was cancelled during the backoff sleep
  {
    /** The outcome raises CancelledError inside the loop. */
    predicate Cancels() {
      Cancelled? || CancelledWhileWaiting?
    }
  }

  /** One attempt, and whether disable() ran while it was awaited. */
  datatype Attempt = Attempt(result: AttemptResult, disabledMeanwhile: bool)

  /** _increase_backoff: min(delay · multiplier, max_delay) */
  function Backoff(delay: nat): nat {
    var doubled := delay * RECONNECT_BACKOFF_MULTIPLIER;
    if doubled < RECONNECT_MAX_DELAY then doubled else RECONNECT_MAX_DELAY
  }

  /** The delay after `failures` consecutive failures from the initial delay. */
  function DelayAfter(failures: nat): nat {
    if failures == 0 then RECONNECT_INITIAL_DELAY else Backoff(DelayAfter(failures - 1))
  }

  /** The delays run 1, 2, 4, 8, 16 and then stay at 30. */
  lemma {:induction false} DelayAfterValues(failures: nat)
    ensures DelayAfter(failures) == if failures < 5 then Pow2(failures) else RECONNECT_MAX_DELAY
  {
    if failures > 0 {
      DelayAfterValues(failures - 1);
      if failures - 1 < 5 {
        assert Pow2(failures) == 2 * Pow2(failures - 1);
        if failures - 1 < 4 {
          assert Pow2(failures) <= 16 by {
            PowMonotone(failures, 4);
          }
        } else {
          assert Pow2(failures) == 32;
        }
      }
    }
  }

  lemma {:induction false} PowMonotone(a: nat, b: nat)
    requires a <= b
    ensures Pow2(a) <= Pow2(b)
  {
    if a < b {
      PowMonotone(a, b - 1);
    }
  }

  /** The backoff never decreases and never exceeds the maximum delay. */
  lemma BackoffBounds(failures: nat)
    ensures RECONNECT_INITIAL_DELAY <= DelayAfter(failures) <= RECONNECT_MAX_DELAY
    ensures DelayAfter(failures) <= DelayAfter(failures + 1)
  {
    DelayAfterValues(failures);
    DelayAfterValues(failures + 1);
    if failures < 5 {
      PowMonotone(failures, 4);
      PowMonotone(0, failures);
    }
    if failures + 1 < 5 {
      assert Pow2(failures + 1) == 2 * Pow2(failures);
    }
  }

  /** An attempt after which the loop runs no further attempt. */
  predicate EndsLoop(a: Attempt) {
    a.result.Connects? || a.result.Cancels() || a.disabledMeanwhile
  }

  /** How many attempts the loop makes on a script, once entered enabled. */
  function AttemptsMade(script: seq<Attempt>): (n: nat)
    ensures n <= |script|
    ensures forall j :: 0 <= j < n - 1 ==> !EndsLoop(script[j])
    ensures n < |script| ==> n >= 1 && EndsLoop(script[n - 1])
    ensures n == 0 <==> script == []
  {
    if script == [] then 0
    else if EndsLoop(script[0]) then 1
    else 1 + AttemptsMade(script[1..])
  }

  /** A pass that follows passes none of which ended the loop is among the attempts made. */
  lemma MorePasses(script: seq<Attempt>, i: nat)
    requires i < |script| && i <= AttemptsMade(script)
    requires i >= 1 ==> !EndsLoop(script[i - 1])
    ensures i < AttemptsMade(script)
  {
  }

  /** A pass that ends the loop is the last attempt made. */
  lemma PassesDone(script: seq<Attempt>, i: nat)
    requires 1 <= i <= AttemptsMade(script) && EndsLoop(script[i - 1])
    ensures i == AttemptsMade(script)
  {
  }

  /** The sleeps the loop performs over n attempts: none before the first, then the backoff. */
  function Sleeps(n: nat): (s: seq<nat>)
    ensures |s| == if n == 0 then 0 else n - 1
    ensures forall j :: 0 <= j < |s| ==> s[j] == DelayAfter(j + 1)
  {
    if n <= 1 then [] else Sleeps(n - 1) + [DelayAfter(n - 1)]
  }

  /** The first sleep is the doubled delay 2: the initial delay 1 is never waited. */
  lemma FirstSleep()
    ensures Sleeps(2) == [2]
  {
    assert Sleeps(2) == Sleeps(1) + [DelayAfter(1)];
  }

  /** _change_state on a history: only a change of state is recorded. */
  function Announce(history: seq<ReconnectState>, s: ReconnectState): seq<ReconnectState> {
    if |history| >= 1 && history[|history| - 1] == s then history else history + [s]
  }

  /** A sequence of _change_state calls. */
  function AnnounceAll(history: seq<ReconnectState>, states: seq<ReconnectState>): seq<ReconnectState>
    decreases |states|
  {
    if states == [] then history else AnnounceAll(Announce(history, states[0]), states[1..])
  }

  /** Announcing two runs of states is announcing the first, then the second. */
  lemma {:induction false} AnnounceAllAppend(history: seq<ReconnectState>, a: seq<ReconnectState>, b: seq<ReconnectState>)
    ensures AnnounceAll(history, a + b) == AnnounceAll(AnnounceAll(history, a), b)
    decreases |a|
  {
    if a == [] {
      assert a + b == b;
    } else {
      assert (a + b)[0] == a[0];
      assert (a + b)[1..] == a[1..] + b;
      AnnounceAllAppend(Announce(history, a[0]), a[1..], b);
    }
  }

  /** The state announced once the awaited connect returns, raises or is cancelled. */
  function AfterConnecting(r: AttemptResult): seq<ReconnectState> {
    match r
    case Connects(_) => [Connected]
    case Fails => [Failed]
    case Raises => [Failed]
    case Cancelled => []
    case CancelledWhileWaiting => []
  }

  /**
   * The states one pass of the loop body hands to _change_state. A cancel
   * during the sleep breaks out right after WAITING; when there is no sleep
   * (the first attempt) the first point where the task can be cancelled is
   * the awaited connect, after CONNECTING.
   */
  function AttemptStates(r: AttemptResult, sleepsFirst: bool): seq<ReconnectState> {
    if r.CancelledWhileWaiting? && sleepsFirst then [Waiting]
    else [Waiting, Connecting] + AfterConnecting(r)
  }

  /**
   * The states the first n passes of the loop hand to _change_state, in
   * order; pass j sleeps first exactly when j >= 1, since the loop starts
   * from zero attempts.
   */
  function LoopStates(script: seq<Attempt>, n: nat): seq<ReconnectState>
    requires n <= |script|
  {
    if n == 0 then [] else LoopStates(script, n - 1) + AttemptStates(script[n - 1].result, n - 1 >= 1)
  }

  /** Announcing one more pass after the first i extends the announcements of the first i + 1. */
  lemma LoopStatesStep(history: seq<ReconnectState>, script: seq<Attempt>, i: nat, done: seq<ReconnectState>,
    before: seq<ReconnectState>, after: seq<ReconnectState>)
    requires i < |script| && done == LoopStates(script, i)
    requires before == AnnounceAll(history, done)
    requires after == AnnounceAll(before, AttemptStates(script[i].result, i >= 1))
    ensures after == AnnounceAll(history, done + AttemptStates(script[i].result, i >= 1))
    ensures done + AttemptStates(script[i].result, i >= 1) == LoopStates(script, i + 1)
  {
    AnnounceAllAppend(history, done, AttemptStates(script[i].result, i >= 1));
  }

  /** Adjacent entries differ: the callback fires only on a real change. */
  ghost predicate NoRepeats(history: seq<ReconnectState>) {
    forall j :: 0 < j < |history| ==> history[j - 1] != history[j]
  }

  datatype ReconnectStatistics = ReconnectStatistics(
    state: ReconnectState, isEnabled: bool, reconnectAttempts: nat, totalReconnects: nat,
    currentDelay: nat, uptimeSeconds: Option<int>,
    lastConnectTime: Option<int>, lastDisconnectTime: Option<int>)

  /** Python truthiness of an optional float timestamp. */
  predicate Truthy(t: Option<int>) {
    t.Some? && t.value != 0
  }

  class Reconnector {
    var state: ReconnectState
    var isEnabled: bool
    /** reconnect_task exists and is not done. */
    var taskPending: bool
    var currentDelay: nat
    var reconnectAttempts: nat
    var totalReconnects: nat
    var lastConnectTime: Option<int>
    var lastDisconnectTime: Option<int>
    /** The initial state followed by every state passed to on_state_change. */
    var history: seq<ReconnectState>
    /** The asyncio.sleep durations awaited to the end, in order. */
    var sleeps: seq<nat>

    ghost predicate Valid()
      reads this
    {
      RECONNECT_INITIAL_DELAY <= currentDelay <= RECONNECT_MAX_DELAY &&
      |history| >= 1 && history[|history| - 1] == state && NoRepeats(history)
    }

    /** A new handler is IDLE and disabled, with the initial delay and no attempts. */
    constructor ()
      ensures Valid()
      ensures state == Idle && !isEnabled && !taskPending
      ensures currentDelay == RECONNECT_INITIAL_DELAY && reconnectAttempts == 0 && totalReconnects == 0
      ensures lastConnectTime == None && lastDisconnectTime == None
      ensures history == [Idle] && sleeps == []
    {
      state := Idle;
      isEnabled := false;
      taskPending := false;
      currentDelay := RECONNECT_INITIAL_DELAY;
      reconnectAttempts := 0;
      totalReconnects := 0;
      lastConnectTime := None;
      lastDisconnectTime := None;
      history := [Idle];
      sleeps := [];
    }

    /** _change_state: a change is recorded and notified; the same state changes nothing. */
    method ChangeState(newState: ReconnectState)
      requires Valid()
      modifies this
      ensures Valid()
      ensures state == newState
      ensures history == if old(state) == newState then old(history) else old(history) + [newState]
      ensures history == Announce(old(history), newState)
      ensures isEnabled == old(isEnabled) && taskPending == old(taskPending)
      ensures currentDelay == old(currentDelay) && reconnectAttempts == old(reconnectAttempts)
      ensures totalReconnects == old(totalReconnects) && sleeps == old(sleeps)
      ensures lastConnectTime == old(lastConnectTime) && lastDisconnectTime == old(lastDisconnectTime)
    {
      if state != newState {
        state := newState;
        history := history + [newState];
      }
    }

    /** _increase_backoff */
    method IncreaseBackoff()
      requires Valid()
      modifies this
      ensures Valid()
      ensures currentDelay == Backoff(old(currentDelay))
      ensures old(currentDelay) <= currentDelay <= RECONNECT_MAX_DELAY
      ensures state == old(state) && history == old(history) && isEnabled == old(isEnabled)
      ensures taskPending == old(taskPending) && reconnectAttempts == old(reconnectAttempts)
      ensures totalReconnects == old(totalReconnects) && sleeps == old(sleeps)
      ensures lastConnectTime == old(lastConnectTime) && lastDisconnectTime == old(lastDisconnectTime)
    {
      currentDelay := Backoff(currentDelay);
    }

    method Enable()
      modifies this
      ensures isEnabled
      ensures state == old(state) && history == old(history) && taskPending == old(taskPending)
      ensures currentDelay == old(currentDelay) && reconnectAttempts == old(reconnectAttempts)
      ensures totalReconnects == old(totalReconnects) && sleeps == old(sleeps)
      ensures lastConnectTime == old(lastConnectTime) && lastDisconnectTime == old(lastDisconnectTime)
    {
      isEnabled := true;
    }

    /** disable: a pending reconnect task is cancelled before it runs. */
    method Disable()
      modifies this
      ensures !isEnabled && !taskPending
      ensures state == old(state) && history == old(history)
      ensures currentDelay == old(currentDelay) && reconnectAttempts == old(reconnectAttempts)
      ensures totalReconnects == old(totalReconnects) && sleeps == old(sleeps)
      ensures lastConnectTime == old(lastConnectTime) && lastDisconnectTime == old(lastDisconnectTime)
    {
      isEnabled := false;
      taskPending := false;
    }

    /** start_reconnect: does nothing when disabled or while a task is pending; otherwise schedules the loop. */
    method StartReconnect(now: int)
      modifies this
      ensures taskPending == (old(taskPending) || old(isEnabled))
      ensures lastDisconnectTime == if old(isEnabled) && !old(taskPending) then Some(now) else old(lastDisconnectTime)
      ensures state == old(state) && history == old(history) && isEnabled == old(isEnabled)
      ensures currentDelay == old(currentDelay) && reconnectAttempts == old(reconnectAttempts)
      ensures totalReconnects == old(totalReconnects) && sleeps == old(sleeps)
      ensures lastConnectTime == old(lastConnectTime)
    {
      if !isEnabled {
        return;
      }
      if taskPending {
        return;
      }
      lastDisconnectTime := Some(now);
      taskPending := true;
    }

    /**
     * One pass of _reconnect_loop's body: count the attempt, announce
     * WAITING, sleep the current delay unless it is the first attempt,
     * announce CONNECTING, then act on what the connect function did. A
     * cancel during the sleep ends the pass before CONNECTING.
     */
    method RunAttempt(attempt: Attempt)
      requires Valid() && isEnabled
      modifies this
      ensures Valid()
      ensures attempt.result.Connects? ==>
        state == Connected && totalReconnects == old(totalReconnects) + 1 &&
        currentDelay == RECONNECT_INITIAL_DELAY && reconnectAttempts == 0 &&
        lastConnectTime == Some(attempt.result.at)
      ensures !attempt.result.Connects? ==>
        totalReconnects == old(totalReconnects) && lastConnectTime == old(lastConnectTime) &&
        reconnectAttempts == old(reconnectAttempts) + 1
      ensures (attempt.result.Fails? || attempt.result.Raises?) ==>
        state == Failed && currentDelay == Backoff(old(currentDelay))
      ensures attempt.result.Cancels() ==> currentDelay == old(currentDelay)
      ensures sleeps == old(sleeps) +
        (if old(reconnectAttempts) >= 1 && !attempt.result.CancelledWhileWaiting? then [old(currentDelay)] else [])
      ensures isEnabled == !(attempt.disabledMeanwhile || attempt.result.Cancels())
      ensures history == AnnounceAll(old(history), AttemptStates(attempt.result, old(reconnectAttempts) >= 1))
      ensures lastDisconnectTime == old(lastDisconnectTime) && taskPending == old(taskPending)
    {
      ghost var h0 := history;
      reconnectAttempts := reconnectAttempts + 1;
      ChangeState(Waiting);
      if attempt.result.CancelledWhileWaiting? && reconnectAttempts > 1 {
        isEnabled := false;
        assert AnnounceAll(h0, [Waiting]) == AnnounceAll(history, []);
        return;
      }
      if reconnectAttempts > 1 {
        sleeps := sleeps + [currentDelay];
      }
      ChangeState(Connecting);
      ghost var h2 := history;
      assert AnnounceAll(h0, [Waiting, Connecting]) == h2 by {
        assert [Waiting, Connecting][1..] == [Connecting];
      }
      AnnounceAllAppend(h0, [Waiting, Connecting], AfterConnecting(attempt.result));
      ActOnResult(attempt.result);
      if attempt.disabledMeanwhile {
        isEnabled := false;
      }
    }

    /** The rest of a pass once CONNECTING is announced: act on what the awaited connect did. */
    method ActOnResult(r: AttemptResult)
      requires Valid()
      modifies this
      ensures Valid()
      ensures history == AnnounceAll(old(history), AfterConnecting(r))
      ensures r.Connects? ==>
        state == Connected && totalReconnects == old(totalReconnects) + 1 &&
        currentDelay == RECONNECT_INITIAL_DELAY && reconnectAttempts == 0 && lastConnectTime == Some(r.at)
      ensures !r.Connects? ==>
        totalReconnects == old(totalReconnects) && lastConnectTime == old(lastConnectTime) &&
        reconnectAttempts == old(reconnectAttempts)
      ensures (r.Fails? || r.Raises?) ==> state == Failed && currentDelay == Backoff(old(currentDelay))
      ensures r.Cancels() ==> currentDelay == old(currentDelay) && state == old(state)
      ensures isEnabled == (old(isEnabled) && !r.Cancels())
      ensures sleeps == old(sleeps) && lastDisconnectTime == old(lastDisconnectTime) && taskPending == old(taskPending)
    {
      match r {
        case Connects(at) =>
          ghost var h := history;
          ChangeState(Connected);
          assert AnnounceAll(h, [Connected]) == AnnounceAll(history, []);
          lastConnectTime := Some(at);
          totalReconnects := totalReconnects + 1;
          currentDelay := RECONNECT_INITIAL_DELAY;
          reconnectAttempts := 0;
        case Fails =>
          IncreaseBackoff();
          ghost var h := history;
          ChangeState(Failed);
          assert AnnounceAll(h, [Failed]) == AnnounceAll(history, []);
        case Raises =>
          IncreaseBackoff();
          ghost var h := history;
          ChangeState(Failed);
          assert AnnounceAll(h, [Failed]) == AnnounceAll(history, []);
        case Cancelled =>
          isEnabled := false;
        case CancelledWhileWaiting =>
          isEnabled := false;
      }
    }

    /**
     * _reconnect_loop, run on a script of attempt outcomes: attempts and
     * delay are reset on entry; each attempt but the first sleeps the
     * current delay; a success connects, counts one reconnect, resets the
     * backoff and ends the loop; a failure doubles the delay (capped) and
     * sets FAILED; a cancellation leaves the delay as it was, and one during
     * the sleep leaves that sleep unfinished; the handler ends IDLE once
     * disabled. The loop stops early when the script runs out.
     */
    method ReconnectLoop(script: seq<Attempt>)
      requires Valid()
      modifies this
      ensures Valid()
      ensures var n := if old(isEnabled) then AttemptsMade(script) else 0;
        var connected := n >= 1 && script[n - 1].result.Connects?;
        var cancelled := n >= 1 && script[n - 1].result.Cancels();
        var sleepCut := n >= 1 && script[n - 1].result.CancelledWhileWaiting?;
        sleeps == old(sleeps) + Sleeps(if sleepCut then n - 1 else n) &&
        totalReconnects == old(totalReconnects) + (if connected then 1 else 0) &&
        currentDelay == (if connected then RECONNECT_INITIAL_DELAY else DelayAfter(if cancelled then n - 1 else n)) &&
        reconnectAttempts == (if connected then 0 else n) &&
        lastConnectTime == (if connected then Some(script[n - 1].result.at) else old(lastConnectTime)) &&
        isEnabled == (old(isEnabled) && !(n >= 1 && (script[n - 1].disabledMeanwhile || cancelled))) &&
        state == (if !isEnabled then Idle else if connected then Connected else if n == 0 then old(state) else Failed)
      ensures var n := if old(isEnabled) then AttemptsMade(script) else 0;
        var passes := AnnounceAll(old(history), LoopStates(script, n));
        history == if !isEnabled then Announce(passes, Idle) else passes
      ensures lastDisconnectTime == old(lastDisconnectTime) && !taskPending
    {
      taskPending := false;
      reconnectAttempts := 0;
      currentDelay := RECONNECT_INITIAL_DELAY;
      ghost var enabled0 := isEnabled;
      ghost var n := if isEnabled then AttemptsMade(script) else 0;
      ghost var sleeps0 := sleeps;
      ghost var total0 := totalReconnects;
      ghost var connect0 := lastConnectTime;
      ghost var state0 := state;
      Passes(script, n, enabled0, sleeps0, total0, connect0, state0);
      if !isEnabled {
        ChangeState(Idle);
      }
    }

    /** The while loop of _reconnect_loop: passes while enabled, not yet connected and scripted. */
    method Passes(script: seq<Attempt>, ghost n: nat, ghost enabled0: bool, ghost sleeps0: seq<nat>,
      ghost total0: nat, ghost connect0: Option<int>, ghost state0: ReconnectState)
      requires Progress(script, 0, false, enabled0, sleeps0, total0, connect0, state0, lastDisconnectTime)
      requires n == if enabled0 then AttemptsMade(script) else 0
      modifies this
      ensures n <= |script|
      ensures Progress(script, n, n >= 1 && script[n - 1].result.Connects?, enabled0, sleeps0, total0, connect0,
        state0, old(lastDisconnectTime))
      ensures history == AnnounceAll(old(history), LoopStates(script, n))
    {
      var i := 0;
      var connected := false;
      ghost var done := [];
      while isEnabled && !connected && i < |script|
        invariant Progress(script, i, connected, enabled0, sleeps0, total0, connect0, state0, old(lastDisconnectTime))
        invariant done == LoopStates(script, i) && history == AnnounceAll(old(history), done)
        invariant 0 <= i <= n
        invariant i == n || (isEnabled && !connected)
        decreases |script| - i
      {
        MorePasses(script, i);
        ghost var before := history;
        connected := Advance(script, i, enabled0, sleeps0, total0, connect0, state0, old(lastDisconnectTime));
        LoopStatesStep(old(history), script, i, done, before, history);
        done := done + AttemptStates(script[i].result, i >= 1);
        i := i + 1;
        if EndsLoop(script[i - 1]) {
          PassesDone(script, i);
        }
      }
    }

    /** What _reconnect_loop has established after i passes over the script. */
    ghost predicate Progress(script: seq<Attempt>, i: nat, connected: bool, enabled0: bool, sleeps0: seq<nat>,
      total0: nat, connect0: Option<int>, state0: ReconnectState, disconnect0: Option<int>)
      reads this
    {
      Valid() && i <= |script| &&
      (connected <==> i >= 1 && script[i - 1].result.Connects?) &&
      (!connected ==>
        reconnectAttempts == i && totalReconnects == total0 && lastConnectTime == connect0 &&
        currentDelay == DelayAfter(if i >= 1 && script[i - 1].result.Cancels() then i - 1 else i)) &&
      (connected ==>
        state == Connected && reconnectAttempts == 0 && currentDelay == RECONNECT_INITIAL_DELAY &&
        totalReconnects == total0 + 1 && lastConnectTime == Some(script[i - 1].result.at)) &&
      sleeps == sleeps0 + Sleeps(if i >= 1 && script[i - 1].result.CancelledWhileWaiting? then i - 1 else i) &&
      isEnabled == (enabled0 && !(i >= 1 && (script[i - 1].disabledMeanwhile || script[i - 1].result.Cancels()))) &&
      (i >= 1 && !connected && !script[i - 1].result.Cancels() ==> state == Failed) &&
      (i == 0 ==> state == state0) &&
      lastDisconnectTime == disconnect0 && !taskPending
    }

    /** One more pass of _reconnect_loop while it is enabled and not yet connected. */
    method Advance(script: seq<Attempt>, i: nat, ghost enabled0: bool, ghost sleeps0: seq<nat>,
      ghost total0: nat, ghost connect0: Option<int>, ghost state0: ReconnectState, ghost disconnect0: Option<int>)
      returns (connected: bool)
      requires Progress(script, i, false, enabled0, sleeps0, total0, connect0, state0, disconnect0)
      requires isEnabled && i < |script|
      modifies this
      ensures connected == script[i].result.Connects?
      ensures Progress(script, i + 1, connected, enabled0, sleeps0, total0, connect0, state0, disconnect0)
      ensures history == AnnounceAll(old(history), AttemptStates(script[i].result, i >= 1))
    {
      BackoffBounds(i);
      RunAttempt(script[i]);
      connected := script[i].result.Connects?;
    }

    /** on_connected */
    method OnConnected(now: int)
      requires Valid()
      modifies this
      ensures Valid()
      ensures state == Connected && reconnectAttempts == 0 && currentDelay == RECONNECT_INITIAL_DELAY
      ensures lastConnectTime == Some(now)
      ensures history == if old(state) == Connected then old(history) else old(history) + [Connected]
      ensures isEnabled == old(isEnabled) && taskPending == old(taskPending)
      ensures totalReconnects == old(totalReconnects) && sleeps == old(sleeps)
      ensures lastDisconnectTime == old(lastDisconnectTime)
    {
      lastConnectTime := Some(now);
      reconnectAttempts := 0;
      currentDelay := RECONNECT_INITIAL_DELAY;
      ChangeState(Connected);
    }

    /** on_disconnected: records the time and, when enabled, schedules a reconnect. */
    method OnDisconnected(now: int)
      modifies this
      ensures lastDisconnectTime == Some(now)
      ensures taskPending == (old(taskPending) || old(isEnabled))
      ensures state == old(state) && history == old(history) && isEnabled == old(isEnabled)
      ensures currentDelay == old(currentDelay) && reconnectAttempts == old(reconnectAttempts)
      ensures totalReconnects == old(totalReconnects) && sleeps == old(sleeps)
      ensures lastConnectTime == old(lastConnectTime)
    {
      lastDisconnectTime := Some(now);
      if isEnabled {
        StartReconnect(now);
      }
    }

    /** stop: disable, cancel the pending task, and end IDLE. */
    method Stop()
      requires Valid()
      modifies this
      ensures Valid()
      ensures state == Idle && !isEnabled && !taskPending
      ensures history == if old(state) == Idle then old(history) else old(history) + [Idle]
      ensures currentDelay == old(currentDelay) && reconnectAttempts == old(reconnectAttempts)
      ensures totalReconnects == old(totalReconnects) && sleeps == old(sleeps)
      ensures lastConnectTime == old(lastConnectTime) && lastDisconnectTime == old(lastDisconnectTime)
    {
      Disable();
      ChangeState(Idle);
    }

    /** get_statistics: uptime only when connected after the last disconnect. */
    method GetStatistics(now: int) returns (s: ReconnectStatistics)
      ensures s.uptimeSeconds.Some? <==>
        Truthy(lastConnectTime) && Truthy(lastDisconnectTime) && lastConnectTime.value > lastDisconnectTime.value
      ensures s.uptimeSeconds.Some? ==> s.uptimeSeconds.value == now - lastConnectTime.value
      ensures s.state == state && s.isEnabled == isEnabled && s.reconnectAttempts == reconnectAttempts
      ensures s.totalReconnects == totalReconnects && s.currentDelay == currentDelay
      ensures s.lastConnectTime == lastConnectTime && s.lastDisconnectTime == lastDisconnectTime
    {
      var uptime: Option<int> := None;
      if Truthy(lastConnectTime) && Truthy(lastDisconnectTime) {
        if lastConnectTime.value > lastDisconnectTime.value {
          uptime := Some(now - lastConnectTime.value);
        }
      }
      s := ReconnectStatistics(state, isEnabled, reconnectAttempts, totalReconnects, currentDelay,
        uptime, lastConnectTime, lastDisconnectTime);
    }
  }
}
