/**
  The circuit breaker that restarts the node agent (watchdog.py): a streak of failed
  probes, an exponential backoff, and a bound on the restarts in a sliding window.
  Clock readings, the maintenance file, probes, snapshots and restarts are inputs.
 */
module Watchdog {
  import opened Options

  datatype ProbeResult = ProbeResult(ok: bool, statusCode: Option<nat>, degraded: bool, error: Option<string>)

  datatype AgentSnapshot = AgentSnapshot(processExists: bool, launchdRunning: bool)

  datatype Config = Config(failureThreshold: nat, baseBackoff: real, maxBackoff: real,
                           restartWindow: real, maxRestartsInWindow: nat, keepaliveGrace: real)
  {
    predicate Valid() {
      && failureThreshold >= 1 && maxRestartsInWindow >= 1
      && baseBackoff >= 0.0 && maxBackoff >= 0.0 && restartWindow >= 0.0 && keepaliveGrace >= 0.0
    }
  }

  datatype Phase = Online | Degraded | Maintenance | Recovering | CircuitOpen | Restarting

  datatype Reason = ProbeError(text: string) | HealthHttp(code: nat) | HealthFailed | KeepalivePending | KickstartFailed

  datatype State = State(
    phase: Phase, consecutiveFailures: nat, restartCount: nat, restartTimes: seq<real>,
    lastFailureReason: Option<Reason>, lastRestartTime: Option<real>, lastRecoveryDuration: Option<real>,
    lastSuccessTime: Option<real>, lastProbeTime: Option<real>, backoffUntil: Option<real>,
    processMissingSince: Option<real>, updatedAt: real)

  function Fresh(now: real): State {
    State(Online, 0, 0, [], None, None, None, None, None, None, None, now)
  }

  /** Everything one tick sees; the later clock readings are those of the individual assignments. */
  datatype Tick = Tick(now: real, maintenance: bool, probe: ProbeResult, snapshot: AgentSnapshot, restartOk: bool,
                       probedAt: real, succeededAt: real, recoveredAt: real, restartedAt: real, updatedAt: real)

  // ----- what one tick decides

  function Recent(times: seq<real>, cutoff: real): seq<real> {
    if times == [] then []
    else (if times[0] >= cutoff then [times[0]] else []) + Recent(times[1..], cutoff)
  }

  function Pow2(n: nat): real {
    if n == 0 then 1.0 else 2.0 * Pow2(n - 1)
  }

  /** The capped exponential backoff after the `n`th restart in the window. */
  function Backoff(c: Config, n: nat): (b: real)
    requires c.Valid()
    ensures 0.0 <= b <= c.maxBackoff
  {
    Pow2Positive(if n == 0 then 0 else n - 1);
    var b := c.baseBackoff * Pow2(if n == 0 then 0 else n - 1);
    if b <= c.maxBackoff then b else c.maxBackoff
  }

  lemma Pow2Positive(n: nat)
    ensures Pow2(n) >= 1.0
  {
  }

  predicate Failed(t: Tick) {
    !t.maintenance && !t.probe.ok
  }

  predicate Succeeded(t: Tick) {
    !t.maintenance && t.probe.ok
  }

  datatype Decision = InMaintenance | Healthy | TooFewFailures | InGrace | WindowFull | BackingOff | NotRestarted | Restarted

  function MissingSince(s: State, t: Tick): Option<real> {
    if t.snapshot.processExists || !t.snapshot.launchdRunning then None
    else if s.processMissingSince.Some? then s.processMissingSince
    else Some(t.now)
  }

  /** What follows once enough probes in a row failed. */
  function Escalation(c: Config, s: State, t: Tick): Decision {
    if MissingSince(s, t).Some? && t.now - MissingSince(s, t).value < c.keepaliveGrace then InGrace
    else if |Recent(s.restartTimes, t.now - c.restartWindow)| >= c.maxRestartsInWindow then WindowFull
    else if s.backoffUntil.Some? && t.now < s.backoffUntil.value then BackingOff
    else if !t.restartOk then NotRestarted
    else Restarted
  }

  function Decide(c: Config, s: State, t: Tick): Decision {
    if t.maintenance then InMaintenance
    else if t.probe.ok then Healthy
    else if s.consecutiveFailures + 1 < c.failureThreshold then TooFewFailures
    else Escalation(c, s, t)
  }

  function ReasonOf(p: ProbeResult): Reason {
    if p.error.Some? && p.error.value != "" then ProbeError(p.error.value)
    else if p.statusCode.Some? && p.statusCode.value != 0 then HealthHttp(p.statusCode.value)
    else HealthFailed
  }

  function Later(x: real, y: real): real {
    if x >= y then x else y
  }

  function Healed(s: State, t: Tick): State {
    var duration :=
      if s.lastRestartTime.Some? && (s.phase == Recovering || s.phase == Restarting)
      then Some(Later(0.0, t.recoveredAt - s.lastRestartTime.value)) else s.lastRecoveryDuration;
    s.(phase := if t.probe.degraded then Degraded else Online, consecutiveFailures := 0,
       lastSuccessTime := Some(t.succeededAt), lastFailureReason := None, backoffUntil := None,
       processMissingSince := None, lastRecoveryDuration := duration)
  }

  /** One more failed probe on record. */
  function Counted(s: State, t: Tick): State {
    s.(consecutiveFailures := s.consecutiveFailures + 1, lastFailureReason := Some(ReasonOf(t.probe)))
  }

  function AfterRestart(c: Config, s: State, t: Tick): State
    requires c.Valid()
  {
    var times := s.restartTimes + [t.now];
    s.(restartTimes := times, restartCount := s.restartCount + 1, lastRestartTime := Some(t.restartedAt),
       backoffUntil := Some(t.now + Backoff(c, |times|)), phase := Restarting, consecutiveFailures := 0)
  }

  /** The state after an escalation; past the grace period the history is trimmed to the window. */
  function Escalated(c: Config, counted: State, t: Tick): State
    requires c.Valid()
  {
    var s := counted.(processMissingSince := MissingSince(counted, t));
    var trimmed := s.(restartTimes := Recent(s.restartTimes, t.now - c.restartWindow));
    match Escalation(c, counted, t)
    case InGrace => s.(phase := Recovering, lastFailureReason := Some(KeepalivePending))
    case WindowFull => trimmed.(phase := CircuitOpen)
    case BackingOff => trimmed.(phase := Recovering)
    case NotRestarted => trimmed.(phase := Recovering, lastFailureReason := Some(KickstartFailed))
    case _ => AfterRestart(c, trimmed, t)
  }

  function Ticked(c: Config, s0: State, t: Tick): State
    requires c.Valid()
  {
    var s := s0.(lastProbeTime := Some(t.probedAt));
    var after :=
      match Decide(c, s, t)
      case InMaintenance => s.(phase := Maintenance, consecutiveFailures := 0, lastFailureReason := None)
      case Healthy => Healed(s, t)
      case TooFewFailures =>
        Counted(s, t).(phase := if s.backoffUntil.Some? && t.now < s.backoffUntil.value then Recovering else Degraded)
      case _ => Escalated(c, Counted(s, t), t);
    after.(updatedAt := t.updatedAt)
  }

  lemma {:induction false} RecentOneMore(times: seq<real>, i: nat, cutoff: real)
    requires i < |times|
    ensures Recent(times[..i + 1], cutoff) == Recent(times[..i], cutoff) + if times[i] >= cutoff then [times[i]] else []
  {
    assert times[..i + 1] == times[..i] + [times[i]];
    RecentConcat(times[..i], [times[i]], cutoff);
  }

  lemma {:induction false} RecentConcat(x: seq<real>, y: seq<real>, cutoff: real)
    ensures Recent(x + y, cutoff) == Recent(x, cutoff) + Recent(y, cutoff)
  {
    if x == [] {
      assert x + y == y;
    } else {
      var first := if x[0] >= cutoff then [x[0]] else [];
      calc {
        Recent(x + y, cutoff);
        { assert (x + y)[0] == x[0] && (x + y)[1..] == x[1..] + y; }
        first + Recent(x[1..] + y, cutoff);
        { RecentConcat(x[1..], y, cutoff); }
        first + (Recent(x[1..], cutoff) + Recent(y, cutoff));
        Recent(x, cutoff) + Recent(y, cutoff);
      }
    }
  }

  class AgentWatchdog {
    const config: Config
    var state: State

    constructor (config: Config, loaded: State)
      ensures this.config == config && state == loaded
    {
      this.config := config;
      state := loaded;
    }

    /** The restarts not before the cutoff, in order. */
    method RecentTimes(times: seq<real>, cutoff: real) returns (kept: seq<real>)
      ensures kept == Recent(times, cutoff)
    {
      kept := [];
      for i := 0 to |times|
        invariant kept == Recent(times[..i], cutoff)
      {
        RecentOneMore(times, i, cutoff);
        if times[i] >= cutoff {
          kept := kept + [times[i]];
        }
      }
      assert times[..|times|] == times;
    }

    /** Restart the agent unless it is coming back by itself, the window is full or the backoff runs. */
    method Escalate(t: Tick) returns (restarted: bool)
      requires config.Valid()
      modifies this
      ensures state == Escalated(config, old(state), t)
      ensures restarted <==> Escalation(config, old(state), t) == Restarted
    {
      hide Recent, Pow2;
      restarted := false;
      if !t.snapshot.processExists && t.snapshot.launchdRunning {
        if state.processMissingSince.None? {
          state := state.(processMissingSince := Some(t.now));
        }
        if t.now - state.processMissingSince.value < config.keepaliveGrace {
          state := state.(phase := Recovering, lastFailureReason := Some(KeepalivePending));
          return;
        }
      } else {
        state := state.(processMissingSince := None);
      }
      var kept := RecentTimes(state.restartTimes, t.now - config.restartWindow);
      state := state.(restartTimes := kept);
      if |state.restartTimes| >= config.maxRestartsInWindow {
        state := state.(phase := CircuitOpen);
        return;
      }
      if state.backoffUntil.Some? && t.now < state.backoffUntil.value {
        state := state.(phase := Recovering);
        return;
      }
      restarted := t.restartOk;
      if !restarted {
        state := state.(phase := Recovering, lastFailureReason := Some(KickstartFailed));
        return;
      }
      state := state.(restartTimes := state.restartTimes + [t.now]);
      state := state.(restartCount := state.restartCount + 1, lastRestartTime := Some(t.restartedAt));
      var backoff := config.baseBackoff * Pow2(|state.restartTimes| - 1);
      if backoff > config.maxBackoff {
        backoff := config.maxBackoff;
      }
      state := state.(backoffUntil := Some(t.now + backoff), phase := Restarting, consecutiveFailures := 0);
    }

    /** One probe and whatever follows from it; the new state is the one the decision calls for. */
    method DoTick(t: Tick) returns (restarted: bool)
      requires config.Valid()
      modifies this
      ensures state == Ticked(config, old(state), t)
      ensures restarted <==> Decide(config, old(state), t) == Restarted
    {
      hide Recent, ReasonOf, AfterRestart;
      restarted := false;
      state := state.(lastProbeTime := Some(t.probedAt));
      if t.maintenance {
        state := state.(phase := Maintenance, consecutiveFailures := 0, lastFailureReason := None);
      } else if t.probe.ok {
        var recoveryStarted := state.lastRestartTime;
        var wasRecovering := state.phase == Recovering || state.phase == Restarting;
        state := state.(phase := if t.probe.degraded then Degraded else Online, consecutiveFailures := 0);
        state := state.(lastSuccessTime := Some(t.succeededAt), lastFailureReason := None);
        state := state.(backoffUntil := None, processMissingSince := None);
        if recoveryStarted.Some? && wasRecovering {
          state := state.(lastRecoveryDuration := Some(Later(0.0, t.recoveredAt - recoveryStarted.value)));
        }
      } else {
        state := state.(consecutiveFailures := state.consecutiveFailures + 1, lastFailureReason := Some(ReasonOf(t.probe)));
        if state.consecutiveFailures < config.failureThreshold {
          var waiting := state.backoffUntil.Some? && t.now < state.backoffUntil.value;
          state := state.(phase := if waiting then Recovering else Degraded);
        } else {
          restarted := Escalate(t);
        }
      }
      state := state.(updatedAt := t.updatedAt);
    }
  }
}
