/**
 Bridge health probes (shared/bridge_orchestrator.py, app/bridge.py) and the
 pressure score with its panic hysteresis (shared/self_heal.py).
 */
module BridgeHealth {
  const LAG_DEGRADED_MS: int := 5000
  const OUTAGE_THRESHOLD_S: int := 120

  datatype State = Healthy | Degraded | Outage

  datatype Health = Health(state: State, lastHealthy: int, consecutiveFailures: nat, reconnects: nat)

  /** What a probe reports: its round-trip time, or that the status call raised. */
  datatype Probe = Answered(lagMs: int) | Raised

  function Record(h: Health, p: Probe, now: int): Health {
    match p
    case Answered(lag) =>
      if lag > LAG_DEGRADED_MS then Health(Degraded, now, 0, h.reconnects)
      else Health(Healthy, now, 0, if h.state == Outage then h.reconnects + 1 else h.reconnects)
    case Raised =>
      h.(consecutiveFailures := h.consecutiveFailures + 1,
         state := if now - h.lastHealthy > OUTAGE_THRESHOLD_S then Outage else Degraded)
  }

  /** The bridge's side of a status call. */
  datatype Wire = Replied(allowed: bool) | Unreachable

  datatype StatusReply = StatusReply(allowed: bool, error: string)

  datatype Call<+T> = Returned(value: T) | Threw

  /** BridgeClient.status catches every exception and returns a dictionary instead. */
  function Status(w: Wire): Call<StatusReply> {
    match w
    case Replied(allowed) => Returned(StatusReply(allowed, ""))
    case Unreachable => Returned(StatusReply(false, "unreachable"))
  }

  /** _probe_bridge: an exception is a failed probe, any returned dictionary an answered one. */
  function ProbeBridge(h: Health, w: Wire, lagMs: int, now: int): Health {
    match Status(w)
    case Returned(_) => Record(h, Answered(lagMs), now)
    case Threw => Record(h, Raised, now)
  }

  /** The status call always returns; sends are allowed exactly when the bridge said so. */
  lemma StatusNeverRaises(w: Wire)
    ensures Status(w).Returned? && (Status(w).value.allowed <==> w.Replied? && w.allowed)
    ensures Status(w).value.error == "" <==> w.Replied?
  {}

  /** A recorded probe and its time. */
  datatype Sample = Sample(probe: Probe, at: int)

  function RunProbes(h: Health, ps: seq<Sample>): Health {
    if ps == [] then h else Record(RunProbes(h, ps[..|ps| - 1]), ps[|ps| - 1].probe, ps[|ps| - 1].at)
  }

  /** How many probes at the end of the history raised. */
  function Silence(ps: seq<Sample>): nat {
    if ps == [] || ps[|ps| - 1].probe.Answered? then 0 else 1 + Silence(ps[..|ps| - 1])
  }

  /** When the bridge last answered; before any answer, when it was registered. */
  function LastAnswer(ps: seq<Sample>, start: int): int {
    if ps == [] then start
    else if ps[|ps| - 1].probe.Answered? then ps[|ps| - 1].at else LastAnswer(ps[..|ps| - 1], start)
  }

  /**
   After every history of probes the failure count is the current run of raised
   probes, and the bridge is in outage exactly when the last probe raised more than
   the threshold after the last answer, healthy exactly when the last one answered
   in time, or none has been made.
   */
  lemma {:induction false} OutageOnlyAfterSilence(start: int, ps: seq<Sample>)
    ensures var h := RunProbes(Health(Healthy, start, 0, 0), ps);
            && h.consecutiveFailures == Silence(ps) && h.lastHealthy == LastAnswer(ps, start)
            && (h.state == Outage <==> Silence(ps) > 0 && ps[|ps| - 1].at - LastAnswer(ps, start) > OUTAGE_THRESHOLD_S)
            && (h.state == Healthy <==> ps == [] || (Silence(ps) == 0 && ps[|ps| - 1].probe.lagMs <= LAG_DEGRADED_MS))
  {
    if ps != [] {
      OutageOnlyAfterSilence(start, ps[..|ps| - 1]);
    }
  }

  /** A reconnect is counted exactly when an outage ends in an answer that is in time. */
  lemma ReconnectIff(h: Health, p: Probe, now: int)
    ensures Record(h, p, now).reconnects ==
            h.reconnects + if h.state == Outage && Record(h, p, now).state == Healthy then 1 else 0
    ensures Record(h, p, now).state == Healthy <==> p.Answered? && p.lagMs <= 5000
  {}

  class Tracker {
    var health: Health

    constructor (now: int)
      ensures health == Health(Healthy, now, 0, 0)
    {
      health := Health(Healthy, now, 0, 0);
    }

    method RecordProbeResult(p: Probe, now: int)
      modifies this
      ensures health == Record(old(health), p, now)
    {
      var previous := health.state;
      if p.Answered? {
        health := health.(consecutiveFailures := 0, lastHealthy := now);
        if p.lagMs > LAG_DEGRADED_MS {
          health := health.(state := Degraded);
        } else {
          if previous == Outage {
            health := health.(reconnects := health.reconnects + 1);
          }
          health := health.(state := Healthy);
        }
      } else {
        health := health.(consecutiveFailures := health.consecutiveFailures + 1);
        health := health.(state := if now - health.lastHealthy > OUTAGE_THRESHOLD_S then Outage else Degraded);
      }
    }
  }
}

module SelfHeal {
  import opened Prelude
  import BridgeHealth

  const PANIC_THRESHOLD: real := 0.85
  const PANIC_CLEAR: real := 0.60
  const QUEUE_STALL_THRESHOLD: int := 50
  const QUEUE_STORM_THRESHOLD: int := 200
  const RETRY_STORM_THRESHOLD: int := 20
  const LOCK_STALE_WARN: int := 10

  /** What one cycle of checks finds; None stands for a check that raised and was swallowed. */
  datatype Readings = Readings(workerDead: Option<bool>, heartbeatDead: Option<bool>, outages: nat, degraded: nat,
                               pending: Option<nat>, staleLocks: Option<nat>, dlq: Option<nat>)

  datatype Signals = Signals(bridge: real, worker: real, stall: real, websocket: real, retry: real, locks: real)

  function MinR(a: real, b: real): real { if a <= b then a else b }
  function MaxR(a: real, b: real): real { if a >= b then a else b }

  function DeadSignal(dead: Option<bool>): real { if dead == Some(true) then 1.0 else 0.0 }

  function BridgeSignal(outages: nat, degraded: nat): real {
    if outages > 0 then MinR(outages as real, 1.0)
    else if degraded > 0 then degraded as real * 0.15 else 0.0
  }

  function StallSignal(pending: Option<nat>): real {
    if pending.None? then 0.0
    else if pending.value >= QUEUE_STORM_THRESHOLD then 1.0
    else if pending.value >= QUEUE_STALL_THRESHOLD then
      MaxR(0.0, (pending.value - QUEUE_STALL_THRESHOLD) as real / (QUEUE_STORM_THRESHOLD - QUEUE_STALL_THRESHOLD) as real)
    else 0.0
  }

  function LockSignal(stale: Option<nat>): real {
    if stale.None? || stale.value < LOCK_STALE_WARN then 0.0
    else MinR(stale.value as real / (LOCK_STALE_WARN * 4) as real, 1.0)
  }

  function RetrySignal(dlq: Option<nat>): real {
    if dlq.None? || dlq.value < RETRY_STORM_THRESHOLD then 0.0
    else MinR(dlq.value as real / (RETRY_STORM_THRESHOLD * 2) as real, 1.0)
  }

  function Collect(r: Readings): Signals {
    Signals(BridgeSignal(r.outages, r.degraded), DeadSignal(r.workerDead), StallSignal(r.pending),
            DeadSignal(r.heartbeatDead), RetrySignal(r.dlq), LockSignal(r.staleLocks))
  }

  function Pressure(s: Signals): real {
    MaxR(0.0, MinR(1.0,
      0.30 * s.bridge + 0.25 * s.worker + 0.20 * s.stall + 0.10 * s.websocket + 0.10 * s.retry + 0.05 * s.locks))
  }

  predicate Unit(x: real) { 0.0 <= x <= 1.0 }

  lemma SignalsAreUnits(r: Readings)
    ensures var s := Collect(r);
            Unit(s.worker) && Unit(s.stall) && Unit(s.websocket) && Unit(s.retry) && Unit(s.locks) && 0.0 <= s.bridge
    ensures r.outages > 0 ==> Collect(r).bridge == 1.0
    ensures r.outages == 0 && r.degraded <= 2 ==> Collect(r).bridge <= 0.30
  {}

  lemma StallNeeds88(pending: Option<nat>)
    ensures StallSignal(pending) >= 0.25 <==> pending.Some? && pending.value >= 88
  {}

  /** With two bridges, the panic threshold is reached only with an outage, a dead worker and 88 pending messages. */
  lemma PanicNeedsEverything(r: Readings)
    requires r.outages + r.degraded <= 2
    ensures Unit(Pressure(Collect(r)))
    ensures Pressure(Collect(r)) >= PANIC_THRESHOLD ==>
              r.outages > 0 && r.workerDead == Some(true) && r.pending.Some? && r.pending.value >= 88
    ensures r.outages == 0 ==> Pressure(Collect(r)) <= 0.79
  {
    SignalsAreUnits(r);
    StallNeeds88(r.pending);
  }

  /**
   The weights sum to one, so with two bridges nothing is ever clipped: the pressure
   is 0.30 of the bridge signal, 0.25 of the worker's, 0.20 of the stall's, 0.10 each
   of heartbeat and dead letters, and 0.05 of the locks'.
   */
  lemma PressureIsWeighted(r: Readings)
    requires r.outages + r.degraded <= 2
    ensures var s := Collect(r);
            Pressure(s) == 0.30 * s.bridge + 0.25 * s.worker + 0.20 * s.stall + 0.10 * s.websocket + 0.10 * s.retry + 0.05 * s.locks
  {
    SignalsAreUnits(r);
  }

  /** Where each signal starts and where it is full. */
  lemma SignalEdges(r: Readings)
    ensures var s := Collect(r);
            && s.worker == (if r.workerDead == Some(true) then 1.0 else 0.0)
            && s.websocket == (if r.heartbeatDead == Some(true) then 1.0 else 0.0)
            && (s.bridge == 0.0 <==> r.outages == 0 && r.degraded == 0)
            && (r.outages == 0 ==> s.bridge == 0.15 * r.degraded as real)
            && (s.stall == 0.0 <==> r.pending.None? || r.pending.value <= 50)
            && (s.stall == 1.0 <==> r.pending.Some? && r.pending.value >= 200)
            && (r.pending == Some(125) ==> s.stall == 0.5)
            && (s.locks == 0.0 <==> r.staleLocks.None? || r.staleLocks.value < 10)
            && (r.staleLocks == Some(10) ==> s.locks == 0.25)
            && (s.locks == 1.0 <==> r.staleLocks.Some? && r.staleLocks.value >= 40)
            && (s.retry == 0.0 <==> r.dlq.None? || r.dlq.value < 20)
            && (r.dlq == Some(20) ==> s.retry == 0.5)
            && (s.retry == 1.0 <==> r.dlq.Some? && r.dlq.value >= 40)
  {}

  // ---- Hysteresis ----

  datatype Healer = Healer(pressure: real, panic: bool, throttled: bool)

  const CALM: Healer := Healer(0.0, false, false)

  function Enter(h: Healer): Healer {
    if h.pressure >= PANIC_THRESHOLD && !h.panic then h.(panic := true, throttled := true) else h
  }

  function Exit(h: Healer): Healer {
    if h.pressure <= PANIC_CLEAR && h.panic then h.(panic := false, throttled := false) else h
  }

  function Check(h: Healer, pressure: real): Healer { Exit(Enter(h.(pressure := pressure))) }

  function RunChecks(h: Healer, ps: seq<real>): Healer {
    if ps == [] then h else Check(RunChecks(h, ps[..|ps| - 1]), ps[|ps| - 1])
  }

  /** Check `i` reached the panic threshold and none after it came down to the clear level. */
  predicate AlarmAt(ps: seq<real>, i: nat) {
    i < |ps| && ps[i] >= PANIC_THRESHOLD && forall j :: i < j < |ps| ==> ps[j] > PANIC_CLEAR
  }

  ghost predicate Unresolved(ps: seq<real>) { exists i: nat :: AlarmAt(ps, i) }

  /** Panic mode is exactly an unresolved alarm, and throttling is always panic mode. */
  lemma {:induction false} PanicIsUnresolvedAlarm(ps: seq<real>)
    ensures RunChecks(CALM, ps).panic <==> Unresolved(ps)
    ensures RunChecks(CALM, ps).throttled == RunChecks(CALM, ps).panic
  {
    if ps != [] {
      PanicIsUnresolvedAlarm(ps[..|ps| - 1]);
      UnresolvedSnoc(ps);
    }
  }

  /** The last check leaves an alarm unresolved if it raises one, or if it does not clear an earlier one. */
  lemma UnresolvedSnoc(ps: seq<real>)
    requires ps != []
    ensures var last := ps[|ps| - 1];
            Unresolved(ps) <==> last >= PANIC_THRESHOLD || (last > PANIC_CLEAR && Unresolved(ps[..|ps| - 1]))
  {
    var front, n := ps[..|ps| - 1], |ps| - 1;
    assert ps[n] >= PANIC_THRESHOLD ==> AlarmAt(ps, n);
    forall i: nat | i < n ensures AlarmAt(ps, i) <==> AlarmAt(front, i) && ps[n] > PANIC_CLEAR {
      assert forall j :: 0 <= j < n ==> front[j] == ps[j];
    }
    if Unresolved(ps) {
      var i: nat :| AlarmAt(ps, i);
      assert i < n ==> AlarmAt(front, i);
    }
    if Unresolved(front) && ps[n] > PANIC_CLEAR {
      var i: nat :| AlarmAt(front, i);
      assert AlarmAt(ps, i);
    }
  }

  // ---- The probes and the healer together ----

  datatype System = System(bridge1: BridgeHealth.Health, bridge2: BridgeHealth.Health, healer: Healer)

  datatype Event =
    | Probe(first: bool, wire: BridgeHealth.Wire, lagMs: int, now: int)
    | Cycle(workerDead: Option<bool>, heartbeatDead: Option<bool>, pending: Option<nat>,
            staleLocks: Option<nat>, dlq: Option<nat>)

  function InState(s: System, state: BridgeHealth.State): nat {
    (if s.bridge1.state == state then 1 else 0) + (if s.bridge2.state == state then 1 else 0)
  }

  function Observed(s: System, e: Event): Readings
    requires e.Cycle?
  {
    Readings(e.workerDead, e.heartbeatDead, InState(s, BridgeHealth.Outage), InState(s, BridgeHealth.Degraded),
             e.pending, e.staleLocks, e.dlq)
  }

  function Step(s: System, e: Event): System {
    match e
    case Probe(first, wire, lag, now) =>
      if first then s.(bridge1 := BridgeHealth.ProbeBridge(s.bridge1, wire, lag, now))
      else s.(bridge2 := BridgeHealth.ProbeBridge(s.bridge2, wire, lag, now))
    case Cycle(_, _, _, _, _) => s.(healer := Check(s.healer, Pressure(Collect(Observed(s, e)))))
  }

  function Run(s: System, es: seq<Event>): System
    decreases |es|
  {
    if es == [] then s else Run(Step(s, es[0]), es[1..])
  }

  /** A probe concerns its own bridge; a check leaves the bridges alone. */
  lemma ProbeConcernsOne(s: System, e: Event)
    ensures e.Probe? ==> Step(s, e).healer == s.healer
    ensures e.Probe? && e.first ==> Step(s, e).bridge2 == s.bridge2
    ensures e.Probe? && e.first ==> Step(s, e).bridge1 == BridgeHealth.Record(s.bridge1, BridgeHealth.Answered(e.lagMs), e.now)
    ensures e.Probe? && !e.first ==> Step(s, e).bridge1 == s.bridge1
    ensures e.Probe? && !e.first ==> Step(s, e).bridge2 == BridgeHealth.Record(s.bridge2, BridgeHealth.Answered(e.lagMs), e.now)
    ensures e.Cycle? ==> Step(s, e).bridge1 == s.bridge1 && Step(s, e).bridge2 == s.bridge2
  {}

  /** The bridges' own part of the pressure: 0.30 with an outage, and otherwise 0.045 for each one degraded. */
  lemma BridgesWeigh(s: System)
    ensures var p := Step(s, Cycle(None, None, None, None, None)).healer.pressure;
            var states := [s.bridge1.state, s.bridge2.state];
            p == if BridgeHealth.Outage in states then 0.30
                 else if states == [BridgeHealth.Degraded, BridgeHealth.Degraded] then 0.09
                 else if BridgeHealth.Degraded in states then 0.045 else 0.0
  {}

  predicate NoOutage(s: System) { InState(s, BridgeHealth.Outage) == 0 }

  /**
   Because status never raises, no run of probes and checks ever sees an outage,
   so pressure stays at most 0.79 and panic mode is never entered.
   */
  lemma {:induction false} PanicIsUnreachable(s: System, es: seq<Event>)
    requires NoOutage(s) && !s.healer.panic && Unit(s.healer.pressure) && s.healer.pressure <= 0.79
    ensures var s' := Run(s, es);
            NoOutage(s') && !s'.healer.panic && Unit(s'.healer.pressure) && s'.healer.pressure <= 0.79
    decreases |es|
  {
    if es != [] {
      if es[0].Cycle? {
        PanicNeedsEverything(Observed(s, es[0]));
      }
      PanicIsUnreachable(Step(s, es[0]), es[1..]);
    }
  }

  /** Were an outage reported, panic would be reachable. */
  lemma PanicWithAnOutage()
    ensures Pressure(Collect(Readings(Some(true), Some(true), 1, 0, Some(88), Some(40), Some(40)))) >= PANIC_THRESHOLD
    ensures Pressure(Collect(Readings(Some(true), Some(true), 1, 0, Some(87), Some(40), Some(40)))) < PANIC_THRESHOLD
  {}

  class Monitor {
    var pressure: real
    var panic: bool
    var throttled: bool

    function Value(): Healer
      reads this
    {
      Healer(pressure, panic, throttled)
    }

    constructor ()
      ensures Value() == CALM
    {
      pressure, panic, throttled := 0.0, false, false;
    }

    /** _run_all_checks; `enabled` is the SELF_HEAL_ENABLED flag. */
    method RunAllChecks(r: Readings, enabled: bool)
      modifies this
      ensures Value() == if enabled then Check(old(Value()), Pressure(Collect(r))) else old(Value())
    {
      if !enabled {
        return;
      }
      pressure := Pressure(Collect(r));
      if pressure >= PANIC_THRESHOLD && !panic {
        panic, throttled := true, true;
      }
      if pressure <= PANIC_CLEAR && panic {
        panic, throttled := false, false;
      }
    }
  }
}
