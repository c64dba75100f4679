/** The three timer watchdogs of a vehicle. Each is a value with the effect of every call, an object
    proved against it, and (for the two with a Start/Stop life cycle) a refinement of `Countdown`. */
module Watchdogs {
  import opened Common
  import opened Countdowns
  import opened StateMachine

  const DEADMAN_TIMEOUT: Time := 10.0
  const ACK_TIMEOUT: Time := 0.1
  const VEHICLE_ACK_TIMEOUT: Time := 1.0

  /** A timer handle: nil, created but not counting, or counting down. */
  datatype Timer = NoTimer | Dormant | Running(deadline: Time)

  function Cancelled(t: Timer): Timer {
    if t.NoTimer? then NoTimer else Dormant
  }

  // ----- Dead-man switch -----

  datatype Deadman = Deadman(stopped: bool, armed: bool, timer: Timer) {

    function Started(): Deadman {
      Deadman(false, false, NoTimer)
    }

    /** A hold arms the countdown the first time and restarts it afterwards. */
    function Held(now: Time): Deadman {
      if stopped then this
      else if !armed then Deadman(stopped, true, Running(now + DEADMAN_TIMEOUT))
      else if !timer.NoTimer? then this.(timer := Running(now + DEADMAN_TIMEOUT))
      else this
    }

    /** Stopped by a call, or by the timer running out. */
    function Halted(): Deadman {
      Deadman(true, armed, Cancelled(timer))
    }

    predicate WellFormed() {
      && (armed <==> !timer.NoTimer?)
      && (timer.Running? ==> !stopped)
      && (armed && !stopped ==> timer.Running?)
    }

    function Abstract(): Countdown {
      Countdown(stopped, if timer.Running? then Some(timer.deadline) else None)
    }

    /** Fire if the timer has run out by `now`. */
    function Settled(now: Time): Deadman {
      if timer.Running? && timer.deadline <= now then Halted() else this
    }

    function Receives(s: Stamped): Deadman {
      match s.signal
      case Start => Started()
      case Stop => Halted()
      case Arm => Held(s.at)
      case Disarm => this
    }
  }

  const NEW_DEADMAN := Deadman(false, false, NoTimer)

  /** The dead-man switch under a trace of starts, holds (Arm) and stops. */
  function DeadmanAfter(trace: seq<Stamped>): Deadman {
    if trace == [] then NEW_DEADMAN
    else
      var last := trace[|trace| - 1];
      DeadmanAfter(trace[..|trace| - 1]).Settled(last.at).Receives(last)
  }

  lemma {:induction false} DeadmanRefinesCountdown(trace: seq<Stamped>)
    requires forall i | 0 <= i < |trace| :: trace[i].signal != Disarm
    ensures DeadmanAfter(trace).WellFormed()
    ensures DeadmanAfter(trace).Abstract() == Play(true, trace, DEADMAN_TIMEOUT)
  {
    if trace != [] {
      DeadmanRefinesCountdown(trace[..|trace| - 1]);
    }
  }

  /** Counting down iff armed and not stopped, and then the deadline is the last hold plus the
      timeout, that hold being the last signal; running iff no stop and no hold left unrenewed for a
      whole timeout since the last start; and it fires after the last signal iff that hold lapses. */
  lemma DeadmanExactly(trace: seq<Stamped>, now: Time)
    requires forall i | 0 <= i < |trace| :: trace[i].signal != Disarm
    ensures var d := DeadmanAfter(trace).Settled(now);
            var n := |trace|;
            && (!d.stopped <==> Live(true, trace, DEADMAN_TIMEOUT, now, n))
            && (d.timer.Running? <==> d.armed && !d.stopped)
            && (d.timer.Running? ==>
                  n > 0 && trace[n - 1].signal == Arm && d.timer.deadline == trace[n - 1].at + DEADMAN_TIMEOUT)
            && (d != DeadmanAfter(trace) <==> n > 0 && Trips(true, trace, DEADMAN_TIMEOUT, now, n - 1))
  {
    DeadmanRefinesCountdown(trace);
    CountdownExactly(true, trace, DEADMAN_TIMEOUT, now);
  }

  class DeadmanWatchdog {
    const sm: Machine
    var stopped: bool
    var armed: bool
    var timer: Timer

    ghost function View(): Deadman
      reads this
    {
      Deadman(stopped, armed, timer)
    }

    constructor (sm: Machine)
      ensures this.sm == sm && View() == NEW_DEADMAN
    {
      this.sm := sm;
      stopped, armed, timer := false, false, NoTimer;
    }

    method Start()
      modifies this
      ensures View() == old(View()).Started()
    {
      stopped, armed, timer := false, false, NoTimer;
    }

    method Reset(now: Time)
      modifies this
      ensures View() == old(View()).Held(now)
    {
      if stopped {
        return;
      }
      if !armed {
        armed := true;
        timer := Running(now + DEADMAN_TIMEOUT);
        return;
      }
      if !timer.NoTimer? {
        timer := Running(now + DEADMAN_TIMEOUT);
      }
    }

    method Stop()
      modifies this
      ensures View() == old(View()).Halted()
    {
      stopped := true;
      if !timer.NoTimer? {
        timer := Dormant;
      }
    }

    method Fire()
      modifies this, sm
      ensures if old(stopped) then View() == old(View()) && sm.View() == old(sm.View())
              else View() == old(View()).Halted() && sm.View() == Transition(old(sm.View()), SafeMode)
    {
      if stopped {
        return;
      }
      stopped := true;
      timer := if timer.NoTimer? then NoTimer else Dormant;
      var _ := sm.TransitionSystem(SafeMode);
    }
  }

  // ----- Vehicle ACK watchdog -----

  datatype VehicleAck = VehicleAck(stopped: bool, pending: Timer) {

    function Started(): VehicleAck {
      VehicleAck(false, NoTimer)
    }

    function Halted(): VehicleAck {
      VehicleAck(true, NoTimer)
    }

    function Forwarded(now: Time): VehicleAck {
      if stopped then this else VehicleAck(stopped, Running(now + VEHICLE_ACK_TIMEOUT))
    }

    function Acknowledged(): VehicleAck {
      VehicleAck(stopped, NoTimer)
    }

    function Abstract(): Countdown {
      Countdown(stopped, if pending.Running? then Some(pending.deadline) else None)
    }

    function Settled(now: Time): VehicleAck {
      if pending.Running? && pending.deadline <= now then Halted() else this
    }

    function Receives(s: Stamped): VehicleAck {
      match s.signal
      case Start => Started()
      case Stop => Halted()
      case Arm => Forwarded(s.at)
      case Disarm => Acknowledged()
    }
  }

  const NEW_VEHICLE_ACK := VehicleAck(true, NoTimer)

  /** The vehicle-ACK watchdog under a trace of starts, stops, forwards (Arm) and ACKs (Disarm). */
  function VehicleAckAfter(trace: seq<Stamped>): VehicleAck {
    if trace == [] then NEW_VEHICLE_ACK
    else
      var last := trace[|trace| - 1];
      VehicleAckAfter(trace[..|trace| - 1]).Settled(last.at).Receives(last)
  }

  lemma {:induction false} VehicleAckRefinesCountdown(trace: seq<Stamped>)
    ensures VehicleAckAfter(trace).Abstract() == Play(false, trace, VEHICLE_ACK_TIMEOUT)
    ensures VehicleAckAfter(trace).stopped ==> !VehicleAckAfter(trace).pending.Running?
  {
    if trace != [] {
      VehicleAckRefinesCountdown(trace[..|trace| - 1]);
    }
  }

  /** A deadline is pending iff the last signal is a forward made while running and less than a
      timeout old, and then it is that forward plus the timeout. */
  lemma VehicleAckExactly(trace: seq<Stamped>, now: Time)
    ensures var a := VehicleAckAfter(trace).Settled(now);
            var n := |trace|;
            && (!a.stopped <==> Live(false, trace, VEHICLE_ACK_TIMEOUT, now, n))
            && (a.pending.Running? <==> n > 0 && trace[n - 1].signal == Arm && !a.stopped)
            && (a.pending.Running? ==> a.pending.deadline == trace[n - 1].at + VEHICLE_ACK_TIMEOUT)
            && (a != VehicleAckAfter(trace) <==> n > 0 && Trips(false, trace, VEHICLE_ACK_TIMEOUT, now, n - 1))
  {
    VehicleAckRefinesCountdown(trace);
    CountdownExactly(false, trace, VEHICLE_ACK_TIMEOUT, now);
  }

  /** A start, then n forwards half a timeout apart, and never an ACK. */
  function Unacknowledged(n: nat): seq<Stamped> {
    seq(n + 1, i => Stamped(i as real * 0.5, if i == 0 then Start else Arm))
  }

  /** However long the vehicle stays silent, a steady stream of forwards keeps the watchdog from firing. */
  lemma SilenceIsMasked(n: nat)
    ensures var trace, now := Unacknowledged(n), n as real * 0.5;
            && (forall i | 0 <= i < |trace| :: trace[i].signal != Disarm)
            && Fires(false, trace, VEHICLE_ACK_TIMEOUT, now) == []
            && !VehicleAckAfter(trace).Settled(now).stopped
  {
    var trace, now := Unacknowledged(n), n as real * 0.5;
    forall i | 0 <= i < |trace|
      ensures Next(trace, i, now) < trace[i].at + VEHICLE_ACK_TIMEOUT
    {
    }
    SteadyArmingMasksSilence(false, trace, VEHICLE_ACK_TIMEOUT, now);
    VehicleAckExactly(trace, now);
    assert RunningSince(false, trace, VEHICLE_ACK_TIMEOUT, now, 0, |trace|);
  }

  class VehicleAckWatchdog {
    const sm: Machine
    var stopped: bool
    var pending: Timer

    ghost function View(): VehicleAck
      reads this
    {
      VehicleAck(stopped, pending)
    }

    constructor (sm: Machine)
      ensures this.sm == sm && View() == NEW_VEHICLE_ACK
    {
      this.sm := sm;
      stopped, pending := true, NoTimer;
    }

    method Start()
      modifies this
      ensures View() == old(View()).Started()
    {
      pending := NoTimer;
      stopped := false;
    }

    method Stop()
      modifies this
      ensures View() == old(View()).Halted()
    {
      stopped := true;
      pending := NoTimer;
    }

    method CommandForwarded(now: Time)
      modifies this
      ensures View() == old(View()).Forwarded(now)
    {
      if stopped {
        return;
      }
      pending := Running(now + VEHICLE_ACK_TIMEOUT);
    }

    method AckReceived()
      modifies this
      ensures View() == old(View()).Acknowledged()
    {
      pending := NoTimer;
    }

    method Fire()
      modifies this, sm
      ensures if old(stopped) then View() == old(View()) && sm.View() == old(sm.View())
              else View() == old(View()).Halted() && sm.View() == Transition(old(sm.View()), SafeMode)
    {
      if stopped {
        return;
      }
      stopped := true;
      pending := NoTimer;
      var _ := sm.TransitionSystem(SafeMode);
    }
  }

  // ----- Command ACK watcher -----

  class AckTimeoutWatcher {
    const sm: Machine
    var pending: Timer

    ghost function View(): Timer
      reads this
    {
      pending
    }

    constructor (sm: Machine)
      ensures this.sm == sm && View() == NoTimer
    {
      this.sm := sm;
      pending := NoTimer;
    }

    method CommandReceived(now: Time)
      modifies this
      ensures View() == Running(now + ACK_TIMEOUT)
    {
      pending := Running(now + ACK_TIMEOUT);
    }

    method CommandAcked()
      modifies this
      ensures View() == NoTimer
    {
      pending := NoTimer;
    }

    method Fire()
      modifies this, sm
      ensures View() == NoTimer && sm.View() == Transition(old(sm.View()), SafeMode)
    {
      pending := NoTimer;
      var _ := sm.TransitionSystem(SafeMode);
    }
  }
}
