/** When a vehicle that is being driven is not watched. The dead-man switch and the vehicle-ACK
    watchdog are meant to run while a vehicle is controlled; each can be off, and these are exactly
    the runs in which it is. */
module WatchdogCoverage {
  import opened Common
  import opened StateMachine
  import opened Polling
  import opened Sessions
  import opened Vehicles
  import opened Protocol
  import opened ProtocolSafety
  import opened ProtocolRuns

  // ----- Dead-man switch -----

  /** The event starts the dead-man switch of v: a session takes control, or its controller leaves
      SAFE_MODE by reconnecting. */
  predicate StartsDeadman(w: World, e: Event, v: VehicleId) {
    || (StartsControl(w, e) && e.v == v)
    || (e.OpenSocket? && Controls(w.roster, e.id, v) && Of(w.fleet, v).machine.system == SafeMode)
  }

  /** A controller's socket on v closes after its session already ended. */
  predicate LateClose(w: World, e: Event, v: VehicleId) {
    && e.CloseSocket? && e.socket in w.sockets
    && var k := w.sockets[e.socket];
       !k.observer && k.session.vehicle == v && k.session.id !in w.roster.live
  }

  /** The effect starts the watch over a vehicle in this context. */
  predicate StartsWatch(x: Vehicle, f: Effect) {
    f.Taken? || (f.Resumed? && x.machine.system == SafeMode)
  }

  lemma MetKeepsWatch(x: Vehicle, h: Happening)
    requires Resting(x.machine)
    ensures var after := Affected(x, h);
            && (after.machine.system != Idle ==> x.machine.system != Idle)
            && (after.vehicleAck.stopped <==> x.vehicleAck.stopped || h.VehicleAckExpires?)
            && (after.machine.Drivable() ==>
                  && x.machine.Drivable() && after.deadman.stopped == x.deadman.stopped
                  && (after.auth.running.None? <==> x.auth.running.None?))
  {
    match h {
      case AuthPolled(active) =>
        if x.auth.running.Some? {
          EffectIsAllOrNothing(x.auth.running.value, x.machine, active);
        }
      case StaleAuthCheck(loop, active) => EffectIsAllOrNothing(loop, x.machine, active);
      case _ =>
    }
  }

  /** How an effect moves the dead-man switch and the account check of a vehicle that is drivable
      afterwards. */
  lemma FeltWatch(x: Vehicle, f: Effect)
    requires Resting(x.machine) && Felt(x, f).machine.Drivable()
    ensures var after := Felt(x, f);
            if StartsWatch(x, f) then !after.deadman.stopped && after.auth.running.Some?
            else && x.machine.Drivable()
                 && (after.deadman.stopped <==> x.deadman.stopped || f == Disconnected(false))
                 && (after.auth.running.None? <==> x.auth.running.None? || f == Disconnected(false))
  {
    if f.Met? {
      MetKeepsWatch(x, f.what);
    }
  }

  /** How an effect moves the vehicle-ACK watchdog of a vehicle that is out of IDLE afterwards. */
  lemma FeltAck(x: Vehicle, f: Effect)
    requires Resting(x.machine) && Felt(x, f).machine.system != Idle
    ensures var after := Felt(x, f);
            if f.Taken? then !after.vehicleAck.stopped
            else && x.machine.system != Idle
                 && (after.vehicleAck.stopped <==> x.vehicleAck.stopped || f == Met(VehicleAckExpires))
  {
    if f.Met? {
      MetKeepsWatch(x, f.what);
    }
  }

  /** Which events have which of these effects. */
  lemma WatchEffects(w: World, e: Event, v: VehicleId)
    ensures var f := EffectOn(w, e, v);
            && (StartsWatch(Of(w.fleet, v), f) <==> StartsDeadman(w, e, v))
            && (f == Disconnected(false) <==> LateClose(w, e, v))
            && (f.Taken? <==> StartsControl(w, e) && e.v == v)
            && (f == Met(VehicleAckExpires) <==> e == At(v, VehicleAckExpires))
  {
  }

  /** Since step k, a late close of v, nothing restarted the dead-man switch. */
  predicate UnwatchedSince(ws: seq<World>, es: seq<Event>, i: nat, v: VehicleId, k: nat)
    requires |ws| == |es| + 1 && i <= |es|
  {
    && k < i && LateClose(ws[k], es[k], v)
    && forall j | k < j < i :: !StartsDeadman(ws[j], es[j], v)
  }

  ghost predicate Unwatched(ws: seq<World>, es: seq<Event>, i: nat, v: VehicleId)
    requires |ws| == |es| + 1 && i <= |es|
  {
    exists k: nat :: UnwatchedSince(ws, es, i, v, k)
  }

  lemma UnwatchedStep(ws: seq<World>, es: seq<Event>, i: nat, v: VehicleId)
    requires |ws| == |es| + 1 && i < |es|
    ensures Unwatched(ws, es, i + 1, v) <==>
              !StartsDeadman(ws[i], es[i], v) && (LateClose(ws[i], es[i], v) || Unwatched(ws, es, i, v))
  {
    if LateClose(ws[i], es[i], v) {
      assert UnwatchedSince(ws, es, i + 1, v, i);
    } else if Unwatched(ws, es, i, v) && !StartsDeadman(ws[i], es[i], v) {
      var k: nat :| UnwatchedSince(ws, es, i, v, k);
      assert UnwatchedSince(ws, es, i + 1, v, k);
    }
    if Unwatched(ws, es, i + 1, v) {
      var k: nat :| UnwatchedSince(ws, es, i + 1, v, k);
      assert k < i ==> UnwatchedSince(ws, es, i, v, k);
    }
  }

  lemma DeadmanStep(w: World, e: Event, v: VehicleId)
    requires Inv(w) && Of(Step(w, e).fleet, v).machine.Drivable()
    ensures var before, after := Of(w.fleet, v), Of(Step(w, e).fleet, v);
            if StartsDeadman(w, e, v) then !after.deadman.stopped
            else before.machine.Drivable()
                 && (after.deadman.stopped <==> before.deadman.stopped || LateClose(w, e, v))
  {
    OfIsSound(w, v);
    StepSeen(w, e, v);
    WatchEffects(w, e, v);
    FeltWatch(Of(w.fleet, v), EffectOn(w, e, v));
  }

  lemma DeadmanAlongRun(ws: seq<World>, es: seq<Event>, i: nat, v: VehicleId)
    requires IsRun(ws, es) && i < |es| && Of(ws[i + 1].fleet, v).machine.Drivable()
    ensures var before, after := Of(ws[i].fleet, v), Of(ws[i + 1].fleet, v);
            if StartsDeadman(ws[i], es[i], v) then !after.deadman.stopped
            else before.machine.Drivable()
                 && (after.deadman.stopped <==> before.deadman.stopped || LateClose(ws[i], es[i], v))
  {
    assert Happens(ws, es, i);
    RunKeepsInv(ws, es, i);
    DeadmanStep(ws[i], es[i], v);
  }

  /** A drivable vehicle is without its dead-man switch exactly when, since the switch was last
      started, a controller's socket of an already ended session closed late. */
  lemma {:induction false} DeadmanOffExactly(ws: seq<World>, es: seq<Event>, i: nat, v: VehicleId)
    requires IsRun(ws, es) && i <= |es| && Of(ws[i].fleet, v).machine.Drivable()
    ensures Of(ws[i].fleet, v).deadman.stopped <==> Unwatched(ws, es, i, v)
  {
    if i > 0 {
      DeadmanAlongRun(ws, es, i - 1, v);
      UnwatchedStep(ws, es, i - 1, v);
      if !StartsDeadman(ws[i - 1], es[i - 1], v) {
        DeadmanOffExactly(ws, es, i - 1, v);
      }
    }
  }

  // ----- Account check -----

  lemma AuthAlongRun(ws: seq<World>, es: seq<Event>, i: nat, v: VehicleId)
    requires IsRun(ws, es) && i < |es| && Of(ws[i + 1].fleet, v).machine.Drivable()
    ensures var before, after := Of(ws[i].fleet, v), Of(ws[i + 1].fleet, v);
            if StartsDeadman(ws[i], es[i], v) then after.auth.running.Some?
            else before.machine.Drivable()
                 && (after.auth.running.None? <==> before.auth.running.None? || LateClose(ws[i], es[i], v))
  {
    assert Happens(ws, es, i);
    RunKeepsInv(ws, es, i);
    OfIsSound(ws[i], v);
    StepSeen(ws[i], es[i], v);
    WatchEffects(ws[i], es[i], v);
    FeltWatch(Of(ws[i].fleet, v), EffectOn(ws[i], es[i], v));
  }

  /** The same late close stops the account check: no loop of it runs for a drivable vehicle exactly when
      the dead-man switch is off. Whose account a running loop asks for is another matter. */
  lemma {:induction false} AuthOffExactly(ws: seq<World>, es: seq<Event>, i: nat, v: VehicleId)
    requires IsRun(ws, es) && i <= |es| && Of(ws[i].fleet, v).machine.Drivable()
    ensures Of(ws[i].fleet, v).auth.running.None? <==> Unwatched(ws, es, i, v)
  {
    if i > 0 {
      AuthAlongRun(ws, es, i - 1, v);
      UnwatchedStep(ws, es, i - 1, v);
      if !StartsDeadman(ws[i - 1], es[i - 1], v) {
        AuthOffExactly(ws, es, i - 1, v);
      }
    }
  }

  // ----- Vehicle-ACK watchdog -----

  predicate ExpiredSince(ws: seq<World>, es: seq<Event>, i: nat, v: VehicleId, k: nat)
    requires |ws| == |es| + 1 && i <= |es|
  {
    && k < i && es[k] == At(v, VehicleAckExpires)
    && forall j | k < j < i :: !(StartsControl(ws[j], es[j]) && es[j].v == v)
  }

  ghost predicate Expired(ws: seq<World>, es: seq<Event>, i: nat, v: VehicleId)
    requires |ws| == |es| + 1 && i <= |es|
  {
    exists k: nat :: ExpiredSince(ws, es, i, v, k)
  }

  lemma ExpiredStep(ws: seq<World>, es: seq<Event>, i: nat, v: VehicleId)
    requires |ws| == |es| + 1 && i < |es|
    ensures Expired(ws, es, i + 1, v) <==>
              && !(StartsControl(ws[i], es[i]) && es[i].v == v)
              && (es[i] == At(v, VehicleAckExpires) || Expired(ws, es, i, v))
  {
    if es[i] == At(v, VehicleAckExpires) {
      assert ExpiredSince(ws, es, i + 1, v, i);
    } else if Expired(ws, es, i, v) && !(StartsControl(ws[i], es[i]) && es[i].v == v) {
      var k: nat :| ExpiredSince(ws, es, i, v, k);
      assert ExpiredSince(ws, es, i + 1, v, k);
    }
    if Expired(ws, es, i + 1, v) {
      var k: nat :| ExpiredSince(ws, es, i + 1, v, k);
      assert k < i ==> ExpiredSince(ws, es, i, v, k);
    }
  }

  lemma VehicleAckStep(w: World, e: Event, v: VehicleId)
    requires Inv(w) && Of(Step(w, e).fleet, v).machine.system != Idle
    ensures var before, after := Of(w.fleet, v), Of(Step(w, e).fleet, v);
            if StartsControl(w, e) && e.v == v then !after.vehicleAck.stopped
            else before.machine.system != Idle
                 && (after.vehicleAck.stopped <==> before.vehicleAck.stopped || e == At(v, VehicleAckExpires))
  {
    OfIsSound(w, v);
    StepSeen(w, e, v);
    WatchEffects(w, e, v);
    FeltAck(Of(w.fleet, v), EffectOn(w, e, v));
  }

  lemma VehicleAckAlongRun(ws: seq<World>, es: seq<Event>, i: nat, v: VehicleId)
    requires IsRun(ws, es) && i < |es| && Of(ws[i + 1].fleet, v).machine.system != Idle
    ensures var before, after := Of(ws[i].fleet, v), Of(ws[i + 1].fleet, v);
            if StartsControl(ws[i], es[i]) && es[i].v == v then !after.vehicleAck.stopped
            else before.machine.system != Idle
                 && (after.vehicleAck.stopped <==> before.vehicleAck.stopped || es[i] == At(v, VehicleAckExpires))
  {
    assert Happens(ws, es, i);
    RunKeepsInv(ws, es, i);
    VehicleAckStep(ws[i], es[i], v);
  }

  /** A controlled vehicle is without its vehicle-ACK watchdog exactly when the watchdog expired since
      the controlling session started: reconnecting after SAFE_MODE does not restart it. */
  lemma {:induction false} VehicleAckOffExactly(ws: seq<World>, es: seq<Event>, i: nat, v: VehicleId)
    requires IsRun(ws, es) && i <= |es| && Of(ws[i].fleet, v).machine.system != Idle
    ensures Of(ws[i].fleet, v).vehicleAck.stopped <==> Expired(ws, es, i, v)
  {
    if i > 0 {
      VehicleAckAlongRun(ws, es, i - 1, v);
      ExpiredStep(ws, es, i - 1, v);
      if !(StartsControl(ws[i - 1], es[i - 1]) && es[i - 1].v == v) {
        VehicleAckOffExactly(ws, es, i - 1, v);
      }
    }
  }
}
