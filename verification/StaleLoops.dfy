/** Account-check loops that were stopped. Stopping a loop fails a check that is under way, and the loop
    may finish more checks before it ends, so it can still drop the operator of a later session. This
    module says in which runs. */
module StaleLoops {
  import opened Common
  import opened StateMachine
  import opened Polling
  import opened Vehicles
  import opened Protocol
  import opened ProtocolSafety
  import opened ProtocolRuns
  import opened WatchdogCoverage

  // ----- Events that stop a loop, and checks of stopped loops that fire -----

  predicate EndsControl(w: World, e: Event, v: VehicleId) {
    e.EndSession? && (Controls(w.roster, e.id, v) || (e.id == "" && v in Controlled(w.roster)))
  }

  predicate ClosesController(w: World, e: Event, v: VehicleId) {
    e.CloseSocket? && e.socket in w.sockets && !w.sockets[e.socket].observer && w.sockets[e.socket].session.vehicle == v
  }

  /** The account check of v runs, and the event stops it or starts it anew. */
  predicate StopsLoop(w: World, e: Event, v: VehicleId) {
    && Of(w.fleet, v).auth.running.Some?
    && (StartsDeadman(w, e, v) || EndsControl(w, e, v) || ClosesController(w, e, v))
  }

  /** A stopped loop of v drops the operator, and ends. */
  predicate FiresLate(e: Event, v: VehicleId) {
    e.At? && e.v == v && e.what.StaleAuthCheck? && e.what.loop.Fires(e.what.active)
  }

  function StopCount(ws: seq<World>, es: seq<Event>, i: nat, v: VehicleId): nat
    requires |ws| == |es| + 1 && i <= |es|
    decreases i
  {
    if i == 0 then 0 else StopCount(ws, es, i - 1, v) + if StopsLoop(ws[i - 1], es[i - 1], v) then 1 else 0
  }

  function LateFireCount(es: seq<Event>, i: nat, v: VehicleId): nat
    requires i <= |es|
  {
    if i == 0 then 0 else LateFireCount(es, i - 1, v) + if FiresLate(es[i - 1], v) then 1 else 0
  }

  // ----- One step -----

  /** No loop's counter reaches the threshold: a loop that gets there fires and ends. */
  predicate Short(a: Auth) {
    && (a.running.Some? ==> a.running.value.failures < AUTH_THRESHOLD)
    && (forall loop | loop in a.stopped :: loop.failures < AUTH_THRESHOLD)
  }

  predicate StopsBy(x: Vehicle, f: Effect) {
    x.auth.running.Some? && (StartsWatch(x, f) || f.Released? || f.Disconnected?)
  }

  /** The check of a stopped loop exists only if there is such a loop. */
  predicate Possible(x: Vehicle, f: Effect) {
    f.Met? && f.what.StaleAuthCheck? ==> f.what.loop in x.auth.stopped
  }

  lemma FeltLoops(x: Vehicle, f: Effect)
    requires Possible(x, f) && Short(x.auth)
    ensures var y := Felt(x, f);
            && Short(y.auth)
            && |y.auth.stopped| == |x.auth.stopped| + (if StopsBy(x, f) then 1 else 0)
                 - (if f.Met? && f.what.StaleAuthCheck? && f.what.loop.Fires(f.what.active) then 1 else 0)
  {
    if f.Met? {
      MetLoops(x, f.what);
    }
  }

  lemma MetLoops(x: Vehicle, h: Happening)
    requires Short(x.auth) && (h.StaleAuthCheck? ==> h.loop in x.auth.stopped)
    ensures var y := Affected(x, h);
            && Short(y.auth)
            && |y.auth.stopped| == |x.auth.stopped| - if h.StaleAuthCheck? && h.loop.Fires(h.active) then 1 else 0
  {
  }

  lemma LoopEffects(w: World, e: Event, v: VehicleId)
    requires Enabled(w, e)
    ensures var x, f := Of(w.fleet, v), EffectOn(w, e, v);
            && Possible(x, f)
            && (StopsBy(x, f) <==> StopsLoop(w, e, v))
            && (f.Met? && f.what.StaleAuthCheck? && f.what.loop.Fires(f.what.active) <==> FiresLate(e, v))
  {
    WatchEffects(w, e, v);
  }

  lemma LoopStep(ws: seq<World>, es: seq<Event>, i: nat, v: VehicleId)
    requires IsRun(ws, es) && i < |es| && Short(Of(ws[i].fleet, v).auth)
    ensures var a, b := Of(ws[i].fleet, v).auth, Of(ws[i + 1].fleet, v).auth;
            && Short(b)
            && |b.stopped| == |a.stopped| + (if StopsLoop(ws[i], es[i], v) then 1 else 0)
                              - (if FiresLate(es[i], v) then 1 else 0)
  {
    assert Happens(ws, es, i);
    RunKeepsInv(ws, es, i);
    StepSeen(ws[i], es[i], v);
    LoopEffects(ws[i], es[i], v);
    FeltLoops(Of(ws[i].fleet, v), EffectOn(ws[i], es[i], v));
  }

  // ----- Whole runs -----

  /** In every run the stopped loops that are left are the loops that were stopped less those that fired
      late. */
  lemma {:induction false} LoopsAreConserved(ws: seq<World>, es: seq<Event>, i: nat, v: VehicleId)
    requires IsRun(ws, es) && i <= |es|
    ensures var a := Of(ws[i].fleet, v).auth;
            Short(a) && |a.stopped| + LateFireCount(es, i, v) == StopCount(ws, es, i, v)
    decreases i
  {
    if i > 0 {
      LoopsAreConserved(ws, es, i - 1, v);
      LoopStep(ws, es, i - 1, v);
    }
  }

  /** A failing check of this stopped loop is possible now and puts v into SAFE_MODE, or another one
      after it does. */
  predicate Drops(w: World, v: VehicleId, loop: Loop) {
    var first := At(v, StaleAuthCheck(loop, false));
    && Enabled(w, first)
    && var one := Step(w, first);
       || Of(one.fleet, v).machine.system == SafeMode
       || (var second := At(v, StaleAuthCheck(loop.After(false), false));
           Enabled(one, second) && Of(Step(one, second).fleet, v).machine.system == SafeMode)
  }

  function Failed(loop: Loop): Happening {
    StaleAuthCheck(loop, false)
  }

  lemma LateCheckSeen(w: World, v: VehicleId, loop: Loop)
    ensures Of(Step(w, At(v, Failed(loop))).fleet, v) == Affected(Of(w.fleet, v), Failed(loop))
  {
    PutSeen(w, v, Affected(Of(w.fleet, v), Failed(loop)), v);
  }

  lemma FailedCheckDrops(x: Vehicle, loop: Loop)
    requires x.machine.Drivable()
    ensures var y := Affected(x, Failed(loop));
            if loop.Fires(false) then y.machine.system == SafeMode
            else y.machine == x.machine && loop.After(false) in y.auth.stopped
  {
  }

  lemma StoppedLoopDrops(w: World, v: VehicleId, loop: Loop)
    requires Of(w.fleet, v).machine.Drivable() && loop in Of(w.fleet, v).auth.stopped && loop.failures < AUTH_THRESHOLD
    ensures Drops(w, v, loop)
  {
    var one := Step(w, At(v, Failed(loop)));
    LateCheckSeen(w, v, loop);
    FailedCheckDrops(Of(w.fleet, v), loop);
    if !loop.Fires(false) {
      LateCheckSeen(one, v, loop.After(false));
      FailedCheckDrops(Of(one.fleet, v), loop.After(false));
    }
  }

  /** In every run a stopped loop can still take a drivable vehicle from its operator exactly when more
      loops of the vehicle were stopped than have fired late. */
  lemma StaleDropExactly(ws: seq<World>, es: seq<Event>, i: nat, v: VehicleId)
    requires IsRun(ws, es) && i <= |es| && Of(ws[i].fleet, v).machine.Drivable()
    ensures (exists loop :: Drops(ws[i], v, loop)) <==> StopCount(ws, es, i, v) > LateFireCount(es, i, v)
  {
    LoopsAreConserved(ws, es, i, v);
    var stopped := Of(ws[i].fleet, v).auth.stopped;
    if stopped != multiset{} {
      var loop :| loop in stopped;
      StoppedLoopDrops(ws[i], v, loop);
    }
  }
}
