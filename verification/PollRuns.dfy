/** The polling watchdogs inside whole runs of the server: the counters are the answers of the polls, and a
    poll acts exactly when the answers say so. */
module PollRuns {
  import opened Common
  import opened StateMachine
  import opened Polling
  import opened Vehicles
  import opened Protocol
  import opened ProtocolSafety
  import opened ProtocolRuns
  import opened WatchdogCoverage
  import opened StaleLoops
  import opened Effects

  // ----- Safety bus -----

  /** The answers of the bus polls before event i. */
  function BusAnswers(es: seq<Event>, i: nat): seq<bool>
    requires i <= |es|
  {
    if i == 0 then [] else BusAnswers(es, i - 1) + if es[i - 1].BusPolled? then [es[i - 1].healthy] else []
  }

  lemma BusCounterStep(w: World, e: Event)
    ensures Step(w, e).busFailures
            == if e.BusPolled? then Count(w.busFailures, e.healthy, BUS_THRESHOLD) else w.busFailures
  {
  }

  lemma BusCounterAlongRun(ws: seq<World>, es: seq<Event>, i: nat)
    requires IsRun(ws, es) && i < |es|
    ensures ws[i + 1].busFailures
            == if es[i].BusPolled? then Count(ws[i].busFailures, es[i].healthy, BUS_THRESHOLD) else ws[i].busFailures
  {
    assert Happens(ws, es, i);
    BusCounterStep(ws[i], es[i]);
  }

  /** In every run the server's counter is the trailing run of failed bus polls, modulo the threshold. */
  lemma {:induction false} BusCounterFollowsPolls(ws: seq<World>, es: seq<Event>, i: nat)
    requires IsRun(ws, es) && i <= |es|
    ensures ws[i].busFailures == Streak(0, BusAnswers(es, i)) % BUS_THRESHOLD
  {
    if i > 0 {
      BusCounterFollowsPolls(ws, es, i - 1);
      BusCounterAlongRun(ws, es, i - 1);
      BusRemainderStep(es, i - 1, ws[i - 1].busFailures);
    } else {
      RemainderOf(0, 0, BUS_THRESHOLD);
    }
  }

  lemma BusRemainderStep(es: seq<Event>, i: nat, failures: nat)
    requires i < |es| && failures == Streak(0, BusAnswers(es, i)) % BUS_THRESHOLD
    ensures (if es[i].BusPolled? then Count(failures, es[i].healthy, BUS_THRESHOLD) else failures)
            == Streak(0, BusAnswers(es, i + 1)) % BUS_THRESHOLD
  {
    if es[i].BusPolled? {
      BusStreakStep(es, i);
      CountIsStreakRemainder(Streak(0, BusAnswers(es, i)), es[i].healthy, BUS_THRESHOLD);
    } else {
      assert BusAnswers(es, i + 1) == BusAnswers(es, i);
    }
  }

  /** The context of a vehicle after a bus poll that finds this counter. */
  predicate BusTicks(w: World, healthy: bool, v: VehicleId, y: Vehicle) {
    var x := Of(w.fleet, v);
    y == if Acts(w.busFailures, healthy, BUS_THRESHOLD) && v in w.roster.controller
         then x.(machine := InSafeMode(x.machine)) else x
  }

  lemma BusTickOnVehicle(w: World, healthy: bool, v: VehicleId)
    requires Inv(w)
    ensures BusTicks(w, healthy, v, Of(Step(w, BusPolled(healthy)).fleet, v))
  {
    StepSeen(w, BusPolled(healthy), v);
    OfIsSound(w, v);
    StopIsWrittenOut(Of(w.fleet, v), v in w.roster.controller, v in w.pending);
    if v in w.roster.controller {
      ControllerHasSession(w.roster, v);
    }
  }

  lemma BusTickAlongRun(ws: seq<World>, es: seq<Event>, i: nat, v: VehicleId)
    requires IsRun(ws, es) && i < |es| && es[i].BusPolled?
    ensures BusTicks(ws[i], es[i].healthy, v, Of(ws[i + 1].fleet, v))
  {
    assert Happens(ws, es, i);
    RunKeepsInv(ws, es, i);
    BusTickOnVehicle(ws[i], es[i].healthy, v);
  }

  lemma BusStreakStep(es: seq<Event>, i: nat)
    requires i < |es| && es[i].BusPolled?
    ensures Streak(0, BusAnswers(es, i + 1)) == if es[i].healthy then 0 else Streak(0, BusAnswers(es, i)) + 1
  {
    var answers, healthy := BusAnswers(es, i), es[i].healthy;
    assert (answers + [healthy])[..|answers|] == answers;
  }

  /** In every run a bus poll puts every controlled vehicle into SAFE_MODE when the trailing run of failed
      polls reaches a positive multiple of the threshold, and changes no vehicle otherwise. */
  lemma BusPollExactly(ws: seq<World>, es: seq<Event>, i: nat, v: VehicleId)
    requires IsRun(ws, es) && i < |es| && es[i].BusPolled?
    ensures var x, streak := Of(ws[i].fleet, v), Streak(0, BusAnswers(es, i + 1));
            Of(ws[i + 1].fleet, v)
            == if streak > 0 && streak % 2 == 0 && v in ws[i].roster.controller
               then x.(machine := InSafeMode(x.machine)) else x
  {
    BusCounterFollowsPolls(ws, es, i);
    BusStreakStep(es, i);
    CountIsStreakRemainder(Streak(0, BusAnswers(es, i)), es[i].healthy, BUS_THRESHOLD);
    BusTickAlongRun(ws, es, i, v);
  }

  // ----- Account check -----

  /** The machine after a check that dropped the operator. */
  function WithoutOperator(m: Layers): Layers {
    if m.Drivable() then InSafeMode(m).(operator := NoOperator) else m.(operator := NoOperator)
  }

  /** The answers of the account polls of v since the watch over v was last started. */
  function AuthAnswers(ws: seq<World>, es: seq<Event>, i: nat, v: VehicleId): seq<bool>
    requires |ws| == |es| + 1 && i <= |es|
    decreases i
  {
    if i == 0 || StartsDeadman(ws[i - 1], es[i - 1], v) then []
    else
      AuthAnswers(ws, es, i - 1, v)
      + if IsPoll(es[i - 1], v) then [es[i - 1].what.active] else []
  }

  /** The running loop and the machine after an account poll that finds a loop with this counter. */
  predicate Polls(x: Vehicle, active: bool, y: Vehicle) {
    if x.auth.running.None? then y == x
    else
      var loop := x.auth.running.value;
      if !active && loop.failures + 1 >= AUTH_THRESHOLD
      then y == x.(machine := WithoutOperator(x.machine), auth := Auth(None, x.auth.stopped))
      else y == x.(auth := Auth(Some(Loop(loop.account, if active then 0 else loop.failures + 1)), x.auth.stopped))
  }

  lemma AuthPollIsWrittenOut(x: Vehicle, active: bool)
    requires Resting(x.machine)
    ensures Polls(x, active, Felt(x, Met(AuthPolled(active))))
  {
  }

  /** How an event moves the running loop. */
  predicate RunningMoves(x: Vehicle, w: World, e: Event, v: VehicleId, y: Vehicle) {
    if StartsDeadman(w, e, v) then y.auth.running.Some? && y.auth.running.value.failures == 0
    else if IsPoll(e, v) then Polls(x, e.what.active, y)
    else y.auth.running.Some? ==> y.auth.running == x.auth.running
  }

  lemma FeltRunning(x: Vehicle, f: Effect)
    requires Resting(x.machine)
    ensures var y := Felt(x, f);
            if StartsWatch(x, f) then y.auth.running.Some? && y.auth.running.value.failures == 0
            else if f.Met? && f.what.AuthPolled? then Polls(x, f.what.active, y)
            else y.auth.running.Some? ==> y.auth.running == x.auth.running
  {
    if f.Met? && f.what.AuthPolled? {
      AuthPollIsWrittenOut(x, f.what.active);
    }
  }

  lemma AuthPollEffects(w: World, e: Event, v: VehicleId)
    ensures var f := EffectOn(w, e, v);
            && (f.Met? && f.what.AuthPolled? <==> IsPoll(e, v))
            && (f.Met? ==> e == At(v, f.what))
  {
  }

  lemma RunningAlongRun(ws: seq<World>, es: seq<Event>, i: nat, v: VehicleId)
    requires IsRun(ws, es) && i < |es|
    ensures RunningMoves(Of(ws[i].fleet, v), ws[i], es[i], v, Of(ws[i + 1].fleet, v))
  {
    assert Happens(ws, es, i);
    RunKeepsInv(ws, es, i);
    OfIsSound(ws[i], v);
    StepSeen(ws[i], es[i], v);
    WatchEffects(ws[i], es[i], v);
    AuthPollEffects(ws[i], es[i], v);
    FeltRunning(Of(ws[i].fleet, v), EffectOn(ws[i], es[i], v));
  }

  predicate IsPoll(e: Event, v: VehicleId) {
    e.At? && e.v == v && e.what.AuthPolled?
  }

  lemma AuthStreakStep(ws: seq<World>, es: seq<Event>, i: nat, v: VehicleId)
    requires |ws| == |es| + 1 && i < |es|
    ensures var before, after := Streak(0, AuthAnswers(ws, es, i, v)), Streak(0, AuthAnswers(ws, es, i + 1, v));
            after == if StartsDeadman(ws[i], es[i], v) then 0
                     else if !IsPoll(es[i], v) then before else if es[i].what.active then 0 else before + 1
  {
    var answers := AuthAnswers(ws, es, i, v);
    if !StartsDeadman(ws[i], es[i], v) {
      if IsPoll(es[i], v) {
        assert (answers + [es[i].what.active])[..|answers|] == answers;
      } else {
        assert AuthAnswers(ws, es, i + 1, v) == answers;
      }
    }
  }

  /** In every run the counter of the running loop is the trailing run of failed polls since the check was
      last started. */
  lemma {:induction false} AuthCounterFollowsPolls(ws: seq<World>, es: seq<Event>, i: nat, v: VehicleId)
    requires IsRun(ws, es) && i <= |es|
    ensures var a := Of(ws[i].fleet, v).auth;
            a.running.Some? ==> a.running.value.failures == Streak(0, AuthAnswers(ws, es, i, v))
  {
    if i > 0 && Of(ws[i].fleet, v).auth.running.Some? {
      AuthCounterFollowsPolls(ws, es, i - 1, v);
      AuthStreakStep(ws, es, i - 1, v);
      RunningAlongRun(ws, es, i - 1, v);
      CounterMoves(Of(ws[i - 1].fleet, v), ws[i - 1], es[i - 1], v, Of(ws[i].fleet, v));
    }
  }

  lemma CounterMoves(x: Vehicle, w: World, e: Event, v: VehicleId, y: Vehicle)
    requires RunningMoves(x, w, e, v, y) && y.auth.running.Some?
    ensures if StartsDeadman(w, e, v) then y.auth.running.value.failures == 0
            else && x.auth.running.Some?
                 && y.auth.running.value.failures
                    == if !IsPoll(e, v) then x.auth.running.value.failures
                       else if e.what.active then 0 else x.auth.running.value.failures + 1
  {
  }

  lemma PollByStreak(x: Vehicle, active: bool, y: Vehicle, streak: nat)
    requires x.auth.running.Some? && Polls(x, active, y)
    requires x.auth.running.value.failures < AUTH_THRESHOLD
    requires streak == if active then 0 else x.auth.running.value.failures + 1
    ensures if streak >= AUTH_THRESHOLD
            then y == x.(machine := WithoutOperator(x.machine), auth := Auth(None, x.auth.stopped))
            else y == x.(auth := Auth(Some(Loop(x.auth.running.value.account, streak)), x.auth.stopped))
  {
  }

  /** In every run an account poll that finds a running loop drops the operator exactly when the trailing run
      of failed polls since the check was started reaches the threshold; then the loop ends, and a drivable
      vehicle is in SAFE_MODE. Otherwise the poll changes nothing but the loop's counter. */
  lemma AuthPollExactly(ws: seq<World>, es: seq<Event>, i: nat, v: VehicleId)
    requires IsRun(ws, es) && i < |es| && IsPoll(es[i], v) && Of(ws[i].fleet, v).auth.running.Some?
    ensures var x, y := Of(ws[i].fleet, v), Of(ws[i + 1].fleet, v);
            var streak := Streak(0, AuthAnswers(ws, es, i + 1, v));
            if streak >= 2
            then y == x.(machine := WithoutOperator(x.machine), auth := Auth(None, x.auth.stopped))
            else y == x.(auth := Auth(Some(Loop(x.auth.running.value.account, streak)), x.auth.stopped))
  {
    LoopsAreConserved(ws, es, i, v);
    AuthCounterFollowsPolls(ws, es, i, v);
    AuthStreakStep(ws, es, i, v);
    RunningAlongRun(ws, es, i, v);
    PollByStreak(Of(ws[i].fleet, v), es[i].what.active, Of(ws[i + 1].fleet, v),
                 Streak(0, AuthAnswers(ws, es, i + 1, v)));
  }

  // ----- Stopped loops -----

  /** What a check of a stopped loop leaves. */
  predicate LeftBy(x: Vehicle, loop: Loop, active: bool, y: Vehicle) {
    var rest := x.auth.stopped - multiset{loop};
    if !active && loop.failures + 1 >= AUTH_THRESHOLD
    then y == x.(machine := WithoutOperator(x.machine), auth := Auth(x.auth.running, rest))
    else
      var left := Loop(loop.account, if active then 0 else loop.failures + 1);
      y == x.(auth := Auth(x.auth.running, rest + multiset{left}))
  }

  lemma StaleIsWrittenOut(x: Vehicle, loop: Loop, active: bool)
    requires Resting(x.machine)
    ensures LeftBy(x, loop, active, Affected(x, StaleAuthCheck(loop, active)))
  {
  }

  /** A check of a stopped loop drops the operator exactly when it fails at the threshold, and the loop is
      gone; otherwise the loop is left with its new counter, zero after a success. */
  lemma StaleCheckExactly(w: World, v: VehicleId, loop: Loop, active: bool)
    requires Inv(w)
    ensures var after := Step(w, At(v, StaleAuthCheck(loop, active)));
            OnlyFleetChanges(w, after) && LeftBy(Of(w.fleet, v), loop, active, Of(after.fleet, v))
  {
    OfIsSound(w, v);
    PutSeen(w, v, Affected(Of(w.fleet, v), StaleAuthCheck(loop, active)), v);
    StaleIsWrittenOut(Of(w.fleet, v), loop, active);
  }

  /** Event i is a check of this stopped loop of v. */
  predicate Rechecks(e: Event, v: VehicleId, loop: Loop, active: bool) {
    e == At(v, StaleAuthCheck(loop, active))
  }

  lemma StaleAlongRun(ws: seq<World>, es: seq<Event>, i: nat, v: VehicleId, loop: Loop, active: bool)
    requires IsRun(ws, es) && i < |es| && Rechecks(es[i], v, loop, active)
    ensures LeftBy(Of(ws[i].fleet, v), loop, active, Of(ws[i + 1].fleet, v))
  {
    assert Happens(ws, es, i);
    RunKeepsInv(ws, es, i);
    StaleCheckExactly(ws[i], v, loop, active);
  }

  /** The events from i on are checks of one stopped loop, with these answers; none but the last completes the
      threshold. */
  predicate RecheckedFrom(es: seq<Event>, i: nat, v: VehicleId, loop: Loop, answers: seq<bool>) {
    && i + |answers| <= |es|
    && forall n | 0 <= n < |answers| ::
         var failures := Streak(loop.failures, answers[..n]);
         failures < AUTH_THRESHOLD && Rechecks(es[i + n], v, Loop(loop.account, failures), answers[n])
  }

  lemma RecheckedFront(es: seq<Event>, i: nat, v: VehicleId, loop: Loop, answers: seq<bool>)
    requires answers != [] && RecheckedFrom(es, i, v, loop, answers)
    ensures var front, n := answers[..|answers| - 1], |answers| - 1;
            var failures := Streak(loop.failures, front);
            && RecheckedFrom(es, i, v, loop, front) && failures < AUTH_THRESHOLD
            && Rechecks(es[i + n], v, Loop(loop.account, failures), answers[n])
  {
    var front := answers[..|answers| - 1];
    forall n | 0 <= n < |front|
      ensures front[..n] == answers[..n] && front[n] == answers[n]
    {
    }
  }

  /** In every run a stopped loop drops the operator at the first check at which the failures in a row, those
      before it was stopped included, reach the threshold, and not before: failures with a success between
      them do not add up. */
  lemma {:induction false} StaleLoopCountsStreaks(ws: seq<World>, es: seq<Event>, i: nat, v: VehicleId, loop: Loop,
                                                  answers: seq<bool>)
    requires IsRun(ws, es) && RecheckedFrom(es, i, v, loop, answers)
    ensures var x, y := Of(ws[i].fleet, v), Of(ws[i + |answers|].fleet, v);
            y.machine == if answers != [] && Streak(loop.failures, answers) >= 2
                         then WithoutOperator(x.machine) else x.machine
    decreases |answers|
  {
    if answers != [] {
      var n := |answers| - 1;
      var front := answers[..n];
      RecheckedFront(es, i, v, loop, answers);
      StaleLoopCountsStreaks(ws, es, i, v, loop, front);
      StaleMachineAlongRun(ws, es, i + n, v, Loop(loop.account, Streak(loop.failures, front)), answers[n]);
    }
  }

  lemma StaleMachineAlongRun(ws: seq<World>, es: seq<Event>, i: nat, v: VehicleId, loop: Loop, active: bool)
    requires IsRun(ws, es) && i < |es| && Rechecks(es[i], v, loop, active)
    ensures Of(ws[i + 1].fleet, v).machine
            == if !active && loop.failures + 1 >= AUTH_THRESHOLD then WithoutOperator(Of(ws[i].fleet, v).machine)
               else Of(ws[i].fleet, v).machine
  {
    StaleAlongRun(ws, es, i, v, loop, active);
  }

  // ----- Telemetry -----

  /** The machine after a telemetry report, written out. */
  predicate Reported(m: Layers, healthy: bool, n: Layers) {
    if m.Drivable() && !healthy then n == m.(system := Degraded, causes := m.causes + {TelemetryCause})
    else if m.system == Degraded && healthy then
      var causes := m.causes - {TelemetryCause};
      n == m.(system := if causes == {} then Connected else Degraded, causes := causes)
    else n == m
  }

  /** The machine after one check with this counter: a good answer is reported at once, a bad one at the
      threshold. */
  predicate CheckedBy(m: Layers, failures: nat, recent: bool, n: Layers) {
    if recent || failures + 1 >= TELEMETRY_THRESHOLD then Reported(m, recent, n) else n == m
  }

  function NextCount(failures: nat, recent: bool): nat {
    if recent || failures + 1 >= TELEMETRY_THRESHOLD then 0 else failures + 1
  }

  lemma TelemetryCheckIsWrittenOut(m: Layers, failures: nat, recent: bool)
    requires Resting(m)
    ensures CheckedBy(m, failures, recent, PolledMachine(m, failures, recent, TELEMETRY_THRESHOLD))
  {
  }

  /** One poll of a running telemetry loop. */
  lemma TelemetryPollExactly(w: World, v: VehicleId, recent: bool)
    requires Inv(w)
    ensures var after := Step(w, At(v, TelemetryPolled(recent)));
            var x, y := Of(w.fleet, v), Of(after.fleet, v);
            && OnlyFleetChanges(w, after)
            && if x.telemetry.running.None? then y == x
               else var failures := x.telemetry.running.value;
                    && CheckedBy(x.machine, failures, recent, y.machine)
                    && y == x.(machine := y.machine,
                               telemetry := TelemetryPoller(Some(NextCount(failures, recent)), x.telemetry.stopped))
  {
    OfIsSound(w, v);
    var x := Of(w.fleet, v);
    PutSeen(w, v, Affected(x, TelemetryPolled(recent)), v);
    if x.telemetry.running.Some? {
      TelemetryCheckIsWrittenOut(x.machine, x.telemetry.running.value, recent);
    }
  }

  /** One check of a stopped telemetry loop. */
  lemma StaleTelemetryExactly(w: World, v: VehicleId, failures: nat, recent: bool)
    requires Inv(w)
    ensures var after := Step(w, At(v, StaleTelemetryCheck(failures, recent)));
            var x, y := Of(w.fleet, v), Of(after.fleet, v);
            var left := x.telemetry.stopped - multiset{failures} + multiset{NextCount(failures, recent)};
            && OnlyFleetChanges(w, after)
            && CheckedBy(x.machine, failures, recent, y.machine)
            && y == x.(machine := y.machine, telemetry := TelemetryPoller(x.telemetry.running, left))
  {
    OfIsSound(w, v);
    var x := Of(w.fleet, v);
    PutSeen(w, v, Affected(x, StaleTelemetryCheck(failures, recent)), v);
    TelemetryCheckIsWrittenOut(x.machine, failures, recent);
  }
}
