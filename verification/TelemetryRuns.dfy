/** The telemetry watchdog inside whole runs of the server: while a vehicle stays drivable, its polls
    decide whether telemetry is a cause of DEGRADED, and after a recovery from SAFE_MODE a feed that
    still fails degrades the vehicle again. */
module TelemetryRuns {
  import opened Common
  import opened StateMachine
  import opened Polling
  import opened Vehicles
  import opened Protocol
  import opened ProtocolSafety
  import opened ProtocolRuns

  /** What the watchdog sees of a vehicle. */
  function WatchedOf(x: Vehicle): Watched {
    Watched(x.machine, if x.telemetry.running.Some? then x.telemetry.running.value else 0)
  }

  function WatchedIn(w: World, v: VehicleId): Watched {
    WatchedOf(Of(w.fleet, v))
  }

  /** The event is a check of v's telemetry: a poll of the running loop, or the late answer to a
      stopped one. */
  predicate Checks(e: Event, v: VehicleId) {
    e.At? && e.v == v && (e.what.TelemetryPolled? || e.what.StaleTelemetryCheck?)
  }

  predicate IsStale(e: Event, v: VehicleId) {
    e.At? && e.v == v && e.what.StaleTelemetryCheck?
  }

  predicate IsReport(e: Event, v: VehicleId) {
    e.At? && e.v == v && e.what.MediaEvent? && v != ""
  }

  predicate IsPoll(e: Event, v: VehicleId) {
    e.At? && e.v == v && e.what.TelemetryPolled?
  }

  /** The answers to v's polls among the events lo..hi. */
  function PollsOf(es: seq<Event>, v: VehicleId, lo: nat, hi: nat): seq<bool>
    requires lo <= hi <= |es|
  {
    if lo == hi then []
    else PollsOf(es, v, lo, hi - 1) + if IsPoll(es[hi - 1], v) then [es[hi - 1].what.recent] else []
  }

  // ----- One step -----

  /** How an event moves the watchdog's view of a vehicle that is drivable before and after it. */
  predicate Moves(x: Watched, e: Event, v: VehicleId, y: Watched) {
    if IsPoll(e, v) then
      && y.machine == PolledMachine(x.machine, x.failures, e.what.recent, TELEMETRY_THRESHOLD)
      && y.failures == Count(x.failures, e.what.recent, TELEMETRY_THRESHOLD)
    else if Checks(e, v) then
      && y.machine == PolledMachine(x.machine, e.what.failures, e.what.recent, TELEMETRY_THRESHOLD)
      && y.failures == x.failures
    else if IsReport(e, v) then
      y == x.(machine := ReportMedia(x.machine, e.what.report))
    else
      y.machine.system == x.machine.system && y.machine.causes == x.machine.causes && y.failures == x.failures
  }

  /** Nothing but a report or a telemetry check moves the machine of a vehicle that stays drivable. */
  lemma OthersKeepMachine(x: Vehicle, h: Happening)
    requires x.machine.Drivable() && Affected(x, h).machine.Drivable()
    requires !h.MediaEvent? && !h.TelemetryPolled? && !h.StaleTelemetryCheck?
    ensures Affected(x, h).machine == x.machine && Affected(x, h).telemetry == x.telemetry
  {
    match h {
      case AuthPolled(active) =>
        if x.auth.running.Some? {
          EffectIsAllOrNothing(x.auth.running.value, x.machine, active);
        }
      case StaleAuthCheck(loop, active) => EffectIsAllOrNothing(loop, x.machine, active);
      case _ =>
    }
  }

  lemma MetMoves(x: Vehicle, v: VehicleId, h: Happening)
    requires x.machine.Drivable() && Polled(x.telemetry) && Affected(x, h).machine.Drivable() && !Ignored(v, h)
    ensures Moves(WatchedOf(x), At(v, h), v, WatchedOf(Affected(x, h)))
  {
    if !h.MediaEvent? && !h.TelemetryPolled? && !h.StaleTelemetryCheck? {
      OthersKeepMachine(x, h);
    }
  }

  lemma FeltMoves(x: Vehicle, f: Effect)
    requires !f.Met? && !f.Taken? && x.machine.Drivable() && Felt(x, f).machine.Drivable()
    ensures var y := Felt(x, f);
            y.machine.system == x.machine.system && y.machine.causes == x.machine.causes && y.telemetry == x.telemetry
  {
  }

  lemma FeedEffects(w: World, e: Event, v: VehicleId)
    ensures var f := EffectOn(w, e, v);
            && (f.Met? <==> e.At? && e.v == v && !Ignored(v, e.what))
            && (f.Met? ==> e == At(v, f.what))
            && (f.Taken? <==> StartsControl(w, e) && e.v == v)
  {
  }

  lemma FeedSeen(w: World, e: Event, v: VehicleId)
    requires var x := Of(w.fleet, v); x.machine.Drivable() && Polled(x.telemetry)
    requires Seen(w, e, v).machine.Drivable() && !(StartsControl(w, e) && e.v == v)
    ensures Moves(WatchedIn(w, v), e, v, WatchedOf(Seen(w, e, v)))
  {
    FeedEffects(w, e, v);
    var x, f := Of(w.fleet, v), EffectOn(w, e, v);
    if f.Met? {
      MetMoves(x, v, f.what);
    } else {
      FeltMoves(x, f);
    }
  }

  lemma FeedStep(ws: seq<World>, es: seq<Event>, i: nat, v: VehicleId)
    requires IsRun(ws, es) && i < |es|
    requires Of(ws[i].fleet, v).machine.Drivable() && Of(ws[i + 1].fleet, v).machine.Drivable()
    ensures Moves(WatchedIn(ws[i], v), es[i], v, WatchedIn(ws[i + 1], v))
  {
    assert Happens(ws, es, i);
    RunKeepsInv(ws, es, i);
    OfIsSound(ws[i], v);
    StepSeen(ws[i], es[i], v);
    DrivenIsTaken(ws[i], es[i], v);
    FeedSeen(ws[i], es[i], v);
  }

  /** A drivable vehicle has a controller, so no session can start to control it. */
  lemma DrivenIsTaken(w: World, e: Event, v: VehicleId)
    requires Inv(w) && Of(w.fleet, v).machine.Drivable()
    ensures Polled(Of(w.fleet, v).telemetry) && !(StartsControl(w, e) && e.v == v)
  {
    OfIsSound(w, v);
  }

  lemma TracksStep(x: Watched, e: Event, v: VehicleId, y: Watched, streak: nat)
    requires Moves(x, e, v, y) && !IsStale(e, v)
    requires Tracks(x, streak, TELEMETRY_THRESHOLD)
    ensures Tracks(y, if !IsPoll(e, v) then streak else if e.what.recent then 0 else streak + 1, TELEMETRY_THRESHOLD)
  {
    if IsPoll(e, v) {
      PollKeepsTracking(x, streak, e.what.recent, TELEMETRY_THRESHOLD);
    } else if IsReport(e, v) {
      VideoKeepsTracking(x, streak, e.what.report, TELEMETRY_THRESHOLD);
    }
  }

  // ----- Stretches of a run -----

  predicate DrivenThroughout(ws: seq<World>, v: VehicleId, lo: nat, hi: nat)
    requires hi < |ws|
  {
    forall j | lo <= j <= hi :: Of(ws[j].fleet, v).machine.Drivable()
  }

  predicate Undisturbed(es: seq<Event>, v: VehicleId, lo: nat, hi: nat)
    requires hi <= |es|
  {
    forall j | lo <= j < hi :: !IsStale(es[j], v)
  }

  /** In every run, while a vehicle stays drivable, whatever else happens to it and to the other
      vehicles, its telemetry cause is active exactly when the trailing run of its failed polls has
      reached the threshold. */
  lemma {:induction false} TelemetryCauseInRun(ws: seq<World>, es: seq<Event>, lo: nat, hi: nat, v: VehicleId)
    requires IsRun(ws, es) && lo <= hi <= |es| && DrivenThroughout(ws, v, lo, hi) && Undisturbed(es, v, lo, hi)
    requires TelemetryCause !in Of(ws[lo].fleet, v).machine.causes
    ensures var streak := Streak(WatchedIn(ws[lo], v).failures, PollsOf(es, v, lo, hi));
            Tracks(WatchedIn(ws[hi], v), streak, TELEMETRY_THRESHOLD)
    decreases hi
  {
    if lo == hi {
      RunKeepsInv(ws, es, lo);
      OfIsSound(ws[lo], v);
      FreshTracks(WatchedIn(ws[lo], v), TELEMETRY_THRESHOLD);
    } else {
      var i, e := hi - 1, es[hi - 1];
      TelemetryCauseInRun(ws, es, lo, i, v);
      FeedStep(ws, es, i, v);
      var polls := PollsOf(es, v, lo, i);
      TracksStep(WatchedIn(ws[i], v), e, v, WatchedIn(ws[hi], v), Streak(WatchedIn(ws[lo], v).failures, polls));
      if IsPoll(e, v) {
        assert (polls + [e.what.recent])[..|polls|] == polls;
      } else {
        assert PollsOf(es, v, lo, hi) == polls;
      }
    }
  }

  // ----- After a recovery -----

  /** v's controller leaves SAFE_MODE by reconnecting. */
  predicate Recovers(w: World, e: Event, v: VehicleId) {
    e.OpenSocket? && Controls(w.roster, e.id, v) && Of(w.fleet, v).machine.system == SafeMode
  }

  lemma RecoveryKeepsPolling(x: Vehicle, op: OperatorId, handover: bool)
    requires Sound(x, true, handover) && x.machine.system == SafeMode
    ensures Fresh(WatchedOf(Recovered(x, op)), TELEMETRY_THRESHOLD) && Recovered(x, op).telemetry == x.telemetry
  {
  }

  /** A recovered vehicle is drivable without a telemetry cause, and its telemetry loop still runs where
      it was. */
  lemma RecoveredIsFresh(ws: seq<World>, es: seq<Event>, r: nat, v: VehicleId)
    requires IsRun(ws, es) && r < |es| && Recovers(ws[r], es[r], v)
    ensures Fresh(WatchedIn(ws[r + 1], v), TELEMETRY_THRESHOLD)
    ensures Polled(Of(ws[r].fleet, v).telemetry) && Of(ws[r + 1].fleet, v).telemetry == Of(ws[r].fleet, v).telemetry
  {
    assert Happens(ws, es, r);
    RunKeepsInv(ws, es, r);
    OfIsSound(ws[r], v);
    StepSeen(ws[r], es[r], v);
    RecoveryKeepsPolling(Of(ws[r].fleet, v), ws[r].roster.live[es[r].id].operator, v in ws[r].pending);
  }

  predicate NoneHealthy(es: seq<Event>, v: VehicleId, lo: nat, hi: nat)
    requires hi <= |es|
  {
    forall j | lo <= j < hi && Checks(es[j], v) :: !es[j].what.recent
  }

  lemma {:induction false} AllOfThemFail(es: seq<Event>, v: VehicleId, lo: nat, hi: nat)
    requires lo <= hi <= |es| && NoneHealthy(es, v, lo, hi)
    ensures forall k | 0 <= k < |PollsOf(es, v, lo, hi)| :: !PollsOf(es, v, lo, hi)[k]
    decreases hi
  {
    if lo < hi {
      AllOfThemFail(es, v, lo, hi - 1);
    }
  }

  /** The counter after `failed` failures in a row; the cause is active once they reach the threshold. */
  predicate Failing(x: Watched, failed: nat) {
    && x.machine.Drivable()
    && x.failures == failed % TELEMETRY_THRESHOLD
    && (failed >= TELEMETRY_THRESHOLD ==> TelemetryCause in x.machine.causes)
    && (TelemetryCause in x.machine.causes ==> x.machine.system == Degraded)
  }

  /** The late answer to a stopped loop may bring the cause earlier, but never takes it away. */
  lemma FailingStep(x: Watched, e: Event, v: VehicleId, y: Watched, failed: nat)
    requires Moves(x, e, v, y) && (Checks(e, v) ==> !e.what.recent)
    requires Failing(x, failed)
    ensures Failing(y, if IsPoll(e, v) then failed + 1 else failed)
  {
  }

  lemma {:induction false} FailingStretch(ws: seq<World>, es: seq<Event>, lo: nat, hi: nat, v: VehicleId)
    requires IsRun(ws, es) && lo <= hi <= |es| && DrivenThroughout(ws, v, lo, hi) && NoneHealthy(es, v, lo, hi)
    requires Fresh(WatchedIn(ws[lo], v), TELEMETRY_THRESHOLD)
    ensures Failing(WatchedIn(ws[hi], v), WatchedIn(ws[lo], v).failures + |PollsOf(es, v, lo, hi)|)
    decreases hi
  {
    if lo < hi {
      var i := hi - 1;
      FailingStretch(ws, es, lo, i, v);
      FailingStep(WatchedIn(ws[i], v), es[i], v, WatchedIn(ws[hi], v),
                  WatchedIn(ws[lo], v).failures + |PollsOf(es, v, lo, i)|) by {
        FeedStep(ws, es, i, v);
      }
    }
  }

  /** In every run: after v's controller left SAFE_MODE by reconnecting, while v stays drivable and no
      check of its telemetry succeeds, v is DEGRADED with the telemetry cause once its polls complete
      the counter, hence after two of them at the latest; without late answers to stopped loops, not
      before. */
  lemma FailingFeedDegradesAgain(ws: seq<World>, es: seq<Event>, r: nat, i: nat, v: VehicleId)
    requires IsRun(ws, es) && r < i <= |es| && Recovers(ws[r], es[r], v)
    requires DrivenThroughout(ws, v, r + 1, i) && NoneHealthy(es, v, r + 1, i)
    ensures var m, n := Of(ws[i].fleet, v).machine, |PollsOf(es, v, r + 1, i)|;
            var due := 2 - WatchedIn(ws[r], v).failures;
            && 1 <= due <= 2
            && (n >= due ==> TelemetryCause in m.causes && m.system == Degraded)
            && (Undisturbed(es, v, r + 1, i) ==> (TelemetryCause in m.causes <==> n >= due))
  {
    RecoveredIsFresh(ws, es, r, v);
    FailingStretch(ws, es, r + 1, i, v);
    if Undisturbed(es, v, r + 1, i) {
      TelemetryCauseInRun(ws, es, r + 1, i, v);
      AllOfThemFail(es, v, r + 1, i);
      AllFailing(WatchedIn(ws[r], v).failures, PollsOf(es, v, r + 1, i));
    }
  }
}
