/** Runs of the server in which an intended property fails. Each is built event by event from a new
    server, for any vehicle, operators and sessions. */
module Incidents {
  import opened Common
  import opened StateMachine
  import opened Watchdogs
  import opened Polling
  import opened Sessions
  import opened Vehicles
  import opened Protocol
  import opened ProtocolRuns
  import TokenBuckets

  /** The events lead from a new server at time `now` to world w. */
  ghost predicate LeadTo(now: Time, es: seq<Event>, w: World) {
    exists ws :: |ws| == |es| + 1 && ws[0] == NewWorld(now) && ws[|es|] == w && IsRun(ws, es)
  }

  lemma Begin(now: Time)
    ensures LeadTo(now, [], NewWorld(now))
  {
    var ws: seq<World>, es: seq<Event> := [NewWorld(now)], [];
    assert ws[0] == NewWorld(now) && IsRun(ws, es);
  }

  lemma Extend(now: Time, es: seq<Event>, w: World, e: Event)
    requires LeadTo(now, es, w) && Enabled(w, e)
    ensures LeadTo(now, es + [e], Step(w, e))
  {
    var ws :| |ws| == |es| + 1 && ws[0] == NewWorld(now) && ws[|es|] == w && IsRun(ws, es);
    RunContinues(ws, es, e);
    var longer := ws + [Step(w, e)];
    assert longer[0] == NewWorld(now) && longer[|es + [e]|] == Step(w, e);
  }

  // ----- One operator drives one vehicle -----

  /** The only session is s of operator a, controlling v. */
  predicate OnlySession(w: World, v: VehicleId, a: OperatorId, s: SessionId) {
    && w.roster == Roster(map[s := Session(s, v, a, Controller)], map[v := s])
    && w.issued == {s} && w.linked == {v} && v in w.fleet
  }

  /** ... and drives it over socket 0. */
  predicate Driving(w: World, v: VehicleId, a: OperatorId, s: SessionId) {
    && OnlySession(w, v, a, s)
    && w.sockets == map[0 := Socket(Session(s, v, a, Controller), false)]
    && var x := w.fleet[v];
       && x.machine.system == Connected && x.machine.control == ControlActive && x.machine.operator == ActiveOperator
       && x.auth == NEW_AUTH.Started(a) && !x.vehicleAck.stopped
  }

  function Started(v: VehicleId, a: OperatorId, s: SessionId): seq<Event> {
    [At(v, VehicleJoins), StartSession(v, a, false, s)]
  }

  lemma JoinRun(now: Time, v: VehicleId) returns (w: World)
    ensures LeadTo(now, [At(v, VehicleJoins)], w)
    ensures w == NewWorld(now).(fleet := map[v := NEW_VEHICLE], linked := {v})
  {
    Begin(now);
    Extend(now, [], NewWorld(now), At(v, VehicleJoins));
    w := Step(NewWorld(now), At(v, VehicleJoins));
    assert [] + [At(v, VehicleJoins)] == [At(v, VehicleJoins)];
  }

  /** A session start on a new server. */
  lemma StartRun(now: Time, v: VehicleId, a: OperatorId, s: SessionId) returns (w: World)
    requires v != "" && a != "" && s != ""
    ensures LeadTo(now, Started(v, a, s), w) && OnlySession(w, v, a, s) && w.sockets == map[]
    ensures w.limiter == TokenBuckets.Bucket(TokenBuckets.COMMANDS_PER_SECOND, now)
    ensures w.fleet[v] == Advanced(NEW_VEHICLE, a) && w.fleet[v].machine.system == Connected
  {
    var joined := JoinRun(now, v);
    Extend(now, [At(v, VehicleJoins)], joined, StartSession(v, a, false, s));
    w := Step(joined, StartSession(v, a, false, s));
    assert [At(v, VehicleJoins)] + [StartSession(v, a, false, s)] == Started(v, a, s);
  }

  lemma DriveRun(now: Time, v: VehicleId, a: OperatorId, s: SessionId) returns (w: World)
    requires v != "" && a != "" && s != ""
    ensures LeadTo(now, Started(v, a, s) + [OpenSocket(0, s)], w) && Driving(w, v, a, s)
    ensures w.limiter == TokenBuckets.Bucket(TokenBuckets.COMMANDS_PER_SECOND, now)
  {
    var before := StartRun(now, v, a, s);
    Extend(now, Started(v, a, s), before, OpenSocket(0, s));
    w := Step(before, OpenSocket(0, s));
  }

  // ----- Driving without a dead-man switch -----

  /** The first operator's socket closes after the second operator took over. */
  function Takeover(v: VehicleId, a: OperatorId, b: OperatorId, s: SessionId, t: SessionId): seq<Event> {
    Started(v, a, s) + [OpenSocket(0, s)] + [EndSession(s)] + [StartSession(v, b, false, t)] + [CloseSocket(0)]
  }

  lemma SessionEnds(w: World, v: VehicleId, a: OperatorId, s: SessionId)
    requires OnlySession(w, v, a, s) && s != "" && v in w.fleet && w.fleet[v].machine.Drivable()
    ensures var after := Step(w, EndSession(s));
            && after.roster == EMPTY_ROSTER && after.issued == {s} && after.linked == {v} && after.sockets == w.sockets
            && v in after.fleet && after.fleet[v].machine.system == Idle
            && after.fleet[v].auth == w.fleet[v].auth.Halted()
  {
  }

  lemma NextOperatorStarts(w: World, v: VehicleId, b: OperatorId, t: SessionId)
    requires w.roster == EMPTY_ROSTER && w.linked == {v} && v in w.fleet && w.fleet[v].machine.system == Idle
    requires v != "" && b != ""
    ensures var after := Step(w, StartSession(v, b, false, t));
            && after.roster == Roster(map[t := Session(t, v, b, Controller)], map[v := t]) && after.sockets == w.sockets
            && v in after.fleet && after.fleet[v].machine.system == Connected
            && after.fleet[v].machine.operator == ActiveOperator
            && after.fleet[v].auth == w.fleet[v].auth.Started(b)
  {
  }

  /** The session ends and the next operator takes the vehicle over; sockets stay as they are. */
  lemma ChangeRun(now: Time, es: seq<Event>, w: World, v: VehicleId, a: OperatorId, b: OperatorId,
                  s: SessionId, t: SessionId)
    returns (after: World)
    requires v != "" && b != "" && s != "" && t != "" && s != t
    requires LeadTo(now, es, w) && OnlySession(w, v, a, s) && w.fleet[v].machine.Drivable()
    ensures LeadTo(now, es + [EndSession(s)] + [StartSession(v, b, false, t)], after)
    ensures after.roster == Roster(map[t := Session(t, v, b, Controller)], map[v := t]) && after.sockets == w.sockets
    ensures v in after.fleet && after.fleet[v].machine.system == Connected
            && after.fleet[v].machine.operator == ActiveOperator
            && after.fleet[v].auth == w.fleet[v].auth.Halted().Started(b)
  {
    SessionEnds(w, v, a, s);
    Extend(now, es, w, EndSession(s));
    var ended := Step(w, EndSession(s));
    NextOperatorStarts(ended, v, b, t);
    Extend(now, es + [EndSession(s)], ended, StartSession(v, b, false, t));
    after := Step(ended, StartSession(v, b, false, t));
  }

  lemma LateCloseStopsWatch(w: World, v: VehicleId, a: OperatorId, s: SessionId)
    requires w.sockets == map[0 := Socket(Session(s, v, a, Controller), false)] && s !in w.roster.live && v in w.fleet
    ensures var after := Step(w, CloseSocket(0));
            && v in after.fleet && after.fleet[v].machine == w.fleet[v].machine
            && after.fleet[v].deadman.stopped && after.fleet[v].auth.running.None?
  {
  }

  /** At the end of the takeover the second operator drives without a dead-man switch and without an
      account check. */
  lemma DrivingUnwatched(now: Time, v: VehicleId, a: OperatorId, b: OperatorId, s: SessionId, t: SessionId)
    returns (w: World)
    requires v != "" && a != "" && b != "" && s != "" && t != "" && s != t
    ensures LeadTo(now, Takeover(v, a, b, s, t), w)
    ensures v in w.fleet && w.fleet[v].machine.system == Connected
            && w.fleet[v].deadman.stopped && w.fleet[v].auth.running.None?
  {
    var es := Started(v, a, s) + [OpenSocket(0, s)];
    var driving := DriveRun(now, v, a, s);
    var taken := ChangeRun(now, es, driving, v, a, b, s, t);
    LateCloseStopsWatch(taken, v, a, s);
    Extend(now, es + [EndSession(s)] + [StartSession(v, b, false, t)], taken, CloseSocket(0));
    w := Step(taken, CloseSocket(0));
  }

  // ----- Driving without a vehicle-ACK watchdog -----

  /** A forwarded command starts the vehicle-ACK timer. */
  lemma SteerIsForwarded(w: World, v: VehicleId, a: OperatorId, s: SessionId, now: Time)
    requires Driving(w, v, a, s) && Drawn(w, now, 0) && v != ""
    ensures var after := Step(w, Receive(0, Steer, now, true));
            && Forwarded(w, Receive(0, Steer, now, true)) == Some(Forward(v, s, Steer))
            && Driving(after, v, a, s)
            && after.fleet[v].vehicleAck.pending == Running(now + VEHICLE_ACK_TIMEOUT)
  {
  }

  lemma UnansweredCommandTrips(w: World, v: VehicleId, a: OperatorId, s: SessionId)
    requires Driving(w, v, a, s)
    ensures var after := Step(w, At(v, VehicleAckExpires));
            && OnlySession(after, v, a, s) && after.sockets == w.sockets
            && after.fleet[v].machine.system == SafeMode && after.fleet[v].vehicleAck.stopped
  {
  }

  lemma ReconnectRecovers(w: World, v: VehicleId, a: OperatorId, s: SessionId)
    requires s != "" && OnlySession(w, v, a, s) && w.fleet[v].machine.system == SafeMode
    ensures var after := Step(w, OpenSocket(1, s));
            && v in after.fleet && after.fleet[v].machine.system == Connected
            && after.fleet[v].vehicleAck == w.fleet[v].vehicleAck
  {
  }

  /** A command is forwarded, the vehicle does not acknowledge it in time, and the operator connects
      again: CONNECTED, the vehicle-ACK watchdog off. */
  lemma DrivingUnacknowledged(now: Time, v: VehicleId, a: OperatorId, s: SessionId)
    returns (forwarded: World, w: World)
    requires v != "" && a != "" && s != ""
    ensures var es := Started(v, a, s) + [OpenSocket(0, s)] + [Receive(0, Steer, now, true)];
            && LeadTo(now, es, forwarded)
            && LeadTo(now, es + [At(v, VehicleAckExpires)] + [OpenSocket(1, s)], w)
    ensures v in forwarded.fleet && forwarded.fleet[v].vehicleAck.pending == Running(now + VEHICLE_ACK_TIMEOUT)
    ensures v in w.fleet && w.fleet[v].machine.system == Connected && w.fleet[v].vehicleAck.stopped
  {
    var es := Started(v, a, s) + [OpenSocket(0, s)];
    var driving := DriveRun(now, v, a, s);
    SteerIsForwarded(driving, v, a, s, now);
    Extend(now, es, driving, Receive(0, Steer, now, true));
    forwarded := Step(driving, Receive(0, Steer, now, true));
    w := UnansweredRun(now, es + [Receive(0, Steer, now, true)], forwarded, v, a, s);
  }

  lemma UnansweredRun(now: Time, es: seq<Event>, w: World, v: VehicleId, a: OperatorId, s: SessionId)
    returns (after: World)
    requires LeadTo(now, es, w) && Driving(w, v, a, s) && s != ""
    ensures LeadTo(now, es + [At(v, VehicleAckExpires)] + [OpenSocket(1, s)], after)
    ensures v in after.fleet && after.fleet[v].machine.system == Connected && after.fleet[v].vehicleAck.stopped
  {
    UnansweredCommandTrips(w, v, a, s);
    Extend(now, es, w, At(v, VehicleAckExpires));
    var expired := Step(w, At(v, VehicleAckExpires));
    ReconnectRecovers(expired, v, a, s);
    Extend(now, es + [At(v, VehicleAckExpires)], expired, OpenSocket(1, s));
    after := Step(expired, OpenSocket(1, s));
  }

  // ----- An emergency stop refused by the limiter -----

  /** n messages of the driver at one instant. */
  function Flood(now: Time, c: Command, n: nat): seq<Event> {
    if n == 0 then [] else Flood(now, c, n - 1) + [Receive(0, c, now, true)]
  }

  /** The bucket at time `now`, n tokens taken. */
  predicate Drawn(w: World, now: Time, n: nat) {
    w.limiter == TokenBuckets.Bucket(TokenBuckets.COMMANDS_PER_SECOND - n as real, now)
  }

  lemma OneMessage(w: World, v: VehicleId, a: OperatorId, s: SessionId, now: Time, c: Command, n: nat)
    requires Driving(w, v, a, s) && Drawn(w, now, n) && n < 100 && !c.Malformed? && !c.EmergencyStop?
    ensures var after := Step(w, Receive(0, c, now, true)); Driving(after, v, a, s) && Drawn(after, now, n + 1)
  {
  }

  lemma MessageRun(now: Time, es: seq<Event>, w: World, v: VehicleId, a: OperatorId, s: SessionId, c: Command, n: nat)
    returns (after: World)
    requires LeadTo(now, es, w) && Driving(w, v, a, s) && Drawn(w, now, n)
    requires n < 100 && !c.Malformed? && !c.EmergencyStop?
    ensures LeadTo(now, es + [Receive(0, c, now, true)], after) && Driving(after, v, a, s) && Drawn(after, now, n + 1)
  {
    OneMessage(w, v, a, s, now, c, n);
    Extend(now, es, w, Receive(0, c, now, true));
    after := Step(w, Receive(0, c, now, true));
  }

  lemma {:induction false} FloodRun(now: Time, v: VehicleId, a: OperatorId, s: SessionId, c: Command, n: nat)
    returns (w: World)
    requires v != "" && a != "" && s != "" && n <= 100 && !c.Malformed? && !c.EmergencyStop?
    ensures LeadTo(now, Started(v, a, s) + [OpenSocket(0, s)] + Flood(now, c, n), w)
    ensures Driving(w, v, a, s) && Drawn(w, now, n)
  {
    var es := Started(v, a, s) + [OpenSocket(0, s)];
    if n == 0 {
      w := DriveRun(now, v, a, s);
      assert es + Flood(now, c, 0) == es;
    } else {
      var before := FloodRun(now, v, a, s, c, n - 1);
      w := MessageRun(now, es + Flood(now, c, n - 1), before, v, a, s, c, n - 1);
      assert es + Flood(now, c, n) == es + Flood(now, c, n - 1) + [Receive(0, c, now, true)];
    }
  }

  /** After a hundred messages at one instant the limiter refuses the driver's EMERGENCY_STOP, and the
      vehicle stays CONNECTED. */
  lemma StopIsRefused(now: Time, v: VehicleId, a: OperatorId, s: SessionId, c: Command) returns (before: World)
    requires v != "" && a != "" && s != "" && !c.Malformed? && !c.EmergencyStop?
    ensures LeadTo(now, Started(v, a, s) + [OpenSocket(0, s)] + Flood(now, c, 100), before)
    ensures MessageAnswer(before, 0, EmergencyStop, now) == Refused(RateLimited)
    ensures var w := Step(before, Receive(0, EmergencyStop, now, true));
            v in w.fleet && w.fleet[v].machine.system == Connected
  {
    before := FloodRun(now, v, a, s, c, 100);
  }

  // ----- A stopped account check that still fires -----

  /** One check fails, the next is under way when the session ends; it counts as failed, and its loop
      drops the operator of the next session. */
  lemma StaleCheckStopsNextSession(now: Time, v: VehicleId, a: OperatorId, b: OperatorId, s: SessionId, t: SessionId)
    returns (w: World)
    requires v != "" && a != "" && b != "" && s != "" && t != "" && s != t
    ensures LeadTo(now, Started(v, a, s) + [At(v, AuthPolled(false))] + [EndSession(s)]
                        + [StartSession(v, b, false, t)] + [At(v, StaleAuthCheck(Loop(a, 1), false))], w)
    ensures v in w.fleet && w.fleet[v].machine.system == SafeMode && w.fleet[v].machine.operator == NoOperator
    ensures t in w.roster.live && w.roster.live[t].operator == b
  {
    var es := Started(v, a, s) + [At(v, AuthPolled(false))];
    var polled := PolledRun(now, v, a, s);
    var taken := ChangeRun(now, es, polled, v, a, b, s, t);
    assert Loop(a, 1) in taken.fleet[v].auth.stopped;
    Extend(now, es + [EndSession(s)] + [StartSession(v, b, false, t)], taken, At(v, StaleAuthCheck(Loop(a, 1), false)));
    w := Step(taken, At(v, StaleAuthCheck(Loop(a, 1), false)));
  }

  lemma PolledRun(now: Time, v: VehicleId, a: OperatorId, s: SessionId) returns (w: World)
    requires v != "" && a != "" && s != ""
    ensures LeadTo(now, Started(v, a, s) + [At(v, AuthPolled(false))], w)
    ensures OnlySession(w, v, a, s) && w.fleet[v].machine.Drivable() && w.fleet[v].auth.running == Some(Loop(a, 1))
  {
    var before := StartRun(now, v, a, s);
    Extend(now, Started(v, a, s), before, At(v, AuthPolled(false)));
    w := Step(before, At(v, AuthPolled(false)));
  }

  // ----- After a handover -----

  function HandOver(v: VehicleId, a: OperatorId, b: OperatorId, s: SessionId): seq<Event> {
    Started(v, a, s) + [OpenSocket(0, s)] + [RequestHandover(v, a, b)] + [ConfirmHandover(v, b, true)]
  }

  /** Operator b has taken the session over, but the socket and the account check are still those of a. */
  predicate HandedTo(w: World, v: VehicleId, a: OperatorId, b: OperatorId, s: SessionId) {
    && w.roster == Roster(map[s := Session(s, v, b, Controller)], map[v := s])
    && w.linked == {v} && v in w.fleet
    && w.fleet[v].machine.Drivable() && w.fleet[v].machine.control == ControlActive
    && w.sockets == map[0 := Socket(Session(s, v, a, Controller), false)]
    && w.fleet[v].auth.running.Some? && w.fleet[v].auth.running.value.account == a
  }

  lemma RequestIsPending(w: World, v: VehicleId, a: OperatorId, b: OperatorId, s: SessionId)
    requires Driving(w, v, a, s) && v != ""
    ensures var after := Step(w, RequestHandover(v, a, b));
            && after == w.(fleet := after.fleet, pending := w.pending[v := Handover(a, b)])
            && v in after.fleet && after.fleet[v] == WithOperator(w.fleet[v], HandoverPending)
  {
  }

  lemma ConfirmHandsOver(w: World, v: VehicleId, a: OperatorId, b: OperatorId, s: SessionId)
    requires v != "" && OnlySession(w, v, a, s) && v in w.pending && w.pending[v].to == b
    requires w.sockets == map[0 := Socket(Session(s, v, a, Controller), false)]
    requires w.fleet[v].machine.Drivable() && w.fleet[v].machine.control == ControlActive
    requires w.fleet[v].auth == NEW_AUTH.Started(a)
    ensures var after := Step(w, ConfirmHandover(v, b, true));
            && HandedTo(after, v, a, b, s) && after.limiter == w.limiter
            && after.fleet[v].auth == w.fleet[v].auth
  {
  }

  lemma HandoverRun(now: Time, v: VehicleId, a: OperatorId, b: OperatorId, s: SessionId) returns (w: World)
    requires v != "" && a != "" && s != ""
    ensures LeadTo(now, HandOver(v, a, b, s), w) && HandedTo(w, v, a, b, s) && Drawn(w, now, 0)
    ensures w.fleet[v].auth == NEW_AUTH.Started(a)
  {
    var es := Started(v, a, s) + [OpenSocket(0, s)];
    var driving := DriveRun(now, v, a, s);
    RequestIsPending(driving, v, a, b, s);
    Extend(now, es, driving, RequestHandover(v, a, b));
    var pending := Step(driving, RequestHandover(v, a, b));
    ConfirmHandsOver(pending, v, a, b, s);
    Extend(now, es + [RequestHandover(v, a, b)], pending, ConfirmHandover(v, b, true));
    w := Step(pending, ConfirmHandover(v, b, true));
  }

  /** After the handover from a to b the old operator still drives over the socket that is open. */
  lemma OldOperatorStillDrives(now: Time, v: VehicleId, a: OperatorId, b: OperatorId, s: SessionId) returns (w: World)
    requires v != "" && a != "" && s != ""
    ensures LeadTo(now, HandOver(v, a, b, s), w)
    ensures 0 in w.sockets && w.sockets[0].session.operator == a
    ensures s in w.roster.live && w.roster.live[s].operator == b
    ensures Forwarded(w, Receive(0, Steer, now, true)) == Some(Forward(v, s, Steer))
  {
    w := HandoverRun(now, v, a, b, s);
  }

  lemma RevokedAccountTrips(w: World, v: VehicleId, a: OperatorId, b: OperatorId, s: SessionId)
    requires HandedTo(w, v, a, b, s) && w.fleet[v].auth == NEW_AUTH.Started(a)
    ensures var one := Step(w, At(v, AuthPolled(false)));
            var two := Step(one, At(v, AuthPolled(false)));
            && v in two.fleet && two.fleet[v].machine.system == SafeMode && two.fleet[v].machine.operator == NoOperator
            && two.roster == w.roster
  {
    var one := Step(w, At(v, AuthPolled(false)));
    assert one.fleet[v].auth.running == Some(Loop(a, 1)) && one.fleet[v].machine == w.fleet[v].machine;
  }

  /** After the handover the account check still asks for a: revoking a's account stops b. */
  lemma OldAccountStopsNewOperator(now: Time, v: VehicleId, a: OperatorId, b: OperatorId, s: SessionId)
    returns (w: World)
    requires v != "" && a != "" && s != ""
    ensures LeadTo(now, HandOver(v, a, b, s) + [At(v, AuthPolled(false))] + [At(v, AuthPolled(false))], w)
    ensures v in w.fleet && w.fleet[v].machine.system == SafeMode && w.fleet[v].machine.operator == NoOperator
    ensures s in w.roster.live && w.roster.live[s].operator == b
  {
    var handed := HandoverRun(now, v, a, b, s);
    RevokedAccountTrips(handed, v, a, b, s);
    Extend(now, HandOver(v, a, b, s), handed, At(v, AuthPolled(false)));
    var one := Step(handed, At(v, AuthPolled(false)));
    Extend(now, HandOver(v, a, b, s) + [At(v, AuthPolled(false))], one, At(v, AuthPolled(false)));
    w := Step(one, At(v, AuthPolled(false)));
  }
}
