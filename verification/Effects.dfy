/** What each request, socket, timer and poll does to the server, said of the server's state alone:
    which vehicles have a controller, who is linked, which timers run. Nothing here speaks of the handlers
    or of the functions that define them. */
module Effects {
  import opened Common
  import opened StateMachine
  import opened StateMachineRuns
  import opened Watchdogs
  import opened Polling
  import opened Sessions
  import opened Vehicles
  import opened Protocol
  import opened ProtocolSafety
  import opened ProtocolRuns
  import Interleavings

  predicate OnlyFleetChanges(w: World, after: World) {
    after == w.(fleet := after.fleet)
  }

  // ----- Contexts, written out -----

  function InSafeMode(m: Layers): Layers {
    Layers(SafeMode, ControlBlocked, m.media, m.operator, {})
  }

  /** The switch without a countdown. */
  function Stilled(d: Deadman): Deadman {
    Deadman(true, d.armed, if d.timer.NoTimer? then NoTimer else Dormant)
  }

  /** The account-check loops that are left when the running one is stopped. */
  function LoopsLeft(a: Auth): multiset<Loop> {
    a.stopped + if a.running.Some? then multiset{a.running.value} else multiset{}
  }

  function CountersLeft(t: TelemetryPoller): multiset<nat> {
    t.stopped + if t.running.Some? then multiset{t.running.value} else multiset{}
  }

  /** A context that was just taken into control by op. */
  predicate JustTaken(x: Vehicle, op: OperatorId, y: Vehicle) {
    && y.machine == Layers(Connected, ControlActive, x.machine.media, ActiveOperator, x.machine.causes)
    && y.deadman == Deadman(false, false, NoTimer) && y.vehicleAck == VehicleAck(false, NoTimer)
    && y.auth == Auth(Some(Loop(op, 0)), LoopsLeft(x.auth))
    && y.telemetry == TelemetryPoller(Some(0), CountersLeft(x.telemetry)) && y.ackTimer == x.ackTimer
  }

  /** A context whose session just ended. */
  predicate JustReleased(x: Vehicle, y: Vehicle) {
    && y.machine == Layers(Idle, ControlInit, x.machine.media, NoOperator, x.machine.causes)
    && y.deadman == Stilled(x.deadman) && y.vehicleAck == VehicleAck(true, NoTimer)
    && y.auth == Auth(None, LoopsLeft(x.auth)) && y.telemetry == TelemetryPoller(None, CountersLeft(x.telemetry))
    && y.ackTimer == x.ackTimer
  }

  lemma TakenIsWrittenOut(x: Vehicle, op: OperatorId, handover: bool)
    requires Sound(x, false, handover)
    ensures JustTaken(x, op, Felt(x, Taken(op)))
  {
  }

  lemma ReleasedIsWrittenOut(x: Vehicle, handover: bool)
    requires Sound(x, true, handover)
    ensures JustReleased(x, Felt(x, Effect.Released))
  {
  }

  lemma DisconnectIsWrittenOut(x: Vehicle, sessionLive: bool, controlled: bool, handover: bool)
    requires Sound(x, controlled, handover) && (sessionLive ==> controlled)
    ensures Felt(x, Disconnected(sessionLive))
            == x.(deadman := Stilled(x.deadman), auth := Auth(None, LoopsLeft(x.auth)),
                  machine := if sessionLive && x.machine.system != SafeMode
                             then InSafeMode(x.machine).(operator := NoOperator) else x.machine)
  {
  }

  lemma StopIsWrittenOut(x: Vehicle, controlled: bool, handover: bool)
    requires Sound(x, controlled, handover)
    ensures Felt(x, Stopped) == if controlled then x.(machine := InSafeMode(x.machine)) else x
  {
  }

  /** A session start and a recovery make the machine calls of their scripts, in order. */
  lemma ScriptsAreTheHandlers(x: Vehicle, op: OperatorId)
    ensures Felt(x, Taken(op)).machine == ApplyAll(x.machine, Interleavings.Calls(Interleavings.SessionStart))
    ensures x.machine.system == SafeMode ==>
              Felt(x, Resumed(op)).machine == ApplyAll(x.machine, Interleavings.Calls(Interleavings.Recovery))
  {
    ApplyFour(x.machine, Interleavings.Calls(Interleavings.SessionStart));
    ApplyFour(x.machine, Interleavings.Calls(Interleavings.Recovery));
  }

  lemma ApplyFour(m: Layers, cs: seq<Call>)
    requires |cs| == 4
    ensures ApplyAll(m, cs) == Apply(Apply(Apply(Apply(m, cs[0]), cs[1]), cs[2]), cs[3])
  {
    ApplyThree(m, cs[..3]);
  }

  // ----- Sessions -----

  /** A start request creates a session exactly when it names a vehicle and an operator, the vehicle is
      linked, and a request to observe finds a controller; otherwise nothing happens. The session observes
      exactly when the vehicle has a controller, and else takes it over. */
  lemma SessionStartExactly(w: World, v: VehicleId, op: OperatorId, asObserver: bool, id: SessionId)
    requires Inv(w) && Enabled(w, StartSession(v, op, asObserver, id))
    ensures var after := Step(w, StartSession(v, op, asObserver, id));
            var taken := v in w.roster.controller;
            if v != "" && op != "" && v in w.linked && (asObserver ==> taken) then
              && after.roster.live == w.roster.live[id := Session(id, v, op, if taken then Observer else Controller)]
              && after.roster.controller == (if taken then w.roster.controller else w.roster.controller[v := id])
              && after == w.(fleet := after.fleet, roster := after.roster, issued := w.issued + {id})
            else
              id !in after.roster.live && after == w
  {
    StartExactly(w.roster, v, op, id);
    IndexAgreesWithScan(w.roster, v);
  }

  lemma SessionStartOnVehicle(w: World, v: VehicleId, op: OperatorId, asObserver: bool, id: SessionId)
    requires Inv(w) && Enabled(w, StartSession(v, op, asObserver, id))
    ensures var x, y := Of(w.fleet, v), Of(Step(w, StartSession(v, op, asObserver, id)).fleet, v);
            if v != "" && op != "" && v in w.linked && !asObserver && v !in w.roster.controller then JustTaken(x, op, y)
            else y == x
  {
    var e := StartSession(v, op, asObserver, id);
    StepSeen(w, e, v);
    OfIsSound(w, v);
    IndexAgreesWithScan(w.roster, v);
    assert EffectOn(w, e, v)
        == if v != "" && op != "" && v in w.linked && !asObserver && v !in w.roster.controller then Taken(op)
           else Untouched;
    if v !in w.roster.controller {
      TakenIsWrittenOut(Of(w.fleet, v), op, v in w.pending);
    }
  }

  /** A session that ends is gone, and its vehicle, if it controlled one, is free and in IDLE without an
      operator or a running watchdog; nothing else changes. */
  lemma SessionEndExactly(w: World, id: SessionId)
    requires Inv(w) && id != ""
    ensures var after := Step(w, EndSession(id));
            && after == w.(fleet := after.fleet, roster := after.roster)
            && after.roster.live == w.roster.live - {id}
            && after.roster.controller
               == map v | v in w.roster.controller && w.roster.controller[v] != id :: w.roster.controller[v]
  {
    ReleaseExactly(w.roster, id);
  }

  lemma SessionEndOnVehicle(w: World, id: SessionId, v: VehicleId)
    requires Inv(w)
    ensures var x, y := Of(w.fleet, v), Of(Step(w, EndSession(id)).fleet, v);
            if v in w.roster.controller && (id == "" || w.roster.controller[v] == id) then JustReleased(x, y)
            else y == x
  {
    var e := EndSession(id);
    StepSeen(w, e, v);
    OfIsSound(w, v);
    ControlledIsIndex(w.roster);
    assert EffectOn(w, e, v)
        == if v in w.roster.controller && (id == "" || w.roster.controller[v] == id) then Effect.Released
           else Untouched;
    if v in w.roster.controller {
      ReleasedIsWrittenOut(Of(w.fleet, v), v in w.pending);
    }
  }

  /** A session end without an id ends every session. */
  lemma FleetEndExactly(w: World)
    ensures var after := Step(w, EndSession(""));
            after == w.(fleet := after.fleet, roster := Roster(map[], map[]))
  {
  }

  // ----- Handover -----

  /** A handover is offered exactly when the vehicle has an active operator; then it is recorded and
      OPERATOR is HANDOVER_PENDING. */
  lemma RequestExactly(w: World, v: VehicleId, from: OperatorId, to: OperatorId)
    requires Inv(w)
    ensures var after := Step(w, RequestHandover(v, from, to));
            var x, y := Of(w.fleet, v), Of(after.fleet, v);
            && after == w.(fleet := after.fleet, pending := after.pending)
            && if v != "" && x.machine.operator == ActiveOperator
               then after.pending == w.pending[v := Handover(from, to)]
                    && y == x.(machine := x.machine.(operator := HandoverPending))
               else after.pending == w.pending && y == x
  {
  }

  /** A handover takes place exactly when it is recorded, the recorded target asks for it and a token was
      issued; then the record is gone, OPERATOR is active and the controller's session has the new
      operator. Otherwise nothing happens. */
  lemma ConfirmExactly(w: World, v: VehicleId, op: OperatorId, tokenIssued: bool)
    requires Inv(w)
    ensures var after := Step(w, ConfirmHandover(v, op, tokenIssued));
            var x, y := Of(w.fleet, v), Of(after.fleet, v);
            if v != "" && v in w.pending && op == w.pending[v].to && tokenIssued then
              && after == w.(fleet := after.fleet, roster := after.roster, pending := w.pending - {v})
              && y == x.(machine := x.machine.(operator := ActiveOperator))
              && after.roster.controller == w.roster.controller && after.roster.live.Keys == w.roster.live.Keys
              && (forall id | id in w.roster.live ::
                    after.roster.live[id] == if v in w.roster.controller && w.roster.controller[v] == id
                                             then w.roster.live[id].(operator := op) else w.roster.live[id])
            else after == w
  {
  }

  lemma CancelExactly(w: World, v: VehicleId)
    requires Inv(w)
    ensures var after := Step(w, CancelHandover(v));
            var x, y := Of(w.fleet, v), Of(after.fleet, v);
            if v != "" && v in w.pending then
              && after == w.(fleet := after.fleet, pending := w.pending - {v})
              && y == x.(machine := x.machine.(operator := ActiveOperator))
            else after == w
  {
  }

  /** The answers to handover requests, each by its own condition. */
  lemma HandoverAnswersExactly(w: World, v: VehicleId, op: OperatorId, tokenIssued: bool)
    ensures var a, active := RequestAnswer(w, v), Of(w.fleet, v).machine.operator == ActiveOperator;
            && (a == Refused(BadRequest) <==> v == "")
            && (a == Refused(NotActive) <==> v != "" && !active)
            && (a == Done <==> v != "" && active)
    ensures var a, pending := ConfirmAnswer(w, v, op, tokenIssued), v != "" && v in w.pending;
            && (a == Refused(BadRequest) <==> v == "")
            && (a == Refused(NoHandover) <==> v != "" && v !in w.pending)
            && (a == Refused(NotTheTarget) <==> pending && op != w.pending[v].to)
            && (a == Refused(TokenFailed) <==> pending && op == w.pending[v].to && !tokenIssued)
            && (a == Done <==> pending && op == w.pending[v].to && tokenIssued)
  {
  }

  // ----- Emergency stop -----

  /** An HTTP stop request puts a controlled vehicle, or all of them, into SAFE_MODE, and does nothing
      else. */
  lemma StopRequestExactly(w: World, u: VehicleId, v: VehicleId)
    requires Inv(w)
    ensures var after := Step(w, StopRequest(u));
            var x := Of(w.fleet, v);
            && OnlyFleetChanges(w, after)
            && Of(after.fleet, v) == if v in w.roster.controller && (u == "" || u == v)
                                     then x.(machine := InSafeMode(x.machine)) else x
  {
    StepSeen(w, StopRequest(u), v);
    OfIsSound(w, v);
    StopIsWrittenOut(Of(w.fleet, v), v in w.roster.controller, v in w.pending);
    if v in w.roster.controller {
      ControllerHasSession(w.roster, v);
    }
  }

  // ----- Sockets -----

  /** A socket opens exactly for a live session and remembers it as it is; a controller's vehicle that is
      in SAFE_MODE is CONNECTED again with a fresh dead-man switch and account check. */
  lemma SocketOpensExactly(w: World, k: SocketId, id: SessionId)
    requires Inv(w)
    ensures var after := Step(w, OpenSocket(k, id));
            if id in w.roster.live then
              var s := w.roster.live[id];
              after == w.(fleet := after.fleet, sockets := w.sockets[k := Socket(s, s.role == Observer)])
            else after == w
  {
  }

  lemma SocketOpensOnVehicle(w: World, k: SocketId, id: SessionId, v: VehicleId)
    requires Inv(w)
    ensures var x, y := Of(w.fleet, v), Of(Step(w, OpenSocket(k, id)).fleet, v);
            if x.machine.system == SafeMode && v in w.roster.controller && w.roster.controller[v] == id then
              y == x.(machine := Layers(Connected, ControlActive, x.machine.media, ActiveOperator, {}),
                      deadman := Deadman(false, false, NoTimer),
                      auth := Auth(Some(Loop(w.roster.live[id].operator, 0)), LoopsLeft(x.auth)))
            else y == x
  {
    StepSeen(w, OpenSocket(k, id), v);
    OfIsSound(w, v);
    OpeningEffect(w, k, id, v);
    if v in w.roster.controller && w.roster.controller[v] == id {
      ResumeIsWrittenOut(Of(w.fleet, v), w.roster.live[id].operator, v in w.pending);
    }
  }

  lemma OpeningEffect(w: World, k: SocketId, id: SessionId, v: VehicleId)
    requires Inv(w)
    ensures EffectOn(w, OpenSocket(k, id), v)
            == if v in w.roster.controller && w.roster.controller[v] == id
               then Resumed(w.roster.live[id].operator) else Untouched
    ensures v in w.roster.controller <==> Of(w.fleet, v).machine.system != Idle
  {
    OfIsSound(w, v);
  }

  lemma ResumeIsWrittenOut(x: Vehicle, op: OperatorId, handover: bool)
    requires Sound(x, true, handover)
    ensures Felt(x, Resumed(op))
            == if x.machine.system == SafeMode then
                 x.(machine := Layers(Connected, ControlActive, x.machine.media, ActiveOperator, {}),
                    deadman := Deadman(false, false, NoTimer), auth := Auth(Some(Loop(op, 0)), LoopsLeft(x.auth)))
               else x
  {
  }

  /** A socket that closes is gone, and with it the session of an observer. */
  lemma SocketClosesExactly(w: World, k: SocketId)
    requires Inv(w) && k in w.sockets
    ensures var after := Step(w, CloseSocket(k));
            var s := w.sockets[k].session;
            && after == w.(fleet := after.fleet, roster := after.roster, sockets := w.sockets - {k})
            && after.roster.controller == w.roster.controller
            && after.roster.live == if s.role == Observer then w.roster.live - {s.id} else w.roster.live
  {
    assert SoundSocket(w, w.sockets[k]);
    ReleaseExactly(w.roster, w.sockets[k].session.id);
    ReleaseKeepsConsistent(w.roster, w.sockets[k].session.id);
  }

  /** When a controller's socket closes, the dead-man switch and the account check of its vehicle stop;
      if its session still lives and the vehicle is not in SAFE_MODE, it is from now on, without an
      operator. */
  lemma SocketClosesOnVehicle(w: World, k: SocketId, v: VehicleId)
    requires Inv(w) && k in w.sockets
    ensures var s := w.sockets[k].session;
            var x, y := Of(w.fleet, v), Of(Step(w, CloseSocket(k)).fleet, v);
            if s.role == Controller && s.vehicle == v then
              y == x.(deadman := Stilled(x.deadman), auth := Auth(None, LoopsLeft(x.auth)),
                      machine := if s.id in w.roster.live && x.machine.system != SafeMode
                                 then InSafeMode(x.machine).(operator := NoOperator) else x.machine)
            else y == x
  {
    assert SoundSocket(w, w.sockets[k]);
    StepSeen(w, CloseSocket(k), v);
    OfIsSound(w, v);
    var s := w.sockets[k].session;
    assert EffectOn(w, CloseSocket(k), v)
        == if s.role == Controller && s.vehicle == v then Disconnected(s.id in w.roster.live) else Untouched;
    if s.role == Controller && s.vehicle == v {
      DisconnectIsWrittenOut(Of(w.fleet, v), s.id in w.roster.live, v in w.roster.controller, v in w.pending);
    }
  }

  // ----- Messages -----

  /** A message is handled when its session lives and its vehicle is not in SAFE_MODE. */
  predicate Handled(w: World, k: SocketId) {
    && k in w.sockets && w.sockets[k].session.id in w.roster.live
    && Of(w.fleet, w.sockets[k].session.vehicle).machine.system != SafeMode
  }

  /** A message changes nothing but the context of its vehicle and the limiter, and the latter only if it
      is handled and well-formed. */
  lemma MessageExactly(w: World, k: SocketId, c: Command, now: Time, delivered: bool)
    requires Inv(w)
    ensures var after := Step(w, Receive(k, c, now, delivered));
            && after == w.(fleet := after.fleet, limiter := after.limiter)
            && (!Handled(w, k) || c.Malformed? ==> after.limiter == w.limiter)
  {
    if k in w.sockets {
      OfIsSound(w, w.sockets[k].session.vehicle);
    }
  }

  /** What a message does to its vehicle: a hold arms or restarts a running switch, a stop puts a
      controlled vehicle into SAFE_MODE, a movement command that arrives starts the vehicle-ACK timer, and
      nothing else happens; each only if it is handled and the limiter admits it. */
  lemma MessageOnVehicle(w: World, k: SocketId, c: Command, now: Time, delivered: bool, v: VehicleId)
    requires Inv(w) && k in w.sockets && w.sockets[k].session.vehicle == v && Of(w.fleet, v).deadman.WellFormed()
    ensures var x, y := Of(w.fleet, v), Of(Step(w, Receive(k, c, now, delivered)).fleet, v);
            var accepted := Handled(w, k) && !c.Malformed? && Admits(w, now);
            var driver := v in w.roster.controller && w.roster.controller[v] == w.sockets[k].session.id;
            && y.auth == x.auth && y.telemetry == x.telemetry
            && y.ackTimer == (if x.machine.system == SafeMode then x.ackTimer else NoTimer)
            && y.deadman == (if accepted && c == DeadmanHold && !x.deadman.stopped
                             then Deadman(false, true, Running(now + DEADMAN_TIMEOUT)) else x.deadman)
            && y.machine == (if accepted && c == EmergencyStop && v in w.roster.controller
                             then InSafeMode(x.machine) else x.machine)
            && y.vehicleAck == (if && accepted && (c == Steer || c == Throttle || c == Brake || c == Speed)
                                   && driver && v in w.linked && delivered && !x.vehicleAck.stopped
                                then VehicleAck(false, Running(now + VEHICLE_ACK_TIMEOUT)) else x.vehicleAck)
  {
    var s := w.sockets[k].session;
    StepSeen(w, Receive(k, c, now, delivered), v);
    OfIsSound(w, v);
    MessageIsTold(w, k, c, now, delivered, v);
    ToldIsWrittenOut(Of(w.fleet, v), c, now, Handled(w, k) && !c.Malformed? && Admits(w, now),
                     MessageEffect(w, s, c, now, delivered).reaches, v in w.roster.controller, v in w.pending);
  }

  lemma MessageIsTold(w: World, k: SocketId, c: Command, now: Time, delivered: bool, v: VehicleId)
    requires Inv(w) && k in w.sockets && w.sockets[k].session.vehicle == v
    ensures var x, f := Of(w.fleet, v), MessageEffect(w, w.sockets[k].session, c, now, delivered);
            var accepted := Handled(w, k) && !c.Malformed? && Admits(w, now);
            var driver := v in w.roster.controller && w.roster.controller[v] == w.sockets[k].session.id;
            && EffectOn(w, Receive(k, c, now, delivered), v) == f && f.command == c && f.now == now
            && (x.machine.system != SafeMode ==> f.accepted == accepted)
            && (f.reaches ==> c.Movement())
            && (accepted ==> (f.reaches <==> c.Movement() && driver && v in w.linked && delivered))
  {
    assert SoundSocket(w, w.sockets[k]);
  }

  lemma ToldIsWrittenOut(x: Vehicle, c: Command, now: Time, accepted: bool, reaches: bool,
                         controlled: bool, handover: bool)
    requires Sound(x, controlled, handover) && x.deadman.WellFormed() && (reaches ==> c.Movement())
    requires accepted ==> x.machine.system != SafeMode
    ensures var y := Felt(x, Told(c, now, accepted, reaches));
            && y.auth == x.auth && y.telemetry == x.telemetry
            && y.ackTimer == (if x.machine.system == SafeMode then x.ackTimer else NoTimer)
            && y.deadman == (if accepted && c == DeadmanHold && !x.deadman.stopped
                             then Deadman(false, true, Running(now + DEADMAN_TIMEOUT)) else x.deadman)
            && y.machine == (if accepted && c == EmergencyStop && controlled then InSafeMode(x.machine) else x.machine)
            && y.vehicleAck == (if accepted && reaches && !x.vehicleAck.stopped
                                then VehicleAck(false, Running(now + VEHICLE_ACK_TIMEOUT)) else x.vehicleAck)
  {
  }

  /** The answer to a message. */
  lemma AnswerExactly(w: World, k: SocketId, c: Command, now: Time)
    requires Inv(w) && k in w.sockets
    ensures var s := w.sockets[k].session;
            var stopped := Of(w.fleet, s.vehicle).machine.system == SafeMode;
            var a := MessageAnswer(w, k, c, now);
            && (a == Refused(Blocked) <==> stopped)
            && (a == Refused(SessionNotFound) <==> !stopped && s.id !in w.roster.live)
            && (a == Refused(BadRequest) <==> Handled(w, k) && c.Malformed?)
            && (a == Refused(RateLimited) <==> Handled(w, k) && !c.Malformed? && !Admits(w, now))
            && (a == Refused(ObserverCannotDrive)
                <==> && Handled(w, k) && Admits(w, now) && s.role == Observer
                     && (c == Steer || c == Throttle || c == Brake || c == Speed))
            && (a.Refused? || a == Done)
  {
    SocketFacts(w, k);
    AnswerFromFacts(w, k, c, now);
  }

  /** The vehicle of a socket is silenced exactly in SAFE_MODE, and a live session has the socket's role. */
  predicate Plain(w: World, k: SocketId)
    requires k in w.sockets
  {
    var s := w.sockets[k].session;
    && (Silenced(Of(w.fleet, s.vehicle).machine) <==> Of(w.fleet, s.vehicle).machine.system == SafeMode)
    && (s.id in w.roster.live ==> w.roster.live[s.id].role == s.role)
  }

  lemma SocketFacts(w: World, k: SocketId)
    requires Inv(w) && k in w.sockets
    ensures Plain(w, k)
  {
    OfIsSound(w, w.sockets[k].session.vehicle);
    assert SoundSocket(w, w.sockets[k]);
  }

  lemma AnswerFromFacts(w: World, k: SocketId, c: Command, now: Time)
    requires k in w.sockets && Plain(w, k)
    ensures var s := w.sockets[k].session;
            var stopped := Of(w.fleet, s.vehicle).machine.system == SafeMode;
            var a := MessageAnswer(w, k, c, now);
            && (a == Refused(Blocked) <==> stopped)
            && (a == Refused(SessionNotFound) <==> !stopped && s.id !in w.roster.live)
            && (a == Refused(BadRequest) <==> Handled(w, k) && c.Malformed?)
            && (a == Refused(RateLimited) <==> Handled(w, k) && !c.Malformed? && !Admits(w, now))
            && (a == Refused(ObserverCannotDrive)
                <==> && Handled(w, k) && Admits(w, now) && s.role == Observer
                     && (c == Steer || c == Throttle || c == Brake || c == Speed))
            && (a.Refused? || a == Done)
  {
  }

  // ----- Timers and the vehicle's own socket -----

  lemma ExpiriesAreWrittenOut(x: Vehicle, controlled: bool, handover: bool)
    requires Sound(x, controlled, handover)
    ensures var stopped := if controlled then InSafeMode(x.machine) else x.machine;
            && Affected(x, DeadmanExpires)
               == (if x.deadman.stopped then x else x.(deadman := Stilled(x.deadman), machine := stopped))
            && Affected(x, VehicleAckExpires)
               == (if x.vehicleAck.stopped then x else x.(vehicleAck := VehicleAck(true, NoTimer), machine := stopped))
            && Affected(x, AckExpires) == x.(ackTimer := NoTimer, machine := stopped)
            && Affected(x, VehicleLeaves) == x.(machine := stopped)
  {
  }

  /** An expired dead-man switch that runs stops, and puts its vehicle into SAFE_MODE if it is controlled. */
  lemma DeadmanExpiryExactly(w: World, v: VehicleId)
    requires Inv(w)
    ensures var after := Step(w, At(v, DeadmanExpires));
            var x, y := Of(w.fleet, v), Of(after.fleet, v);
            && OnlyFleetChanges(w, after)
            && (y.machine.system == SafeMode
                <==> x.machine.system == SafeMode || (v in w.roster.controller && !x.deadman.stopped))
            && y == if x.deadman.stopped then x
                    else x.(deadman := Stilled(x.deadman),
                            machine := if v in w.roster.controller then InSafeMode(x.machine) else x.machine)
  {
    OfIsSound(w, v);
    PutSeen(w, v, Affected(Of(w.fleet, v), DeadmanExpires), v);
    ExpiriesAreWrittenOut(Of(w.fleet, v), v in w.roster.controller, v in w.pending);
  }

  /** The same of the vehicle-ACK watchdog, also from DEGRADED. */
  lemma VehicleAckExpiryExactly(w: World, v: VehicleId)
    requires Inv(w)
    ensures var after := Step(w, At(v, VehicleAckExpires));
            var x, y := Of(w.fleet, v), Of(after.fleet, v);
            && OnlyFleetChanges(w, after)
            && (y.machine.system == SafeMode
                <==> x.machine.system == SafeMode || (v in w.roster.controller && !x.vehicleAck.stopped))
            && y == if x.vehicleAck.stopped then x
                    else x.(vehicleAck := VehicleAck(true, NoTimer),
                            machine := if v in w.roster.controller then InSafeMode(x.machine) else x.machine)
  {
    OfIsSound(w, v);
    PutSeen(w, v, Affected(Of(w.fleet, v), VehicleAckExpires), v);
    ExpiriesAreWrittenOut(Of(w.fleet, v), v in w.roster.controller, v in w.pending);
  }

  /** A command that is not answered in time puts a controlled vehicle into SAFE_MODE. */
  lemma AckExpiryExactly(w: World, v: VehicleId)
    requires Inv(w)
    ensures var after := Step(w, At(v, AckExpires));
            var x, y := Of(w.fleet, v), Of(after.fleet, v);
            && OnlyFleetChanges(w, after)
            && (y.machine.system == SafeMode <==> v in w.roster.controller)
            && y == x.(ackTimer := NoTimer,
                       machine := if v in w.roster.controller then InSafeMode(x.machine) else x.machine)
  {
    OfIsSound(w, v);
    PutSeen(w, v, Affected(Of(w.fleet, v), AckExpires), v);
    ExpiriesAreWrittenOut(Of(w.fleet, v), v in w.roster.controller, v in w.pending);
  }

  /** A vehicle that leaves is no longer linked, and in SAFE_MODE if it is controlled. */
  lemma LeavingExactly(w: World, v: VehicleId)
    requires Inv(w)
    ensures var after := Step(w, At(v, VehicleLeaves));
            var x, y := Of(w.fleet, v), Of(after.fleet, v);
            && after == w.(fleet := after.fleet, linked := w.linked - {v})
            && (y.machine.system == SafeMode <==> v in w.roster.controller)
            && y == x.(machine := if v in w.roster.controller then InSafeMode(x.machine) else x.machine)
  {
    OfIsSound(w, v);
    PutSeen(w, v, Affected(Of(w.fleet, v), VehicleLeaves), v);
    ExpiriesAreWrittenOut(Of(w.fleet, v), v in w.roster.controller, v in w.pending);
  }

  /** A vehicle that joins is linked; its ACK clears the vehicle-ACK timer; a look changes nothing. */
  lemma JoinAckAndLookExactly(w: World, v: VehicleId)
    ensures var after := Step(w, At(v, VehicleJoins));
            after == w.(fleet := after.fleet, linked := w.linked + {v}) && Of(after.fleet, v) == Of(w.fleet, v)
    ensures var after := Step(w, At(v, VehicleAcks));
            var x := Of(w.fleet, v);
            && OnlyFleetChanges(w, after)
            && Of(after.fleet, v) == x.(vehicleAck := VehicleAck(x.vehicleAck.stopped, NoTimer))
    ensures var after := Step(w, At(v, Inspect));
            OnlyFleetChanges(w, after) && Of(after.fleet, v) == Of(w.fleet, v)
  {
  }

  /** A media report is MEDIA from then on. A bad one makes video a cause of a drivable vehicle, a good one
      clears it in DEGRADED, and DEGRADED starts with a cause reported and ends with the last one cleared. */
  lemma MediaReportExactly(w: World, v: VehicleId, report: MediaState)
    requires Inv(w) && v != ""
    ensures var after := Step(w, At(v, MediaEvent(report)));
            var x, y := Of(w.fleet, v), Of(after.fleet, v);
            var bad, good := report == MediaFailed || report == MediaDegraded, report == MediaConnected;
            var m, n := x.machine, y.machine;
            && OnlyFleetChanges(w, after) && y == x.(machine := n)
            && n.media == report && n.operator == m.operator && n.control == m.control
            && (m.Drivable() && bad ==> n.system == Degraded && n.causes == m.causes + {MediaCause})
            && (m.system == Degraded && good ==>
                  && n.causes == m.causes - {MediaCause}
                  && n.system == if n.causes == {} then Connected else Degraded)
            && (!(m.Drivable() && bad) && !(m.system == Degraded && good) ==>
                  n.system == m.system && n.causes == m.causes)
  {
    OfIsSound(w, v);
    PutSeen(w, v, Affected(Of(w.fleet, v), MediaEvent(report)), v);
    MediaExactly(Of(w.fleet, v).machine, report);
  }
}
