/** The control server as one transition system. A world is the state of every vehicle, the session
    roster, the pending handovers and the open operator sockets; an event is one HTTP handler, one
    socket message, one timer or one poll, taken as an atomic step.

    What the network, the database and the token service answer is part of the event. Timers may
    expire at any moment, also when they are not pending: that covers every race between a timer and
    the call that cancels it. A polling loop that was stopped may still finish checks. */
module Protocol {
  import opened Common
  import opened StateMachine
  import opened Watchdogs
  import opened Polling
  import opened Sessions
  import opened Vehicles
  import TokenBuckets

  type SocketId = nat

  datatype Handover = Handover(from: OperatorId, to: OperatorId)

  /** One operator socket: the session as it was when the socket opened. */
  datatype Socket = Socket(session: Session, observer: bool)

  datatype World = World(
    fleet: Fleet,
    roster: Roster,
    pending: map<VehicleId, Handover>,
    sockets: map<SocketId, Socket>,
    linked: set<VehicleId>,
    limiter: TokenBuckets.Bucket,
    busFailures: nat,
    issued: set<SessionId>)

  function NewWorld(now: Time): World {
    World(map[], EMPTY_ROSTER, map[], map[], {},
          TokenBuckets.Bucket(TokenBuckets.COMMANDS_PER_SECOND, now), 0, {})
  }

  datatype Command =
    | Malformed | DeadmanHold | DeadmanRelease | EmergencyStop
    | Steer | Throttle | Brake | Speed | Unrecognised
  {
    predicate Movement() {
      Steer? || Throttle? || Brake? || Speed?
    }
  }

  datatype Event =
    | StartSession(v: VehicleId, op: OperatorId, asObserver: bool, id: SessionId)
    | EndSession(id: SessionId)
    | RequestHandover(v: VehicleId, from: OperatorId, to: OperatorId)
    | ConfirmHandover(v: VehicleId, op: OperatorId, tokenIssued: bool)
    | CancelHandover(v: VehicleId)
    | StopRequest(v: VehicleId)
    | OpenSocket(socket: SocketId, id: SessionId)
    | Receive(socket: SocketId, command: Command, now: Time, delivered: bool)
    | CloseSocket(socket: SocketId)
    | BusPolled(healthy: bool)
    | At(v: VehicleId, what: Happening)

  /** What can happen to one vehicle by itself: a report, its own socket, a timer, a poll. */
  datatype Happening =
    | MediaEvent(report: MediaState)
    | VehicleJoins | VehicleAcks | VehicleLeaves
    | DeadmanExpires | AckExpires | VehicleAckExpires
    | AuthPolled(active: bool) | StaleAuthCheck(loop: Loop, active: bool)
    | TelemetryPolled(recent: bool) | StaleTelemetryCheck(failures: nat, recent: bool)
    | Inspect

  // ----- One vehicle -----

  /** A session start drives the machine from IDLE to CONNECTED and starts all watchdogs, the account
      check for the session's operator. */
  function Advanced(x: Vehicle, op: OperatorId): Vehicle {
    var authenticated := Transition(Transition(x.machine, Connecting), Authenticated);
    x.(machine := SetOperator(ToConnected(authenticated), ActiveOperator),
       deadman := x.deadman.Started(),
       vehicleAck := x.vehicleAck.Started(),
       auth := x.auth.Started(op),
       telemetry := x.telemetry.Started())
  }

  /** A controller that reconnects leaves SAFE_MODE; only two of the watchdogs restart. */
  function Recovered(x: Vehicle, op: OperatorId): Vehicle {
    if x.machine.system != SafeMode then x
    else
      var authenticated := Transition(Transition(x.machine, Recovering), Authenticated);
      x.(machine := SetOperator(ToConnected(authenticated), ActiveOperator),
         deadman := x.deadman.Started(),
         auth := x.auth.Started(op))
  }

  function TornDown(x: Vehicle): Vehicle {
    x.(machine := Transition(x.machine, Idle),
       deadman := x.deadman.Halted(),
       vehicleAck := x.vehicleAck.Halted(),
       auth := x.auth.Halted(),
       telemetry := x.telemetry.Halted())
  }

  function Tripped(x: Vehicle): Vehicle {
    x.(machine := Transition(x.machine, SafeMode))
  }

  /** A controller's socket closed; the session may have ended before. */
  function Dropped(x: Vehicle, sessionLive: bool): Vehicle {
    x.(deadman := x.deadman.Halted(),
       auth := x.auth.Halted(),
       machine := if sessionLive && x.machine.system != SafeMode
                  then SetOperator(Transition(x.machine, SafeMode), NoOperator) else x.machine)
  }

  function WithOperator(x: Vehicle, op: OperatorState): Vehicle {
    x.(machine := SetOperator(x.machine, op))
  }

  /** The same change to each vehicle of a set, in whatever order. */
  function Each(fleet: Fleet, vs: set<VehicleId>, f: Vehicle -> Vehicle): Fleet {
    map v | v in fleet.Keys + vs :: if v in vs then f(Of(fleet, v)) else fleet[v]
  }

  // ----- Handlers -----

  function Put(w: World, v: VehicleId, x: Vehicle): World {
    w.(fleet := w.fleet[v := x])
  }

  datatype Answer = Done | Started(session: Session) | Refused(reason: Refusal)

  datatype Refusal =
    | BadRequest | ObserverCannotStart | VehicleOffline
    | NotActive | NoHandover | NotTheTarget | TokenFailed
    | SessionNotFound | RateLimited | ObserverCannotDrive | Blocked

  function StartAnswer(w: World, v: VehicleId, op: OperatorId, asObserver: bool, id: SessionId): Answer {
    if v == "" || op == "" then Refused(BadRequest)
    else if asObserver && w.roster.Controlling(v).None? then Refused(ObserverCannotStart)
    else if v !in w.linked then Refused(VehicleOffline)
    else Started(Session(id, v, op, w.roster.RoleFor(v)))
  }

  function Start(w: World, v: VehicleId, op: OperatorId, asObserver: bool, id: SessionId): World {
    if !StartAnswer(w, v, op, asObserver, id).Started? then w
    else
      w.(roster := w.roster.Started(v, op, id),
         issued := w.issued + {id},
         fleet := if w.roster.RoleFor(v) == Controller
                  then w.fleet[v := Advanced(Of(w.fleet, v), op)] else w.fleet)
  }

  function EndOne(w: World, id: SessionId): World {
    if id !in w.roster.live then w
    else
      var s := w.roster.live[id];
      var released := w.(roster := w.roster.Released(id));
      if s.role == Controller then Put(released, s.vehicle, TornDown(Of(w.fleet, s.vehicle))) else released
  }

  function WithController(r: Roster, vs: set<VehicleId>): set<VehicleId> {
    set v | v in vs && r.Controlling(v).Some?
  }

  /** The vehicles that have a controller. */
  function Controlled(r: Roster): set<VehicleId> {
    WithController(r, r.Vehicles())
  }

  function EndAll(w: World): World {
    w.(fleet := Each(w.fleet, Controlled(w.roster), TornDown), roster := EMPTY_ROSTER)
  }

  function RequestAnswer(w: World, v: VehicleId): Answer {
    if v == "" then Refused(BadRequest)
    else if Of(w.fleet, v).machine.operator != ActiveOperator then Refused(NotActive)
    else Done
  }

  function Request(w: World, v: VehicleId, from: OperatorId, to: OperatorId): World {
    if v == "" then w
    else if RequestAnswer(w, v) != Done then Put(w, v, Of(w.fleet, v))
    else Put(w, v, WithOperator(Of(w.fleet, v), HandoverPending)).(pending := w.pending[v := Handover(from, to)])
  }

  function ConfirmAnswer(w: World, v: VehicleId, op: OperatorId, tokenIssued: bool): Answer {
    if v == "" then Refused(BadRequest)
    else if v !in w.pending then Refused(NoHandover)
    else if op != w.pending[v].to then Refused(NotTheTarget)
    else if !tokenIssued then Refused(TokenFailed)
    else Done
  }

  function Confirm(w: World, v: VehicleId, op: OperatorId, tokenIssued: bool): World {
    if ConfirmAnswer(w, v, op, tokenIssued) != Done then w
    else
      Put(w, v, WithOperator(Of(w.fleet, v), ActiveOperator))
      .(roster := w.roster.Reassigned(v, op, Controller), pending := w.pending - {v})
  }

  function Cancel(w: World, v: VehicleId): World {
    if v == "" || v !in w.pending then w
    else Put(w, v, WithOperator(Of(w.fleet, v), ActiveOperator)).(pending := w.pending - {v})
  }

  /** An emergency stop of one vehicle, or of every vehicle with a session. */
  function Halt(w: World, v: VehicleId): World {
    if v != "" then Put(w, v, Tripped(Of(w.fleet, v)))
    else w.(fleet := Each(w.fleet, w.roster.Vehicles(), Tripped))
  }

  function Open(w: World, k: SocketId, id: SessionId): World {
    if id == "" || id !in w.roster.live then w
    else
      var s := w.roster.live[id];
      var x := Of(w.fleet, s.vehicle);
      Put(w, s.vehicle, if s.role == Controller then Recovered(x, s.operator) else x)
      .(sockets := w.sockets[k := Socket(s, s.role == Observer)])
  }

  predicate Admits(w: World, now: Time) {
    TokenBuckets.Allows(w.limiter, now, TokenBuckets.COMMANDS_PER_SECOND)
  }

  /** The command reaches the vehicle. */
  predicate Reaches(w: World, s: Session, c: Command, now: Time, delivered: bool) {
    && c.Movement() && Admits(w, now)
    && s.role != Observer && s.vehicle != "" && s.vehicle in w.linked && delivered
  }

  /** The effect of an accepted command on the vehicle's context. */
  function Commanded(x: Vehicle, c: Command, now: Time, reaches: bool): Vehicle {
    if c.DeadmanHold? then x.(deadman := x.deadman.Held(now))
    else if c.EmergencyStop? then Tripped(x)
    else if reaches then x.(vehicleAck := x.vehicleAck.Forwarded(now))
    else x
  }

  function Routed(w: World, s: Session, c: Command, now: Time, admitted: bool, reaches: bool): World {
    if admitted then Put(w, s.vehicle, Commanded(Of(w.fleet, s.vehicle), c, now, reaches)) else w
  }

  /** The command engine: parse, limit, route. */
  function Handle(w: World, s: Session, c: Command, now: Time, delivered: bool): World {
    if c.Malformed? then w
    else
      Routed(w.(limiter := TokenBuckets.Taken(w.limiter, now, TokenBuckets.COMMANDS_PER_SECOND)),
             s, c, now, Admits(w, now), Reaches(w, s, c, now, delivered))
  }

  function HandleAnswer(w: World, s: Session, c: Command, now: Time): Answer {
    if c.Malformed? then Refused(BadRequest)
    else if !Admits(w, now) then Refused(RateLimited)
    else if c.Movement() && s.role == Observer then Refused(ObserverCannotDrive)
    else Done
  }

  function Acked(w: World, v: VehicleId): World {
    Put(w, v, Of(w.fleet, v).(ackTimer := NoTimer))
  }

  predicate Silenced(m: Layers) {
    m.system == SafeMode || m.control == ControlBlocked
  }

  function Message(w: World, k: SocketId, c: Command, now: Time, delivered: bool): World {
    if k !in w.sockets then w
    else
      var s := w.sockets[k].session;
      if Silenced(Of(w.fleet, s.vehicle).machine) then w
      else if s.id !in w.roster.live then Acked(w, s.vehicle)
      else Acked(Handle(w, w.roster.live[s.id], c, now, delivered), s.vehicle)
  }

  function MessageAnswer(w: World, k: SocketId, c: Command, now: Time): Answer {
    if k !in w.sockets then Refused(SessionNotFound)
    else
      var s := w.sockets[k].session;
      if Silenced(Of(w.fleet, s.vehicle).machine) then Refused(Blocked)
      else if s.id !in w.roster.live then Refused(SessionNotFound)
      else HandleAnswer(w, w.roster.live[s.id], c, now)
  }

  function Close(w: World, k: SocketId): World {
    if k !in w.sockets then w
    else
      var closed := w.(sockets := w.sockets - {k});
      var s := w.sockets[k].session;
      if w.sockets[k].observer then closed.(roster := w.roster.Released(s.id))
      else Put(closed, s.vehicle, Dropped(Of(w.fleet, s.vehicle), s.id in w.roster.live))
  }

  // ----- Events of a single vehicle -----

  function DeadmanExpired(x: Vehicle): Vehicle {
    if x.deadman.stopped then x else Tripped(x.(deadman := x.deadman.Halted()))
  }

  function VehicleAckExpired(x: Vehicle): Vehicle {
    if x.vehicleAck.stopped then x else Tripped(x.(vehicleAck := x.vehicleAck.Halted()))
  }

  function AuthTicked(x: Vehicle, active: bool): Vehicle {
    x.(auth := x.auth.Ticked(active),
       machine := if x.auth.running.Some? then x.auth.running.value.Effect(x.machine, active) else x.machine)
  }

  function TelemetryTicked(x: Vehicle, recent: bool): Vehicle {
    x.(telemetry := x.telemetry.Ticked(recent),
       machine := if x.telemetry.running.Some?
                  then PolledMachine(x.machine, x.telemetry.running.value, recent, TELEMETRY_THRESHOLD) else x.machine)
  }

  function Affected(x: Vehicle, h: Happening): Vehicle {
    match h
    case MediaEvent(report) => x.(machine := ReportMedia(x.machine, report))
    case VehicleJoins => x
    case VehicleAcks => x.(vehicleAck := x.vehicleAck.Acknowledged())
    case VehicleLeaves => Tripped(x)
    case DeadmanExpires => DeadmanExpired(x)
    case AckExpires => Tripped(x.(ackTimer := NoTimer))
    case VehicleAckExpires => VehicleAckExpired(x)
    case AuthPolled(active) => AuthTicked(x, active)
    case TelemetryPolled(recent) => TelemetryTicked(x, recent)
    case StaleAuthCheck(loop, active) =>
      x.(auth := x.auth.Finished(loop, active), machine := loop.Effect(x.machine, active))
    case StaleTelemetryCheck(failures, recent) =>
      x.(telemetry := x.telemetry.Finished(failures, recent),
         machine := PolledMachine(x.machine, failures, recent, TELEMETRY_THRESHOLD))
    case Inspect => x
  }

  /** A media report without a vehicle is refused. */
  predicate Ignored(v: VehicleId, h: Happening) {
    h.MediaEvent? && v == ""
  }

  function LocalStep(w: World, v: VehicleId, h: Happening): World {
    if Ignored(v, h) then w
    else
      Put(w, v, Affected(Of(w.fleet, v), h))
      .(linked := if h.VehicleJoins? then w.linked + {v} else if h.VehicleLeaves? then w.linked - {v} else w.linked)
  }

  function BusTicked(w: World, healthy: bool): World {
    var counted := w.(busFailures := Count(w.busFailures, healthy, BUS_THRESHOLD));
    if Acts(w.busFailures, healthy, BUS_THRESHOLD)
    then counted.(fleet := Each(w.fleet, w.roster.Vehicles(), Tripped)) else counted
  }

  function Step(w: World, e: Event): World {
    match e
    case StartSession(v, op, asObserver, id) => Start(w, v, op, asObserver, id)
    case EndSession(id) => if id != "" then EndOne(w, id) else EndAll(w)
    case RequestHandover(v, from, to) => Request(w, v, from, to)
    case ConfirmHandover(v, op, tokenIssued) => Confirm(w, v, op, tokenIssued)
    case CancelHandover(v) => Cancel(w, v)
    case StopRequest(v) => Halt(w, v)
    case OpenSocket(k, id) => Open(w, k, id)
    case Receive(k, c, now, delivered) => Message(w, k, c, now, delivered)
    case CloseSocket(k) => Close(w, k)
    case BusPolled(healthy) => BusTicked(w, healthy)
    case At(v, h) => LocalStep(w, v, h)
  }

  /** Session ids are never reused, nor are the ids of open sockets; only loops that were stopped finish
      late. */
  predicate Enabled(w: World, e: Event) {
    match e
    case StartSession(_, _, _, id) => id != "" && id !in w.issued
    case OpenSocket(k, _) => k !in w.sockets
    case At(v, StaleAuthCheck(loop, _)) => loop in Of(w.fleet, v).auth.stopped
    case At(v, StaleTelemetryCheck(failures, _)) => failures in Of(w.fleet, v).telemetry.stopped
    case _ => true
  }

  datatype Forward = Forward(v: VehicleId, session: SessionId, command: Command)

  /** The movement command a step passes on to a vehicle, if it does. */
  function Forwarded(w: World, e: Event): Option<Forward> {
    match e
    case Receive(k, c, now, delivered) =>
      if k !in w.sockets then None
      else
        var s := w.sockets[k].session;
        if Silenced(Of(w.fleet, s.vehicle).machine) || s.id !in w.roster.live then None
        else
          var current := w.roster.live[s.id];
          if Reaches(w, current, c, now, delivered) then Some(Forward(current.vehicle, current.id, c)) else None
    case _ => None
  }
}
