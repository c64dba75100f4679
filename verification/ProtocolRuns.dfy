/** Properties of whole runs of the control server. */
module ProtocolRuns {
  import opened Common
  import opened StateMachine
  import opened StateMachineRuns
  import opened Watchdogs
  import opened Polling
  import opened Sessions
  import opened Vehicles
  import opened Protocol
  import opened ProtocolSafety

  // ----- A step seen from one vehicle -----

  /** What an event means for one vehicle. */
  datatype Effect =
    | Untouched
    | Taken(op: OperatorId)
    | Resumed(op: OperatorId)
    | Released
    | Stopped
    | Disconnected(sessionLive: bool)
    | Assigned(state: OperatorState)
    | Told(command: Command, now: Time, accepted: bool, reaches: bool)
    | Met(what: Happening)

  /** The effect of a message on the context of its vehicle. */
  function Messaged(x: Vehicle, c: Command, now: Time, accepted: bool, reaches: bool): Vehicle {
    if Silenced(x.machine) then x
    else (if accepted then Commanded(x, c, now, reaches) else x).(ackTimer := NoTimer)
  }

  /** The context of a vehicle after the effect. */
  function Felt(x: Vehicle, f: Effect): Vehicle {
    match f
    case Untouched => x
    case Taken(op) => Advanced(x, op)
    case Resumed(op) => Recovered(x, op)
    case Released => TornDown(x)
    case Stopped => Tripped(x)
    case Disconnected(sessionLive) => Dropped(x, sessionLive)
    case Assigned(state) => WithOperator(x, state)
    case Told(c, now, accepted, reaches) => Messaged(x, c, now, accepted, reaches)
    case Met(h) => Affected(x, h)
  }

  /** The effect of a message of a socket of session s. */
  function MessageEffect(w: World, s: Session, c: Command, now: Time, delivered: bool): (f: Effect)
    ensures f.Told?
  {
    var accepted := s.id in w.roster.live && !c.Malformed? && Admits(w, now);
    Told(c, now, accepted, accepted && Reaches(w, w.roster.live[s.id], c, now, delivered))
  }

  /** The effect of event e on v. */
  function EffectOn(w: World, e: Event, v: VehicleId): Effect {
    match e
    case StartSession(u, op, asObserver, id) =>
      if u == v && StartsControl(w, e) then Taken(op) else Untouched
    case EndSession(id) =>
      if Controls(w.roster, id, v) || (id == "" && v in Controlled(w.roster)) then Released else Untouched
    case RequestHandover(u, _, _) =>
      if u == v && RequestAnswer(w, v) == Done then Assigned(HandoverPending) else Untouched
    case ConfirmHandover(u, op, tokenIssued) =>
      if u == v && ConfirmAnswer(w, v, op, tokenIssued) == Done then Assigned(ActiveOperator) else Untouched
    case CancelHandover(u) =>
      if u == v && v != "" && v in w.pending then Assigned(ActiveOperator) else Untouched
    case StopRequest(u) =>
      if (u != "" && u == v) || (u == "" && v in w.roster.Vehicles()) then Stopped else Untouched
    case OpenSocket(_, id) =>
      if Controls(w.roster, id, v) then Resumed(w.roster.live[id].operator) else Untouched
    case Receive(k, c, now, delivered) =>
      if k in w.sockets && w.sockets[k].session.vehicle == v
      then MessageEffect(w, w.sockets[k].session, c, now, delivered) else Untouched
    case CloseSocket(k) =>
      if k in w.sockets && !w.sockets[k].observer && w.sockets[k].session.vehicle == v
      then Disconnected(w.sockets[k].session.id in w.roster.live) else Untouched
    case BusPolled(healthy) =>
      if Acts(w.busFailures, healthy, BUS_THRESHOLD) && v in w.roster.Vehicles() then Stopped else Untouched
    case At(u, h) =>
      if u == v && !Ignored(v, h) then Met(h) else Untouched
  }

  /** The context of v after event e. */
  function Seen(w: World, e: Event, v: VehicleId): Vehicle {
    Felt(Of(w.fleet, v), EffectOn(w, e, v))
  }

  /** The event starts a session that controls its vehicle. */
  predicate StartsControl(w: World, e: Event) {
    e.StartSession? && StartAnswer(w, e.v, e.op, e.asObserver, e.id).Started? && w.roster.RoleFor(e.v) == Controller
  }

  /** Session id is the live controller of v. */
  predicate Controls(r: Roster, id: SessionId, v: VehicleId) {
    id != "" && id in r.live && r.live[id].role == Controller && r.live[id].vehicle == v
  }

  lemma HandleSeen(w: World, s: Session, c: Command, now: Time, delivered: bool, v: VehicleId)
    ensures var after := Handle(w, s, c, now, delivered);
            var x := Of(w.fleet, v);
            Of(after.fleet, v)
            == if v != s.vehicle || c.Malformed? || !Admits(w, now)
               then x else Commanded(x, c, now, Reaches(w, s, c, now, delivered))
  {
  }

  lemma AckedSeen(w: World, u: VehicleId, v: VehicleId)
    ensures Of(Acked(w, u).fleet, v) == if u == v then Of(w.fleet, v).(ackTimer := NoTimer) else Of(w.fleet, v)
  {
  }

  lemma MessageSeen(w: World, k: SocketId, c: Command, now: Time, delivered: bool, v: VehicleId)
    requires k in w.sockets && SoundSocket(w, w.sockets[k])
    ensures var s, x := w.sockets[k].session, Of(w.fleet, v);
            var f := MessageEffect(w, s, c, now, delivered);
            Of(Message(w, k, c, now, delivered).fleet, v)
            == if s.vehicle == v then Messaged(x, c, now, f.accepted, f.reaches) else x
  {
    var s := w.sockets[k].session;
    AckedSeen(w, s.vehicle, v);
    if s.id in w.roster.live {
      HandleSeen(w, w.roster.live[s.id], c, now, delivered, v);
      AckedSeen(Handle(w, w.roster.live[s.id], c, now, delivered), s.vehicle, v);
    }
  }

  lemma StartSeen(w: World, e: Event, v: VehicleId)
    requires e.StartSession?
    ensures Of(Step(w, e).fleet, v) == Seen(w, e, v)
  {
  }

  lemma EachSeen(fleet: Fleet, vs: set<VehicleId>, f: Vehicle -> Vehicle, v: VehicleId)
    ensures Of(Each(fleet, vs, f), v) == if v in vs then f(Of(fleet, v)) else Of(fleet, v)
  {
  }

  lemma EndSeen(w: World, e: Event, v: VehicleId)
    requires e.EndSession?
    ensures Of(Step(w, e).fleet, v) == Seen(w, e, v)
  {
    if e.id == "" {
      EachSeen(w.fleet, Controlled(w.roster), TornDown, v);
    } else if e.id in w.roster.live {
      var u := w.roster.live[e.id].vehicle;
      PutSeen(w, u, TornDown(Of(w.fleet, u)), v);
    }
  }

  lemma PutSeen(w: World, u: VehicleId, x: Vehicle, v: VehicleId)
    ensures Of(Put(w, u, x).fleet, v) == if u == v then x else Of(w.fleet, v)
  {
  }

  lemma LocalSeen(w: World, e: Event, v: VehicleId)
    requires e.At?
    ensures Of(Step(w, e).fleet, v) == Seen(w, e, v)
  {
    PutSeen(w, e.v, Affected(Of(w.fleet, e.v), e.what), v);
  }

  lemma HandoverSeen(w: World, e: Event, v: VehicleId)
    requires e.RequestHandover? || e.ConfirmHandover? || e.CancelHandover?
    ensures Of(Step(w, e).fleet, v) == Seen(w, e, v)
  {
  }

  lemma SocketSeen(w: World, e: Event, v: VehicleId)
    requires e.OpenSocket? || e.CloseSocket?
    ensures Of(Step(w, e).fleet, v) == Seen(w, e, v)
  {
  }

  lemma ReceiveSeen(w: World, e: Event, v: VehicleId)
    requires Inv(w) && e.Receive?
    ensures Of(Step(w, e).fleet, v) == Seen(w, e, v)
  {
    if e.socket in w.sockets {
      MessageSeen(w, e.socket, e.command, e.now, e.delivered, v);
    }
  }

  lemma StopSeen(w: World, e: Event, v: VehicleId)
    requires e.StopRequest? || e.BusPolled?
    ensures Of(Step(w, e).fleet, v) == Seen(w, e, v)
  {
    EachSeen(w.fleet, w.roster.Vehicles(), Tripped, v);
  }

  /** A step acts on each vehicle as `Seen` says: nothing else reaches its context. */
  lemma StepSeen(w: World, e: Event, v: VehicleId)
    requires Inv(w)
    ensures Of(Step(w, e).fleet, v) == Seen(w, e, v)
  {
    if e.At? {
      LocalSeen(w, e, v);
    } else if e.StartSession? {
      StartSeen(w, e, v);
    } else if e.EndSession? {
      EndSeen(w, e, v);
    } else if e.RequestHandover? || e.ConfirmHandover? || e.CancelHandover? {
      HandoverSeen(w, e, v);
    } else if e.OpenSocket? || e.CloseSocket? {
      SocketSeen(w, e, v);
    } else if e.Receive? {
      ReceiveSeen(w, e, v);
    } else {
      StopSeen(w, e, v);
    }
  }

  /** The only vehicle a step can touch, unless it is fleet-wide. */
  function Subject(w: World, e: Event): Option<VehicleId> {
    match e
    case EndSession(id) => if id in w.roster.live then Some(w.roster.live[id].vehicle) else None
    case OpenSocket(_, id) => if id in w.roster.live then Some(w.roster.live[id].vehicle) else None
    case Receive(k, _, _, _) => if k in w.sockets then Some(w.sockets[k].session.vehicle) else None
    case CloseSocket(k) => if k in w.sockets then Some(w.sockets[k].session.vehicle) else None
    case BusPolled(_) => None
    case _ => Some(e.v)
  }

  predicate FleetWide(e: Event) {
    e == EndSession("") || e == StopRequest("") || e.BusPolled?
  }

  lemma OnlySubjectSeen(w: World, e: Event, v: VehicleId)
    requires !FleetWide(e) && Subject(w, e) != Some(v)
    ensures Seen(w, e, v) == Of(w.fleet, v)
  {
  }

  /** Every step that is not fleet-wide leaves all other vehicles exactly as they were. */
  lemma StepIsLocal(w: World, e: Event, v: VehicleId)
    requires Inv(w) && !FleetWide(e) && Subject(w, e) != Some(v)
    ensures Of(Step(w, e).fleet, v) == Of(w.fleet, v)
  {
    StepSeen(w, e, v);
    OnlySubjectSeen(w, e, v);
  }

  /** A fleet-wide stop (emergency stop without a vehicle, or a failed safety bus) leaves every
      controlled vehicle in SAFE_MODE and changes no other vehicle. */
  lemma FleetStopEffect(w: World, e: Event, v: VehicleId)
    requires Inv(w)
    requires e == StopRequest("") || (e.BusPolled? && Acts(w.busFailures, e.healthy, BUS_THRESHOLD))
    ensures var after := Of(Step(w, e).fleet, v);
            if v in w.roster.controller then after.machine.system == SafeMode else after == Of(w.fleet, v)
  {
    StepSeen(w, e, v);
    OfIsSound(w, v);
    TripKeepsSound(Of(w.fleet, v), v in w.roster.controller, v in w.pending);
    if v in w.roster.controller {
      ControllerHasSession(w.roster, v);
    }
  }

  lemma ControllerHasSession(r: Roster, v: VehicleId)
    requires r.Consistent() && v in r.controller
    ensures v in r.Vehicles()
  {
    assert r.live[r.controller[v]].vehicle == v;
  }

  /** A session end without an id leaves every controlled vehicle in IDLE and changes no other. */
  lemma FleetEndEffect(w: World, v: VehicleId)
    requires Inv(w)
    ensures var after := Of(Step(w, EndSession("")).fleet, v);
            if v in w.roster.controller then after.machine.system == Idle else after == Of(w.fleet, v)
  {
    StepSeen(w, EndSession(""), v);
    OfIsSound(w, v);
    ControlledIsIndex(w.roster);
  }

  // ----- Runs -----

  predicate Happens(ws: seq<World>, es: seq<Event>, i: nat)
    requires |ws| == |es| + 1 && i < |es|
  {
    Enabled(ws[i], es[i]) && ws[i + 1] == Step(ws[i], es[i])
  }

  /** Worlds ws[0], ws[1], ... joined by the enabled events es[0], es[1], ... from a new server. */
  ghost predicate IsRun(ws: seq<World>, es: seq<Event>) {
    && |ws| == |es| + 1
    && (exists now :: ws[0] == NewWorld(now))
    && forall i: nat | i < |es| :: Happens(ws, es, i)
  }

  lemma HappensInLonger(ws: seq<World>, es: seq<Event>, next: World, e: Event, i: nat)
    requires |ws| == |es| + 1 && i < |es| && Happens(ws, es, i)
    ensures Happens(ws + [next], es + [e], i)
  {
  }

  /** An enabled event continues a run. */
  lemma RunContinues(ws: seq<World>, es: seq<Event>, e: Event)
    requires IsRun(ws, es) && Enabled(ws[|es|], e)
    ensures IsRun(ws + [Step(ws[|es|], e)], es + [e])
  {
    var next := Step(ws[|es|], e);
    var longer, more := ws + [next], es + [e];
    forall i: nat | i < |more|
      ensures Happens(longer, more, i)
    {
      if i < |es| {
        HappensInLonger(ws, es, next, e, i);
      }
    }
    assert longer[0] == ws[0];
  }

  lemma {:induction false} RunKeepsInv(ws: seq<World>, es: seq<Event>, i: nat)
    requires IsRun(ws, es) && i <= |es|
    ensures Inv(ws[i])
  {
    if i > 0 {
      assert Happens(ws, es, i - 1);
      RunKeepsInv(ws, es, i - 1);
      StepKeepsInv(ws[i - 1], es[i - 1]);
    }
  }

  /** In every world of every run: SYSTEM rests in IDLE, CONNECTED, DEGRADED or SAFE_MODE; it is out
      of IDLE exactly when some live session controls the vehicle, and then only one does; CONTROL
      follows SYSTEM; telemetry is polled out of IDLE; a pending handover has a record; a drivable
      vehicle has an operator. */
  lemma RunIsSafe(ws: seq<World>, es: seq<Event>, i: nat, v: VehicleId)
    requires IsRun(ws, es) && i <= |es|
    ensures var m := Of(ws[i].fleet, v).machine;
            var r := ws[i].roster;
            && Resting(m)
            && (m.system != Idle
                <==> exists id :: id in r.live && r.live[id].vehicle == v && r.live[id].role == Controller)
            && (forall id, id' | id in r.live && id' in r.live && r.live[id].role == r.live[id'].role == Controller
                  && r.live[id].vehicle == r.live[id'].vehicle :: id == id')
            && (m.system != Idle ==> Polled(Of(ws[i].fleet, v).telemetry))
            && (m.operator == HandoverPending ==> v in ws[i].pending)
            && (m.Drivable() ==> m.operator == ActiveOperator || m.operator == HandoverPending)
  {
    RunKeepsInv(ws, es, i);
    OfIsSound(ws[i], v);
    IndexAgreesWithScan(ws[i].roster, v);
  }

  // ----- Forwarded commands -----

  /** A movement command reaches a vehicle exactly when it comes over an open socket of the vehicle's
      live controller, the vehicle is drivable and linked, and the limiter admits it. */
  lemma ForwardExactly(w: World, k: SocketId, c: Command, now: Time, delivered: bool)
    requires Inv(w) && k in w.sockets
    ensures var s := w.sockets[k].session;
            Forwarded(w, Receive(k, c, now, delivered))
            == if && c.Movement() && Admits(w, now)
                  && s.vehicle in w.roster.controller && w.roster.controller[s.vehicle] == s.id
                  && Of(w.fleet, s.vehicle).machine.Drivable() && s.vehicle in w.linked && delivered
               then Some(Forward(s.vehicle, s.id, c)) else None
  {
    var s := w.sockets[k].session;
    assert SoundSocket(w, w.sockets[k]);
    OfIsSound(w, s.vehicle);
  }

  /** In every run, whatever is forwarded is a movement command from the one live controller of a
      vehicle that is CONNECTED or DEGRADED with CONTROL_ACTIVE, before and after the step. */
  lemma ForwardIsSafe(ws: seq<World>, es: seq<Event>, i: nat)
    requires IsRun(ws, es) && i < |es| && Forwarded(ws[i], es[i]).Some?
    ensures var f := Forwarded(ws[i], es[i]).value;
            var m := Of(ws[i].fleet, f.v).machine;
            && f.command.Movement()
            && m.Drivable() && m.control == ControlActive
            && Of(ws[i + 1].fleet, f.v).machine == m
            && Controls(ws[i].roster, f.session, f.v)
            && (forall id | Controls(ws[i].roster, id, f.v) :: id == f.session)
            && ws[i + 1].roster == ws[i].roster
  {
    assert Happens(ws, es, i);
    RunKeepsInv(ws, es, i);
    var f := Forwarded(ws[i], es[i]).value;
    OfIsSound(ws[i], f.v);
    ForwardedFrom(ws[i], es[i]);
    ForwardChangesNothing(ws[i], es[i]);
  }

  lemma ForwardChangesNothing(w: World, e: Event)
    requires Inv(w) && Forwarded(w, e).Some?
    ensures var v := Forwarded(w, e).value.v; Of(Step(w, e).fleet, v).machine == Of(w.fleet, v).machine
    ensures Step(w, e).roster == w.roster
  {
    ForwardedFrom(w, e);
    var v := Forwarded(w, e).value.v;
    StepSeen(w, e, v);
    MovementKeepsMachine(Of(w.fleet, v), EffectOn(w, e, v));
    RosterStep(w, e);
  }

  lemma MovementKeepsMachine(x: Vehicle, f: Effect)
    requires f.Told? && f.command.Movement()
    ensures Felt(x, f).machine == x.machine
  {
  }

  lemma ForwardedFrom(w: World, e: Event)
    requires Inv(w) && Forwarded(w, e).Some?
    ensures var f := Forwarded(w, e).value;
            && e.Receive? && e.socket in w.sockets
            && w.sockets[e.socket].session.vehicle == f.v && w.sockets[e.socket].session.id == f.session
            && f.command == e.command && f.command.Movement()
            && f.session in w.roster.live && w.roster.live[f.session].vehicle == f.v
            && w.roster.live[f.session].role == Controller
            && !Silenced(Of(w.fleet, f.v).machine)
  {
    assert SoundSocket(w, w.sockets[e.socket]);
  }

  /** An EMERGENCY_STOP message stops the vehicle exactly when the socket's session is still alive, the
      vehicle is controlled and the limiter, which all vehicles share, admits the message. */
  lemma StopMessageExactly(w: World, k: SocketId, now: Time, delivered: bool)
    requires Inv(w) && k in w.sockets
    ensures var s := w.sockets[k].session;
            Of(Step(w, Receive(k, EmergencyStop, now, delivered)).fleet, s.vehicle).machine.system == SafeMode
            <==> || Of(w.fleet, s.vehicle).machine.system == SafeMode
                 || (s.id in w.roster.live && s.vehicle in w.roster.controller && Admits(w, now))
  {
    var v := w.sockets[k].session.vehicle;
    StepSeen(w, Receive(k, EmergencyStop, now, delivered), v);
    OfIsSound(w, v);
    FeltStop(Of(w.fleet, v), EffectOn(w, Receive(k, EmergencyStop, now, delivered), v),
             v in w.roster.controller, v in w.pending);
  }

  lemma FeltStop(x: Vehicle, f: Effect, controlled: bool, handover: bool)
    requires Sound(x, controlled, handover) && f.Told? && f.command == EmergencyStop
    ensures Felt(x, f).machine.system == SafeMode <==> x.machine.system == SafeMode || (controlled && f.accepted)
  {
    TripKeepsSound(x, controlled, handover);
  }

  // ----- SAFE_MODE -----

  /** The event lets v out of SAFE_MODE on purpose: its controller reconnects, or its session ends. */
  predicate Releases(w: World, e: Event, v: VehicleId) {
    || (e.OpenSocket? && Controls(w.roster, e.id, v))
    || (e.EndSession? && (e.id == "" || Controls(w.roster, e.id, v)))
  }

  lemma MetStaysSafe(x: Vehicle, h: Happening)
    requires x.machine.system == SafeMode
    ensures Affected(x, h).machine.system == SafeMode
  {
  }

  /** Only a recovery, a teardown and a session start can let a vehicle out of SAFE_MODE. */
  lemma FeltStaysSafe(x: Vehicle, f: Effect)
    requires x.machine.system == SafeMode && !f.Resumed? && !f.Released? && !f.Taken?
    ensures Felt(x, f).machine.system == SafeMode
  {
    if f.Met? {
      MetStaysSafe(x, f.what);
    }
  }

  /** A vehicle in SAFE_MODE has a controller, so no session can start to control it. */
  lemma SafeVehicleIsTaken(w: World, e: Event, v: VehicleId)
    requires Inv(w) && Of(w.fleet, v).machine.system == SafeMode
    ensures !(StartsControl(w, e) && e.v == v)
  {
    OfIsSound(w, v);
  }

  lemma NotReleased(w: World, e: Event, v: VehicleId)
    requires !Releases(w, e, v) && !(StartsControl(w, e) && e.v == v)
    ensures var f := EffectOn(w, e, v); !f.Resumed? && !f.Released? && !f.Taken?
  {
  }

  lemma SafeModeIsSticky(w: World, e: Event, v: VehicleId)
    requires Inv(w) && Of(w.fleet, v).machine.system == SafeMode && !Releases(w, e, v)
    ensures Of(Step(w, e).fleet, v).machine.system == SafeMode
  {
    StepSeen(w, e, v);
    SafeVehicleIsTaken(w, e, v);
    NotReleased(w, e, v);
    FeltStaysSafe(Of(w.fleet, v), EffectOn(w, e, v));
  }

  /** Once a vehicle is in SAFE_MODE no command reaches it until its controller reconnects or its
      session ends. */
  lemma {:induction false} NothingForwardedInSafeMode(ws: seq<World>, es: seq<Event>, i: nat, j: nat, v: VehicleId)
    requires IsRun(ws, es) && i <= j < |es|
    requires Of(ws[i].fleet, v).machine.system == SafeMode
    requires Forwarded(ws[j], es[j]).Some? && Forwarded(ws[j], es[j]).value.v == v
    ensures exists k: nat :: i <= k < j && Releases(ws[k], es[k], v)
    decreases j - i
  {
    RunKeepsInv(ws, es, i);
    if i == j {
      ForwardIsSafe(ws, es, j);
      assert false;
    }
    if !Releases(ws[i], es[i], v) {
      assert Happens(ws, es, i);
      SafeModeIsSticky(ws[i], es[i], v);
      NothingForwardedInSafeMode(ws, es, i + 1, j, v);
    }
  }

  // ----- Handover -----

  /** A live session's operator changes only when the recorded target confirms the handover of the
      vehicle it controls; its vehicle and role never change. */
  lemma OperatorChangesOnlyByConfirm(w: World, e: Event, id: SessionId)
    requires Inv(w) && Enabled(w, e) && id in w.roster.live && id in Step(w, e).roster.live
    ensures var before, after := w.roster.live[id], Step(w, e).roster.live[id];
            && after == before.(operator := after.operator)
            && (after.operator != before.operator ==>
                  && e == ConfirmHandover(before.vehicle, after.operator, true)
                  && before.vehicle in w.pending && w.pending[before.vehicle].to == after.operator
                  && w.roster.controller[before.vehicle] == id)
  {
    RosterStep(w, e);
    SessionAfter(w, e, id);
  }

  lemma SessionAfter(w: World, e: Event, id: SessionId)
    requires Inv(w) && Enabled(w, e) && id in w.roster.live && id in RosterAfter(w, e).live
    ensures var before, after := w.roster.live[id], RosterAfter(w, e).live[id];
            && after == before.(operator := after.operator)
            && (after.operator != before.operator ==>
                  && e == ConfirmHandover(before.vehicle, after.operator, true)
                  && before.vehicle in w.pending && w.pending[before.vehicle].to == after.operator
                  && w.roster.controller[before.vehicle] == id)
  {
    if e.ConfirmHandover? {
      ReassignedOnly(w.roster, e.v, e.op, id);
    }
  }

  lemma ReassignedOnly(r: Roster, v: VehicleId, op: OperatorId, id: SessionId)
    requires r.Consistent() && id in r.live
    ensures r.Reassigned(v, op, Controller).live.Keys == r.live.Keys
    ensures r.Reassigned(v, op, Controller).live[id]
            == if v in r.controller && r.controller[v] == id then r.live[id].(operator := op) else r.live[id]
  {
  }

  /** The roster after an event. */
  function RosterAfter(w: World, e: Event): Roster {
    match e
    case StartSession(v, op, asObserver, id) =>
      if StartAnswer(w, v, op, asObserver, id).Started? then w.roster.Started(v, op, id) else w.roster
    case EndSession(id) => if id == "" then EMPTY_ROSTER else w.roster.Released(id)
    case ConfirmHandover(v, op, tokenIssued) =>
      if ConfirmAnswer(w, v, op, tokenIssued) == Done then w.roster.Reassigned(v, op, Controller) else w.roster
    case CloseSocket(k) =>
      if k in w.sockets && w.sockets[k].observer then w.roster.Released(w.sockets[k].session.id) else w.roster
    case _ => w.roster
  }

  lemma RosterStep(w: World, e: Event)
    ensures Step(w, e).roster == RosterAfter(w, e)
  {
  }

  lemma RosterAlongRun(ws: seq<World>, es: seq<Event>, i: nat)
    requires IsRun(ws, es) && i < |es|
    ensures Enabled(ws[i], es[i]) && ws[i + 1].roster == RosterAfter(ws[i], es[i])
  {
    assert Happens(ws, es, i);
    RosterStep(ws[i], es[i]);
  }

  /** A handover step changes neither SYSTEM nor CONTROL of any vehicle, nor who controls what. */
  lemma HandoverKeepsControl(w: World, e: Event, v: VehicleId)
    requires Inv(w) && (e.RequestHandover? || e.ConfirmHandover? || e.CancelHandover?)
    ensures var before, after := Of(w.fleet, v).machine, Of(Step(w, e).fleet, v).machine;
            && after == before.(operator := after.operator)
            && Step(w, e).roster.controller == w.roster.controller
            && Step(w, e).roster.live.Keys == w.roster.live.Keys
  {
    StepSeen(w, e, v);
    assert EffectOn(w, e, v).Untouched? || EffectOn(w, e, v).Assigned?;
    RosterStep(w, e);
  }
}
