/** What every step of the control server keeps, and what holds in every run. */
module ProtocolSafety {
  import opened Common
  import opened StateMachine
  import opened StateMachineRuns
  import opened Watchdogs
  import opened Polling
  import opened Sessions
  import opened Vehicles
  import opened Protocol
  import TokenBuckets

  // ----- The invariant -----

  /** Between handlers a machine rests in one of four SYSTEM states. */
  predicate Resting(m: Layers) {
    && (m.system == Idle || m.system == Connected || m.system == Degraded || m.system == SafeMode)
    && Coherent(m)
  }

  /** The telemetry loop runs, its counter below the threshold. */
  predicate Polled(t: TelemetryPoller) {
    t.running.Some? && t.running.value < TELEMETRY_THRESHOLD
  }

  /** A vehicle is out of IDLE exactly while it has a controller, and then its telemetry is polled, and else
      its vehicle-ACK watchdog is off; a pending handover has a record; a drivable vehicle has an operator. */
  predicate Sound(x: Vehicle, controlled: bool, handover: bool) {
    && Resting(x.machine)
    && (x.machine.system != Idle <==> controlled)
    && (controlled ==> Polled(x.telemetry))
    && (!controlled ==> x.vehicleAck.stopped)
    && (x.machine.operator == HandoverPending ==> handover)
    && (x.machine.Drivable() ==> x.machine.operator == ActiveOperator || x.machine.operator == HandoverPending)
  }

  predicate SoundFleet(fleet: Fleet, controlled: set<VehicleId>, handovers: set<VehicleId>) {
    forall v | v in fleet :: Sound(fleet[v], v in controlled, v in handovers)
  }

  ghost predicate SoundRoster(w: World) {
    && w.roster.Consistent()
    && "" !in w.issued
    && (forall id | id in w.roster.live ::
          id in w.issued && w.roster.live[id].vehicle in w.fleet && w.roster.live[id].vehicle != "")
  }

  /** A socket remembers its session's vehicle and role for as long as the session lives. */
  predicate SoundSocket(w: World, k: Socket) {
    && k.session.id in w.issued
    && k.session.vehicle in w.fleet && k.session.vehicle != ""
    && (k.observer <==> k.session.role == Observer)
    && (k.session.id in w.roster.live ==>
          var s := w.roster.live[k.session.id];
          s.vehicle == k.session.vehicle && s.role == k.session.role)
  }

  ghost predicate Inv(w: World) {
    && SoundRoster(w)
    && SoundFleet(w.fleet, w.roster.controller.Keys, w.pending.Keys)
    && (forall k | k in w.sockets :: SoundSocket(w, w.sockets[k]))
  }

  // ----- One vehicle -----

  lemma NewVehicleIsSound(handover: bool)
    ensures Sound(NEW_VEHICLE, false, handover)
  {
  }

  lemma TripKeepsSound(x: Vehicle, controlled: bool, handover: bool)
    requires Sound(x, controlled, handover)
    ensures Sound(Tripped(x), controlled, handover)
    ensures controlled ==> Tripped(x).machine.system == SafeMode
    ensures !controlled ==> Tripped(x) == x
  {
  }

  lemma AdvanceMakesDrivable(x: Vehicle, op: OperatorId, handover: bool)
    requires Sound(x, false, handover)
    ensures Sound(Advanced(x, op), true, handover)
    ensures Advanced(x, op).machine.system == Connected
  {
  }

  lemma RecoverMakesDrivable(x: Vehicle, op: OperatorId, handover: bool)
    requires Sound(x, true, handover)
    ensures Sound(Recovered(x, op), true, handover) && Recovered(x, op).machine.Drivable()
  {
  }

  lemma TearDownMakesIdle(x: Vehicle, handover: bool)
    requires Sound(x, true, handover)
    ensures Sound(TornDown(x), false, handover)
  {
  }

  lemma ReportKeepsSound(x: Vehicle, c: Call, controlled: bool, handover: bool)
    requires Sound(x, controlled, handover) && IsReport(c)
    ensures Sound(x.(machine := Apply(x.machine, c)), controlled, handover)
  {
    ApplyKeepsCoherent(x.machine, c);
  }

  lemma TelemetryPollKeepsSound(x: Vehicle, recent: bool, controlled: bool, handover: bool)
    requires Sound(x, controlled, handover)
    ensures Sound(TelemetryTicked(x, recent), controlled, handover)
  {
    if controlled {
      CounterStaysBelowLimit(x.telemetry.running.value, recent, TELEMETRY_THRESHOLD);
    }
    ReportKeepsSound(x, Telemetry(recent), controlled, handover);
  }

  lemma StaleAuthKeepsSound(x: Vehicle, h: Happening, controlled: bool, handover: bool)
    requires Sound(x, controlled, handover) && h.StaleAuthCheck?
    ensures Sound(Affected(x, h), controlled, handover)
  {
    EffectIsAllOrNothing(h.loop, x.machine, h.active);
  }

  lemma StaleTelemetryKeepsSound(x: Vehicle, h: Happening, controlled: bool, handover: bool)
    requires Sound(x, controlled, handover) && h.StaleTelemetryCheck?
    ensures Sound(Affected(x, h), controlled, handover)
  {
    ReportKeepsSound(x, Telemetry(h.recent), controlled, handover);
  }

  lemma OthersKeepSound(x: Vehicle, controlled: bool, handover: bool)
    requires Sound(x, controlled, handover)
    ensures forall live :: (live ==> controlled) ==> Sound(Dropped(x, live), controlled, handover)
    ensures forall active :: Sound(AuthTicked(x, active), controlled, handover)
    ensures Sound(DeadmanExpired(x), controlled, handover) && Sound(VehicleAckExpired(x), controlled, handover)
    ensures Sound(WithOperator(x, ActiveOperator), controlled, false)
    ensures Sound(WithOperator(x, HandoverPending), controlled, true)
  {
  }

  // ----- One step -----

  /** Replacing one vehicle's context by a sound one keeps the invariant. */
  lemma PutKeepsInv(w: World, v: VehicleId, x: Vehicle)
    requires Inv(w) && Sound(x, v in w.roster.controller, v in w.pending)
    ensures Inv(Put(w, v, x))
  {
  }

  lemma OfIsSound(w: World, v: VehicleId)
    requires Inv(w)
    ensures Sound(Of(w.fleet, v), v in w.roster.controller, v in w.pending)
  {
    NewVehicleIsSound(v in w.pending);
    if v in w.roster.controller {
      assert w.roster.controller[v] in w.roster.live;
    }
  }

  /** No session changes its vehicle or role, and no issued session comes to life again. */
  ghost predicate SessionsKept(w: World, after: World) {
    && w.issued <= after.issued && w.fleet.Keys <= after.fleet.Keys
    && forall id | id in w.issued && id in after.roster.live ::
         && id in w.roster.live
         && after.roster.live[id].vehicle == w.roster.live[id].vehicle
         && after.roster.live[id].role == w.roster.live[id].role
  }

  lemma SocketStaysSound(w: World, after: World, k: Socket)
    requires SoundSocket(w, k) && SessionsKept(w, after)
    ensures SoundSocket(after, k)
  {
  }

  lemma StartedFleetIsSound(w: World, v: VehicleId, op: OperatorId, id: SessionId)
    requires Inv(w) && id !in w.issued && w.roster.RoleFor(v) == Controller
    ensures SoundFleet(w.fleet[v := Advanced(Of(w.fleet, v), op)],
                       w.roster.Started(v, op, id).controller.Keys, w.pending.Keys)
  {
    StartKeepsConsistent(w.roster, v, op, id);
    OfIsSound(w, v);
    AdvanceMakesDrivable(Of(w.fleet, v), op, v in w.pending);
  }

  /** A new session, over any sound fleet that knows its vehicle. */
  lemma GrownRosterKeepsInv(w: World, v: VehicleId, op: OperatorId, id: SessionId, fleet: Fleet)
    requires Inv(w) && id !in w.issued && id != "" && v != "" && v in fleet && w.fleet.Keys <= fleet.Keys
    requires SoundFleet(fleet, w.roster.Started(v, op, id).controller.Keys, w.pending.Keys)
    ensures Inv(w.(roster := w.roster.Started(v, op, id), issued := w.issued + {id}, fleet := fleet))
  {
    var after := w.(roster := w.roster.Started(v, op, id), issued := w.issued + {id}, fleet := fleet);
    StartKeepsConsistent(w.roster, v, op, id);
    assert SessionsKept(w, after);
    forall k | k in after.sockets
      ensures SoundSocket(after, after.sockets[k])
    {
      SocketStaysSound(w, after, w.sockets[k]);
    }
  }

  lemma StartKeepsInv(w: World, v: VehicleId, op: OperatorId, asObserver: bool, id: SessionId)
    requires Inv(w) && id !in w.issued && id != ""
    ensures Inv(Protocol.Start(w, v, op, asObserver, id))
  {
    if !StartAnswer(w, v, op, asObserver, id).Started? {
      return;
    }
    var fleet := w.fleet;
    if w.roster.RoleFor(v) == Controller {
      StartedFleetIsSound(w, v, op, id);
      fleet := w.fleet[v := Advanced(Of(w.fleet, v), op)];
    } else {
      ObservedVehicleIsKnown(w, v);
    }
    GrownRosterKeepsInv(w, v, op, id, fleet);
  }

  lemma ObservedVehicleIsKnown(w: World, v: VehicleId)
    requires Inv(w) && w.roster.RoleFor(v) == Observer
    ensures v in w.fleet && v in w.roster.controller
  {
    assert w.roster.live[w.roster.controller[v]].vehicle in w.fleet;
  }

  lemma EndOneKeepsInv(w: World, id: SessionId)
    requires Inv(w)
    ensures Inv(EndOne(w, id))
  {
    if id in w.roster.live {
      var s, fleet := w.roster.live[id], w.fleet;
      if s.role == Controller {
        ReleasedFleetIsSound(w, id);
        fleet := w.fleet[s.vehicle := TornDown(Of(w.fleet, s.vehicle))];
      } else {
        ReleaseKeepsConsistent(w.roster, id);
      }
      ShrunkRosterKeepsInv(w, id, fleet);
    }
  }

  lemma ReleasedFleetIsSound(w: World, id: SessionId)
    requires Inv(w) && id in w.roster.live && w.roster.live[id].role == Controller
    ensures var v := w.roster.live[id].vehicle;
            SoundFleet(w.fleet[v := TornDown(Of(w.fleet, v))], w.roster.Released(id).controller.Keys, w.pending.Keys)
  {
    var v := w.roster.live[id].vehicle;
    ReleaseKeepsConsistent(w.roster, id);
    OfIsSound(w, v);
    TearDownMakesIdle(Of(w.fleet, v), v in w.pending);
  }

  /** A session gone, over any sound fleet. */
  lemma ShrunkRosterKeepsInv(w: World, id: SessionId, fleet: Fleet)
    requires Inv(w) && w.fleet.Keys <= fleet.Keys
    requires SoundFleet(fleet, w.roster.Released(id).controller.Keys, w.pending.Keys)
    ensures Inv(w.(roster := w.roster.Released(id), fleet := fleet))
  {
    var after := w.(roster := w.roster.Released(id), fleet := fleet);
    ReleaseKeepsConsistent(w.roster, id);
    assert SessionsKept(w, after);
    forall k | k in after.sockets
      ensures SoundSocket(after, after.sockets[k])
    {
      SocketStaysSound(w, after, w.sockets[k]);
    }
  }

  lemma ControlledIsIndex(r: Roster)
    requires r.Consistent()
    ensures Controlled(r) == r.controller.Keys
  {
    forall v | v in r.controller
      ensures v in Controlled(r)
    {
      assert r.controller[v] in r.live;
    }
  }

  lemma EndAllKeepsInv(w: World)
    requires Inv(w)
    ensures Inv(EndAll(w))
  {
    ControlledIsIndex(w.roster);
    forall v | v in EndAll(w).fleet
      ensures Sound(EndAll(w).fleet[v], false, v in w.pending)
    {
      OfIsSound(w, v);
      if v in w.roster.controller {
        TearDownMakesIdle(Of(w.fleet, v), v in w.pending);
      }
    }
  }

  lemma TripEachKeepsInv(w: World, vs: set<VehicleId>)
    requires Inv(w)
    ensures Inv(w.(fleet := Each(w.fleet, vs, Tripped)))
  {
    var fleet := Each(w.fleet, vs, Tripped);
    forall v | v in fleet
      ensures Sound(fleet[v], v in w.roster.controller, v in w.pending)
    {
      OfIsSound(w, v);
      TripKeepsSound(Of(w.fleet, v), v in w.roster.controller, v in w.pending);
    }
  }

  /** One context replaced, and perhaps the record of a pending handover on that vehicle. */
  lemma OneVehicleKeepsInv(w: World, after: World, v: VehicleId, x: Vehicle)
    requires Inv(w)
    requires after.fleet == w.fleet[v := x] && after.roster == w.roster
    requires after.sockets == w.sockets && after.issued == w.issued
    requires after.pending.Keys - {v} == w.pending.Keys - {v}
    requires Sound(x, v in w.roster.controller, v in after.pending)
    ensures Inv(after)
  {
    forall u | u in after.fleet
      ensures Sound(after.fleet[u], u in after.roster.controller, u in after.pending)
    {
      if u != v {
        assert u in w.fleet && (u in w.pending.Keys - {v} <==> u in after.pending.Keys - {v});
      }
    }
  }

  lemma ReassignKeepsInv(w: World, v: VehicleId, op: OperatorId)
    requires Inv(w)
    ensures Inv(w.(roster := w.roster.Reassigned(v, op, Controller)))
  {
    ReassignKeepsConsistent(w.roster, v, op);
  }

  lemma RequestKeepsInv(w: World, v: VehicleId, from: OperatorId, to: OperatorId)
    requires Inv(w)
    ensures Inv(Request(w, v, from, to))
  {
    if v != "" {
      var after := Request(w, v, from, to);
      OfIsSound(w, v);
      OthersKeepSound(Of(w.fleet, v), v in w.roster.controller, v in w.pending);
      OneVehicleKeepsInv(w, after, v, after.fleet[v]);
    }
  }

  lemma ConfirmKeepsInv(w: World, v: VehicleId, op: OperatorId, tokenIssued: bool)
    requires Inv(w)
    ensures Inv(Confirm(w, v, op, tokenIssued))
  {
    if ConfirmAnswer(w, v, op, tokenIssued) == Done {
      var after := Confirm(w, v, op, tokenIssued);
      OfIsSound(w, v);
      OthersKeepSound(Of(w.fleet, v), v in w.roster.controller, v in w.pending);
      ReassignKeepsInv(w, v, op);
      OneVehicleKeepsInv(w.(roster := after.roster), after, v, after.fleet[v]);
    }
  }

  lemma CancelKeepsInv(w: World, v: VehicleId)
    requires Inv(w)
    ensures Inv(Cancel(w, v))
  {
    if v != "" && v in w.pending {
      var after := Cancel(w, v);
      OfIsSound(w, v);
      OthersKeepSound(Of(w.fleet, v), v in w.roster.controller, v in w.pending);
      OneVehicleKeepsInv(w, after, v, after.fleet[v]);
    }
  }

  lemma NewSocketKeepsInv(w: World, k: SocketId, s: Session)
    requires Inv(w) && s.id in w.roster.live && w.roster.live[s.id] == s
    ensures Inv(w.(sockets := w.sockets[k := Socket(s, s.role == Observer)]))
  {
  }

  lemma OpenKeepsInv(w: World, k: SocketId, id: SessionId)
    requires Inv(w) && k !in w.sockets
    ensures Inv(Open(w, k, id))
  {
    if id != "" && id in w.roster.live {
      var s := w.roster.live[id];
      var before := Of(w.fleet, s.vehicle);
      var x := if s.role == Controller then Recovered(before, s.operator) else before;
      OfIsSound(w, s.vehicle);
      if s.role == Controller {
        RecoverMakesDrivable(before, s.operator, s.vehicle in w.pending);
      }
      PutKeepsInv(w, s.vehicle, x);
      NewSocketKeepsInv(Put(w, s.vehicle, x), k, s);
    }
  }

  lemma AckedKeepsInv(w: World, v: VehicleId)
    requires Inv(w)
    ensures Inv(Acked(w, v))
  {
    OfIsSound(w, v);
    PutKeepsInv(w, v, Of(w.fleet, v).(ackTimer := NoTimer));
  }

  lemma LimiterIsIndependent(w: World, limiter: TokenBuckets.Bucket)
    requires Inv(w)
    ensures Inv(w.(limiter := limiter))
  {
  }

  lemma HandleKeepsInv(w: World, s: Session, c: Command, now: Time, delivered: bool)
    requires Inv(w)
    ensures Inv(Handle(w, s, c, now, delivered))
  {
    var limiter := TokenBuckets.Taken(w.limiter, now, TokenBuckets.COMMANDS_PER_SECOND);
    LimiterIsIndependent(w, limiter);
    OfIsSound(w, s.vehicle);
    var x := Of(w.fleet, s.vehicle);
    TripKeepsSound(x, s.vehicle in w.roster.controller, s.vehicle in w.pending);
    PutKeepsInv(w.(limiter := limiter), s.vehicle, Commanded(x, c, now, Reaches(w, s, c, now, delivered)));
  }

  lemma MessageKeepsInv(w: World, k: SocketId, c: Command, now: Time, delivered: bool)
    requires Inv(w)
    ensures Inv(Message(w, k, c, now, delivered))
  {
    if k in w.sockets {
      var s := w.sockets[k].session;
      AckedKeepsInv(w, s.vehicle);
      if s.id in w.roster.live {
        HandleKeepsInv(w, w.roster.live[s.id], c, now, delivered);
        AckedKeepsInv(Handle(w, w.roster.live[s.id], c, now, delivered), s.vehicle);
      }
    }
  }

  lemma CloseKeepsInv(w: World, k: SocketId)
    requires Inv(w)
    ensures Inv(Close(w, k))
  {
    if k in w.sockets {
      var s := w.sockets[k].session;
      var closed := w.(sockets := w.sockets - {k});
      assert Inv(closed);
      if w.sockets[k].observer {
        ReleaseKeepsConsistent(w.roster, s.id);
      } else {
        OfIsSound(w, s.vehicle);
        OthersKeepSound(Of(w.fleet, s.vehicle), s.vehicle in w.roster.controller, s.vehicle in w.pending);
        PutKeepsInv(closed, s.vehicle, Dropped(Of(w.fleet, s.vehicle), s.id in w.roster.live));
      }
    }
  }

  lemma AffectedIsSound(x: Vehicle, h: Happening, controlled: bool, handover: bool)
    requires Sound(x, controlled, handover)
    ensures Sound(Affected(x, h), controlled, handover)
  {
    TripKeepsSound(x, controlled, handover);
    OthersKeepSound(x, controlled, handover);
    match h {
      case MediaEvent(report) =>
        ReportKeepsSound(x, Media(report), controlled, handover);
      case TelemetryPolled(recent) =>
        TelemetryPollKeepsSound(x, recent, controlled, handover);
      case StaleAuthCheck(_, _) =>
        StaleAuthKeepsSound(x, h, controlled, handover);
      case StaleTelemetryCheck(_, _) =>
        StaleTelemetryKeepsSound(x, h, controlled, handover);
      case AckExpires =>
        TripKeepsSound(x.(ackTimer := NoTimer), controlled, handover);
      case _ =>
    }
  }

  lemma LocalStepKeepsInv(w: World, v: VehicleId, h: Happening)
    requires Inv(w)
    ensures Inv(LocalStep(w, v, h))
  {
    OfIsSound(w, v);
    AffectedIsSound(Of(w.fleet, v), h, v in w.roster.controller, v in w.pending);
    if !Ignored(v, h) {
      OneVehicleKeepsInv(w, LocalStep(w, v, h), v, Affected(Of(w.fleet, v), h));
    }
  }

  lemma HaltKeepsInv(w: World, v: VehicleId)
    requires Inv(w)
    ensures Inv(Halt(w, v))
  {
    if v == "" {
      TripEachKeepsInv(w, w.roster.Vehicles());
    } else {
      OfIsSound(w, v);
      TripKeepsSound(Of(w.fleet, v), v in w.roster.controller, v in w.pending);
      PutKeepsInv(w, v, Tripped(Of(w.fleet, v)));
    }
  }

  lemma BusTickKeepsInv(w: World, healthy: bool)
    requires Inv(w)
    ensures Inv(BusTicked(w, healthy))
  {
    TripEachKeepsInv(w, w.roster.Vehicles());
  }

  lemma SessionStepKeepsInv(w: World, e: Event)
    requires Inv(w) && Enabled(w, e) && (e.StartSession? || e.EndSession?)
    ensures Inv(Step(w, e))
  {
    match e {
      case StartSession(v, op, asObserver, id) => StartKeepsInv(w, v, op, asObserver, id);
      case EndSession(id) =>
        if id != "" {
          EndOneKeepsInv(w, id);
        } else {
          EndAllKeepsInv(w);
        }
    }
  }

  lemma HandoverStepKeepsInv(w: World, e: Event)
    requires Inv(w) && (e.RequestHandover? || e.ConfirmHandover? || e.CancelHandover?)
    ensures Inv(Step(w, e))
  {
    match e {
      case RequestHandover(v, from, to) => RequestKeepsInv(w, v, from, to);
      case ConfirmHandover(v, op, tokenIssued) => ConfirmKeepsInv(w, v, op, tokenIssued);
      case CancelHandover(v) => CancelKeepsInv(w, v);
    }
  }

  lemma SocketStepKeepsInv(w: World, e: Event)
    requires Inv(w) && Enabled(w, e) && (e.OpenSocket? || e.Receive? || e.CloseSocket?)
    ensures Inv(Step(w, e))
  {
    match e {
      case OpenSocket(k, id) => OpenKeepsInv(w, k, id);
      case Receive(k, c, now, delivered) => MessageKeepsInv(w, k, c, now, delivered);
      case CloseSocket(k) => CloseKeepsInv(w, k);
    }
  }

  lemma VehicleStepKeepsInv(w: World, e: Event)
    requires Inv(w) && (e.StopRequest? || e.BusPolled? || e.At?)
    ensures Inv(Step(w, e))
  {
    if e.StopRequest? {
      HaltKeepsInv(w, e.v);
    } else if e.BusPolled? {
      BusTickKeepsInv(w, e.healthy);
    } else {
      LocalStepKeepsInv(w, e.v, e.what);
    }
  }

  /** Every enabled step keeps the invariant. */
  lemma StepKeepsInv(w: World, e: Event)
    requires Inv(w) && Enabled(w, e)
    ensures Inv(Step(w, e))
  {
    if e.StartSession? || e.EndSession? {
      SessionStepKeepsInv(w, e);
    } else if e.RequestHandover? || e.ConfirmHandover? || e.CancelHandover? {
      HandoverStepKeepsInv(w, e);
    } else if e.OpenSocket? || e.Receive? || e.CloseSocket? {
      SocketStepKeepsInv(w, e);
    } else {
      VehicleStepKeepsInv(w, e);
    }
  }
}
