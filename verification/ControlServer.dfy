/** The control server's objects. Every handler mutates the session manager, the machines and the
    watchdogs call by call; each is proved to take the server from one world to the world that
    `Protocol.Step` names. */
module ControlServer {
  import opened Common
  import opened StateMachine
  import opened Watchdogs
  import opened Polling
  import opened Sessions
  import opened Vehicles
  import opened Protocol
  import opened ProtocolSafety
  import TokenBuckets

  // ----- Scripts on one vehicle's context -----

  method Advance(vc: VehicleContext, op: OperatorId)
    requires vc.Wired()
    modifies vc.sm, vc.deadman, vc.vehicleAck, vc.auth, vc.telemetry
    ensures vc.View() == Advanced(old(vc.View()), op)
  {
    var _ := vc.sm.TransitionSystem(Connecting);
    var _ := vc.sm.TransitionSystem(Authenticated);
    var _ := vc.sm.TransitionToConnected();
    vc.sm.TransitionOperator(ActiveOperator);
    vc.deadman.Start();
    vc.vehicleAck.Start();
    vc.auth.Start(op);
    vc.telemetry.Start();
  }

  method RecoverFromSafeMode(vc: VehicleContext, op: OperatorId)
    requires vc.Wired()
    modifies vc.sm, vc.deadman, vc.auth
    ensures vc.View() == Recovered(old(vc.View()), op)
  {
    if vc.sm.system != SafeMode {
      return;
    }
    var _ := vc.sm.TransitionSystem(Recovering);
    var _ := vc.sm.TransitionSystem(Authenticated);
    var _ := vc.sm.TransitionToConnected();
    vc.sm.TransitionOperator(ActiveOperator);
    vc.deadman.Start();
    vc.auth.Start(op);
  }

  method TearDown(vc: VehicleContext)
    requires vc.Wired()
    modifies vc.sm, vc.deadman, vc.vehicleAck, vc.auth, vc.telemetry
    ensures vc.View() == TornDown(old(vc.View()))
  {
    vc.deadman.Stop();
    vc.vehicleAck.Stop();
    vc.auth.Stop();
    vc.telemetry.Stop();
    var _ := vc.sm.TransitionSystem(Idle);
  }

  method Drop(vc: VehicleContext, sessionLive: bool)
    requires vc.Wired()
    modifies vc.sm, vc.deadman, vc.auth
    ensures vc.View() == Dropped(old(vc.View()), sessionLive)
  {
    vc.deadman.Stop();
    vc.auth.Stop();
    if sessionLive && vc.sm.system != SafeMode {
      var _ := vc.sm.TransitionSystem(SafeMode);
      vc.sm.TransitionOperator(NoOperator);
    }
  }

  /** HANDOVER_PENDING is set only if the vehicle has an active operator. */
  method Offer(vc: VehicleContext) returns (ok: bool)
    requires vc.Wired()
    modifies vc.sm
    ensures ok <==> old(vc.View()).machine.operator == ActiveOperator
    ensures vc.View() == if ok then WithOperator(old(vc.View()), HandoverPending) else old(vc.View())
  {
    ok := vc.sm.operator == ActiveOperator;
    if ok {
      vc.sm.TransitionOperator(HandoverPending);
    }
  }

  /** A routed command; `reaches` says that the vehicle got it. */
  method Obey(vc: VehicleContext, c: Command, now: Time, reaches: bool)
    requires vc.Wired()
    modifies vc.sm, vc.deadman, vc.vehicleAck
    ensures vc.View() == Commanded(old(vc.View()), c, now, reaches)
  {
    if c.DeadmanHold? {
      vc.deadman.Reset(now);
    } else if c.EmergencyStop? {
      var _ := vc.sm.TransitionSystem(SafeMode);
    } else if reaches {
      vc.vehicleAck.CommandForwarded(now);
    }
  }

  /** A check of an account-check loop, running or stopped. */
  method ReactToAuth(vc: VehicleContext, h: Happening)
    requires vc.Wired() && (h.AuthPolled? || h.StaleAuthCheck?)
    modifies vc.sm, vc.auth
    ensures vc.View() == Affected(old(vc.View()), h)
  {
    if h.AuthPolled? {
      vc.auth.Poll(h.active);
    } else {
      vc.auth.FinishStale(h.loop, h.active);
    }
  }

  /** A check of a telemetry loop, running or stopped. */
  method ReactToTelemetry(vc: VehicleContext, h: Happening)
    requires vc.Wired() && (h.TelemetryPolled? || h.StaleTelemetryCheck?)
    modifies vc.sm, vc.telemetry
    ensures vc.View() == Affected(old(vc.View()), h)
  {
    if h.TelemetryPolled? {
      vc.telemetry.Poll(h.recent);
    } else {
      vc.telemetry.FinishStale(h.failures, h.recent);
    }
  }

  /** An event of this vehicle alone: a report, a timer, a poll, its own socket. */
  method React(vc: VehicleContext, h: Happening)
    requires vc.Wired()
    modifies vc.sm, vc.deadman, vc.ackTimeout, vc.vehicleAck, vc.auth, vc.telemetry
    ensures vc.View() == Affected(old(vc.View()), h)
  {
    match h {
      case MediaEvent(report) => vc.sm.TransitionMedia(report);
      case VehicleAcks => vc.vehicleAck.AckReceived();
      case VehicleLeaves =>
        if vc.sm.system != SafeMode {
          var _ := vc.sm.TransitionSystem(SafeMode);
        }
      case DeadmanExpires => vc.deadman.Fire();
      case AckExpires => vc.ackTimeout.Fire();
      case VehicleAckExpires => vc.vehicleAck.Fire();
      case AuthPolled(_) => ReactToAuth(vc, h);
      case TelemetryPolled(_) => ReactToTelemetry(vc, h);
      case StaleAuthCheck(_, _) => ReactToAuth(vc, h);
      case StaleTelemetryCheck(_, _) => ReactToTelemetry(vc, h);
      case VehicleJoins =>
      case Inspect =>
    }
  }

  // ----- Actions on a vehicle of the registry -----

  /** What a handler does to the context of one vehicle. */
  datatype Action =
    | Advancing(account: OperatorId) | Reconnecting(account: OperatorId) | TearingDown | Tripping
    | Dropping(sessionLive: bool)
    | Assigning(op: OperatorState)
    | Commanding(command: Command, now: Time, reaches: bool)
    | AwaitingAck(now: Time) | SettlingAck
    | Reacting(what: Happening)

  function Acted(x: Vehicle, a: Action): Vehicle {
    match a
    case Advancing(op) => Advanced(x, op)
    case Reconnecting(op) => Recovered(x, op)
    case TearingDown => TornDown(x)
    case Tripping => Tripped(x)
    case Dropping(sessionLive) => Dropped(x, sessionLive)
    case Assigning(op) => WithOperator(x, op)
    case Commanding(c, now, reaches) => Commanded(x, c, now, reaches)
    case AwaitingAck(now) => x.(ackTimer := Running(now + ACK_TIMEOUT))
    case SettlingAck => x.(ackTimer := NoTimer)
    case Reacting(h) => Affected(x, h)
  }

  method Act(vc: VehicleContext, a: Action)
    requires vc.Wired()
    modifies vc.sm, vc.deadman, vc.ackTimeout, vc.vehicleAck, vc.auth, vc.telemetry
    ensures vc.View() == Acted(old(vc.View()), a)
  {
    match a {
      case Advancing(op) => Advance(vc, op);
      case Reconnecting(op) => RecoverFromSafeMode(vc, op);
      case TearingDown => TearDown(vc);
      case Tripping => var _ := vc.sm.TransitionSystem(SafeMode);
      case Dropping(sessionLive) => Drop(vc, sessionLive);
      case Assigning(op) => vc.sm.TransitionOperator(op);
      case Commanding(c, now, reaches) => Obey(vc, c, now, reaches);
      case AwaitingAck(now) => vc.ackTimeout.CommandReceived(now);
      case SettlingAck => vc.ackTimeout.CommandAcked();
      case Reacting(h) => React(vc, h);
    }
  }

  /** An action on the context of v, which becomes `after`; no other vehicle changes. */
  method ActOn(vehicles: Registry, v: VehicleId, a: Action, ghost after: Vehicle)
    requires vehicles.Separate()
    requires after == Acted(Of(vehicles.View(), v), a)
    modifies vehicles, vehicles.footprint
    ensures vehicles.Separate() && fresh(vehicles.footprint - old(vehicles.footprint))
    ensures vehicles.View() == old(vehicles.View())[v := after]
  {
    var vc := vehicles.Get(v);
    label got:
    Act(vc, a);
    vehicles.OnlyChanged@got(v);
    Overwritten(old(vehicles.View()), v, old@got(vc.View()), vc.View());
  }

  method OfferHandover(vehicles: Registry, v: VehicleId) returns (ok: bool)
    requires vehicles.Separate()
    modifies vehicles, vehicles.footprint
    ensures vehicles.Separate() && fresh(vehicles.footprint - old(vehicles.footprint))
    ensures ok <==> Of(old(vehicles.View()), v).machine.operator == ActiveOperator
    ensures var x := Of(old(vehicles.View()), v);
            vehicles.View() == old(vehicles.View())[v := if ok then WithOperator(x, HandoverPending) else x]
  {
    var vc := vehicles.Get(v);
    label got:
    ok := Offer(vc);
    vehicles.OnlyChanged@got(v);
    Overwritten(old(vehicles.View()), v, old@got(vc.View()), vc.View());
  }

  // ----- Fleet-wide loops -----

  lemma EachStep(fleet: Fleet, done: set<VehicleId>, v: VehicleId, f: Vehicle -> Vehicle)
    requires v !in done
    ensures var part := Each(fleet, done, f);
            part[v := f(Of(part, v))] == Each(fleet, done + {v}, f)
  {
    var part := Each(fleet, done, f);
    assert Of(part, v) == Of(fleet, v);
    assert part.Keys + {v} == fleet.Keys + (done + {v});
  }

  function Listed(ids: seq<VehicleId>): set<VehicleId> {
    set v | v in ids
  }

  lemma ListedStep(ids: seq<VehicleId>, i: nat)
    requires i < |ids| && forall j, k | 0 <= j < k < |ids| :: ids[j] != ids[k]
    ensures Listed(ids[..i + 1]) == Listed(ids[..i]) + {ids[i]} && ids[i] !in Listed(ids[..i])
  {
    assert ids[..i + 1] == ids[..i] + [ids[i]];
  }

  /** Trips every listed vehicle; the order of the list does not matter. */
  method TripAll(vehicles: Registry, ids: seq<VehicleId>)
    requires vehicles.Separate() && forall i, j | 0 <= i < j < |ids| :: ids[i] != ids[j]
    modifies vehicles, vehicles.footprint
    ensures vehicles.Separate() && fresh(vehicles.footprint - old(vehicles.footprint))
    ensures vehicles.View() == Each(old(vehicles.View()), Listed(ids), Tripped)
  {
    ghost var fleet := vehicles.View();
    assert Each(fleet, {}, Tripped) == fleet;
    for i := 0 to |ids|
      invariant vehicles.Separate() && fresh(vehicles.footprint - old(vehicles.footprint))
      invariant vehicles.View() == Each(fleet, Listed(ids[..i]), Tripped)
    {
      ListedStep(ids, i);
      EachStep(fleet, Listed(ids[..i]), ids[i], Tripped);
      ActOn(vehicles, ids[i], Tripping, Tripped(Of(vehicles.View(), ids[i])));
    }
    assert ids[..|ids|] == ids;
  }

  lemma WithControllerStep(r: Roster, vs: set<VehicleId>, v: VehicleId)
    ensures WithController(r, vs + {v})
            == if r.Controlling(v).Some? then WithController(r, vs) + {v} else WithController(r, vs)
  {
  }

  /** Tears down every listed vehicle that has a controller. */
  method TearDownAll(vehicles: Registry, roster: Roster, ids: seq<VehicleId>)
    requires vehicles.Separate() && forall i, j | 0 <= i < j < |ids| :: ids[i] != ids[j]
    modifies vehicles, vehicles.footprint
    ensures vehicles.Separate() && fresh(vehicles.footprint - old(vehicles.footprint))
    ensures vehicles.View() == Each(old(vehicles.View()), WithController(roster, Listed(ids)), TornDown)
  {
    ghost var fleet := vehicles.View();
    assert Each(fleet, {}, TornDown) == fleet;
    for i := 0 to |ids|
      invariant vehicles.Separate() && fresh(vehicles.footprint - old(vehicles.footprint))
      invariant vehicles.View() == Each(fleet, WithController(roster, Listed(ids[..i])), TornDown)
    {
      ListedStep(ids, i);
      WithControllerStep(roster, Listed(ids[..i]), ids[i]);
      if roster.Controlling(ids[i]).Some? {
        EachStep(fleet, WithController(roster, Listed(ids[..i])), ids[i], TornDown);
        ActOn(vehicles, ids[i], TearingDown, TornDown(Of(vehicles.View(), ids[i])));
      }
    }
    assert ids[..|ids|] == ids;
  }

  // ----- Operator handover -----

  class HandoverManager {
    const vehicles: Registry
    const sessions: Manager
    var pending: map<VehicleId, Handover>

    constructor (vehicles: Registry, sessions: Manager)
      ensures this.vehicles == vehicles && this.sessions == sessions && pending == map[]
    {
      this.vehicles, this.sessions := vehicles, sessions;
      pending := map[];
    }

    method RequestHandover(v: VehicleId, from: OperatorId, to: OperatorId) returns (ok: bool)
      requires vehicles.Separate() && this !in vehicles.footprint
      modifies this, vehicles, vehicles.footprint
      ensures vehicles.Separate() && fresh(vehicles.footprint - old(vehicles.footprint))
      ensures ok <==> Of(old(vehicles.View()), v).machine.operator == ActiveOperator
      ensures pending == if ok then old(pending)[v := Handover(from, to)] else old(pending)
      ensures var x := Of(old(vehicles.View()), v);
              vehicles.View() == old(vehicles.View())[v := if ok then WithOperator(x, HandoverPending) else x]
    {
      ok := OfferHandover(vehicles, v);
      label offered:
      if ok {
        pending := pending[v := Handover(from, to)];
      }
      vehicles.Same@offered();
    }

    method ConfirmHandover(v: VehicleId, op: OperatorId, tokenIssued: bool) returns (a: Answer)
      requires vehicles.Separate() && this !in vehicles.footprint && sessions !in vehicles.footprint
      requires sessions.View().Consistent()
      modifies this, sessions, vehicles, vehicles.footprint
      ensures vehicles.Separate() && fresh(vehicles.footprint - old(vehicles.footprint))
      ensures a == if v !in old(pending) then Refused(NoHandover)
                   else if op != old(pending)[v].to then Refused(NotTheTarget)
                   else if !tokenIssued then Refused(TokenFailed) else Done
      ensures a != Done ==> vehicles.View() == old(vehicles.View()) && sessions.View() == old(sessions.View())
                            && pending == old(pending)
      ensures a == Done ==>
                && vehicles.View()
                   == old(vehicles.View())[v := WithOperator(Of(old(vehicles.View()), v), ActiveOperator)]
                && sessions.View() == old(sessions.View()).Reassigned(v, op, Controller)
                && pending == old(pending) - {v}
    {
      if v !in pending {
        return Refused(NoHandover);
      }
      if op != pending[v].to {
        return Refused(NotTheTarget);
      }
      if !tokenIssued {
        return Refused(TokenFailed);
      }
      Complete(v, pending[v].to);
      return Done;
    }

    method Complete(v: VehicleId, to: OperatorId)
      requires vehicles.Separate() && this !in vehicles.footprint && sessions !in vehicles.footprint
      requires sessions.View().Consistent()
      modifies this, sessions, vehicles, vehicles.footprint
      ensures vehicles.Separate() && fresh(vehicles.footprint - old(vehicles.footprint))
      ensures vehicles.View() == old(vehicles.View())[v := WithOperator(Of(old(vehicles.View()), v), ActiveOperator)]
      ensures sessions.View() == old(sessions.View()).Reassigned(v, to, Controller)
      ensures pending == old(pending) - {v}
    {
      sessions.UpdateOperator(v, to, Controller);
      vehicles.Same();
      ActOn(vehicles, v, Assigning(ActiveOperator), WithOperator(Of(vehicles.View(), v), ActiveOperator));
      label reassigned:
      pending := pending - {v};
      vehicles.Same@reassigned();
    }

    method CancelHandover(v: VehicleId)
      requires vehicles.Separate() && this !in vehicles.footprint
      modifies this, vehicles, vehicles.footprint
      ensures vehicles.Separate() && fresh(vehicles.footprint - old(vehicles.footprint))
      ensures pending == old(pending) - {v}
      ensures vehicles.View() == if v !in old(pending) then old(vehicles.View())
                else old(vehicles.View())[v := WithOperator(Of(old(vehicles.View()), v), ActiveOperator)]
    {
      if v !in pending {
        return;
      }
      pending := pending - {v};
      vehicles.Same();
      ActOn(vehicles, v, Assigning(ActiveOperator), WithOperator(Of(vehicles.View(), v), ActiveOperator));
    }
  }

  // ----- The server -----

  lemma CommandUnderTimer(fleet: Fleet, v: VehicleId, u: VehicleId, t: Timer, c: Command, now: Time, reaches: bool)
    ensures var waiting := fleet[v := Of(fleet, v).(ackTimer := t)];
            var plain := fleet[u := Commanded(Of(fleet, u), c, now, reaches)];
            var timed := waiting[u := Commanded(Of(waiting, u), c, now, reaches)];
            timed[v := Of(timed, v).(ackTimer := NoTimer)] == plain[v := Of(plain, v).(ackTimer := NoTimer)]
  {
    var x := Of(fleet, v);
    assert Commanded(x.(ackTimer := t), c, now, reaches) == Commanded(x, c, now, reaches).(ackTimer := t);
  }

  /** The command-ACK timer of v is t. */
  function Waiting(w: World, v: VehicleId, t: Timer): World {
    Put(w, v, Of(w.fleet, v).(ackTimer := t))
  }

  lemma RoutedUnderTimer(w: World, v: VehicleId, t: Timer, s: Session, c: Command, now: Time,
                         admitted: bool, reaches: bool)
    ensures var waiting := Waiting(w, v, t);
            && Acked(Routed(waiting, s, c, now, admitted, reaches), v)
               == Acked(Routed(w, s, c, now, admitted, reaches), v)
            && Acked(waiting, v) == Acked(w, v)
  {
    CommandUnderTimer(w.fleet, v, s.vehicle, t, c, now, reaches);
    Overwritten(w.fleet, v, Of(w.fleet, v).(ackTimer := t), Of(w.fleet, v).(ackTimer := NoTimer));
  }

  /** A pending ACK timer, started before a command is handled and settled after it, leaves no trace. */
  lemma AckTimerLeavesNoTrace(w: World, v: VehicleId, t: Timer, s: Session, c: Command, now: Time, delivered: bool)
    ensures Acked(Handle(Waiting(w, v, t), s, c, now, delivered), v) == Acked(Handle(w, s, c, now, delivered), v)
    ensures HandleAnswer(Waiting(w, v, t), s, c, now) == HandleAnswer(w, s, c, now)
    ensures Reaches(Waiting(w, v, t), s, c, now, delivered) == Reaches(w, s, c, now, delivered)
  {
    var limited := w.(limiter := TokenBuckets.Taken(w.limiter, now, TokenBuckets.COMMANDS_PER_SECOND));
    RoutedUnderTimer(w, v, t, s, c, now, Admits(w, now), Reaches(w, s, c, now, delivered));
    RoutedUnderTimer(limited, v, t, s, c, now, Admits(w, now), Reaches(w, s, c, now, delivered));
  }

  datatype Outcome = Outcome(world: World, answer: Answer, forward: Option<Forward>)

  /** A message that is not dropped: answered, routed and acknowledged. */
  function Delivery(w: World, s: Session, c: Command, now: Time, delivered: bool): Outcome {
    if s.id !in w.roster.live then Outcome(Acked(w, s.vehicle), Refused(SessionNotFound), None)
    else
      var current := w.roster.live[s.id];
      Outcome(Acked(Handle(w, current, c, now, delivered), s.vehicle), HandleAnswer(w, current, c, now),
              if Reaches(w, current, c, now, delivered) then Some(Forward(current.vehicle, current.id, c)) else None)
  }

  /** A message, from the world in which the socket's vehicle has been looked up. */
  lemma MessageAfterLookup(w: World, k: SocketId, c: Command, now: Time, delivered: bool)
    requires k in w.sockets
    ensures var s := w.sockets[k].session;
            var found := Put(w, s.vehicle, Of(w.fleet, s.vehicle));
            Outcome(Message(w, k, c, now, delivered), MessageAnswer(w, k, c, now),
                    Forwarded(w, Receive(k, c, now, delivered)))
            == if Silenced(Of(w.fleet, s.vehicle).machine) then Outcome(found, Refused(Blocked), None)
               else Delivery(found, s, c, now, delivered)
  {
    var s := w.sockets[k].session;
    var x := Of(w.fleet, s.vehicle);
    Overwritten(w.fleet, s.vehicle, x, x.(ackTimer := NoTimer));
    if s.id in w.roster.live {
      AckTimerLeavesNoTrace(w, s.vehicle, x.ackTimer, w.roster.live[s.id], c, now, delivered);
    }
  }

  class Server {
    const vehicles: Registry
    const sessions: Manager
    const handover: HandoverManager
    const limiter: TokenBuckets.TokenBucket
    var sockets: map<SocketId, Socket>
    var linked: set<VehicleId>
    var busFailures: nat
    ghost var issued: set<SessionId>

    ghost predicate Wired()
      reads this, vehicles, limiter
    {
      && vehicles.Separate() && limiter.Valid() && limiter.rate == TokenBuckets.COMMANDS_PER_SECOND
      && handover.vehicles == vehicles && handover.sessions == sessions
      && this !in vehicles.footprint && sessions !in vehicles.footprint
      && handover !in vehicles.footprint && limiter !in vehicles.footprint
    }

    ghost function View(): World
      requires Wired()
      reads this, vehicles, vehicles.footprint, sessions, handover, limiter
    {
      World(vehicles.View(), sessions.View(), handover.pending, sockets, linked, limiter.View(), busFailures, issued)
    }

    constructor (now: Time)
      ensures Wired() && View() == NewWorld(now) && Inv(View())
      ensures fresh(vehicles) && fresh(sessions) && fresh(handover) && fresh(limiter) && vehicles.footprint == {}
    {
      var registry := new Registry();
      var manager := new Manager();
      vehicles := registry;
      sessions := manager;
      handover := new HandoverManager(registry, manager);
      limiter := new TokenBuckets.TokenBucket(TokenBuckets.COMMANDS_PER_SECOND, now);
      sockets, linked, busFailures, issued := map[], {}, 0, {};
    }

    /** Why a start request is refused, if it is. */
    method Admit(v: VehicleId, op: OperatorId, asObserver: bool) returns (refusal: Option<Refusal>)
      ensures var named := v != "" && op != "";
              var taken := v in sessions.vehicleController && sessions.vehicleController[v] in sessions.sessions;
              && (refusal == Some(BadRequest) <==> !named)
              && (refusal == Some(ObserverCannotStart) <==> named && asObserver && !taken)
              && (refusal == Some(VehicleOffline) <==> named && (asObserver ==> taken) && v !in linked)
              && (refusal == None <==> named && (asObserver ==> taken) && v in linked)
    {
      if v == "" || op == "" {
        return Some(BadRequest);
      }
      var locked := sessions.IsVehicleLocked(v);
      if asObserver && !locked {
        return Some(ObserverCannotStart);
      }
      if v !in linked {
        return Some(VehicleOffline);
      }
      return None;
    }

    method HandleSessionStart(v: VehicleId, op: OperatorId, asObserver: bool, id: SessionId) returns (a: Answer)
      requires Wired()
      modifies this, sessions, vehicles, vehicles.footprint
      ensures fresh(vehicles.footprint - old(vehicles.footprint))
      ensures Wired() && View() == Protocol.Start(old(View()), v, op, asObserver, id)
      ensures var r, named := old(View()).roster, v != "" && op != "";
              var taken := v in r.controller && r.controller[v] in r.live;
              && (a == Refused(BadRequest) <==> !named)
              && (a == Refused(ObserverCannotStart) <==> named && asObserver && !taken)
              && (a == Refused(VehicleOffline) <==> named && (asObserver ==> taken) && v !in old(View()).linked)
              && (!a.Refused? <==> named && (asObserver ==> taken) && v in old(View()).linked)
              && (!a.Refused? ==> a == Answer.Started(Session(id, v, op, if taken then Observer else Controller)))
    {
      var refusal := Admit(v, op, asObserver);
      if refusal.Some? {
        return Refused(refusal.value);
      }
      var s := sessions.StartSession(v, op, id);
      issued := issued + {id};
      vehicles.Same();
      if s.role == Controller {
        ActOn(vehicles, v, Advancing(op), Advanced(Of(vehicles.View(), v), op));
      }
      return Started(s);
    }

    method HandleSessionEnd(id: SessionId)
      requires Wired()
      modifies sessions, vehicles, vehicles.footprint
      ensures fresh(vehicles.footprint - old(vehicles.footprint))
      ensures Wired() && View() == if id != "" then EndOne(old(View()), id) else EndAll(old(View()))
    {
      if id != "" {
        var s := sessions.GetSession(id);
        if s.Some? {
          if s.value.role == Controller {
            ActOn(vehicles, s.value.vehicle, TearingDown, TornDown(Of(vehicles.View(), s.value.vehicle)));
          }
          label stopped:
          sessions.ReleaseSession(id);
          vehicles.Same@stopped();
        }
      } else {
        var ids := sessions.ActiveVehicleIds();
        TearDownAll(vehicles, Roster(sessions.sessions, sessions.vehicleController), ids);
        label stopped:
        sessions.EndSession();
        vehicles.Same@stopped();
      }
    }

    method HandleHandoverRequest(v: VehicleId, from: OperatorId, to: OperatorId) returns (a: Answer)
      requires Wired()
      modifies handover, vehicles, vehicles.footprint
      ensures fresh(vehicles.footprint - old(vehicles.footprint))
      ensures Wired() && View() == Request(old(View()), v, from, to)
      ensures a == RequestAnswer(old(View()), v)
    {
      if v == "" {
        return Refused(BadRequest);
      }
      var ok := handover.RequestHandover(v, from, to);
      a := if ok then Done else Refused(NotActive);
    }

    method HandleHandoverConfirm(v: VehicleId, op: OperatorId, tokenIssued: bool) returns (a: Answer)
      requires Wired() && View().roster.Consistent()
      modifies handover, sessions, vehicles, vehicles.footprint
      ensures fresh(vehicles.footprint - old(vehicles.footprint))
      ensures Wired() && View() == Confirm(old(View()), v, op, tokenIssued)
      ensures a == ConfirmAnswer(old(View()), v, op, tokenIssued)
    {
      if v == "" {
        return Refused(BadRequest);
      }
      a := handover.ConfirmHandover(v, op, tokenIssued);
    }

    method HandleHandoverCancel(v: VehicleId)
      requires Wired()
      modifies handover, vehicles, vehicles.footprint
      ensures fresh(vehicles.footprint - old(vehicles.footprint))
      ensures Wired() && View() == Cancel(old(View()), v)
    {
      if v != "" {
        handover.CancelHandover(v);
      }
    }

    method HandleEmergencyStop(v: VehicleId)
      requires Wired()
      modifies vehicles, vehicles.footprint
      ensures fresh(vehicles.footprint - old(vehicles.footprint))
      ensures Wired() && View() == Halt(old(View()), v)
    {
      if v != "" {
        ActOn(vehicles, v, Tripping, Tripped(Of(vehicles.View(), v)));
      } else {
        var ids := sessions.ActiveVehicleIds();
        TripAll(vehicles, ids);
      }
    }

    /** A controller that connects leaves SAFE_MODE; an observer only looks the vehicle up. */
    method Resume(s: Session)
      requires Wired()
      modifies vehicles, vehicles.footprint
      ensures Wired() && fresh(vehicles.footprint - old(vehicles.footprint))
      ensures View() == var w := old(View());
                var x := Of(w.fleet, s.vehicle);
                Put(w, s.vehicle, if s.role == Controller then Recovered(x, s.operator) else x)
    {
      if s.role == Controller {
        ActOn(vehicles, s.vehicle, Reconnecting(s.operator), Recovered(Of(vehicles.View(), s.vehicle), s.operator));
      } else {
        var _ := vehicles.Get(s.vehicle);
      }
    }

    method ServeSocket(k: SocketId, id: SessionId) returns (a: Answer)
      requires Wired()
      modifies this, vehicles, vehicles.footprint
      ensures fresh(vehicles.footprint - old(vehicles.footprint))
      ensures Wired() && View() == Open(old(View()), k, id)
      ensures a == if id == "" then Refused(BadRequest)
                   else if id !in old(View()).roster.live then Refused(SessionNotFound) else Done
    {
      if id == "" {
        return Refused(BadRequest);
      }
      var s := sessions.GetSession(id);
      if s.None? {
        return Refused(SessionNotFound);
      }
      Resume(s.value);
      label resumed:
      sockets := sockets[k := Socket(s.value, s.value.role == Observer)];
      vehicles.Same@resumed();
      return Done;
    }

    method HandleSocketClosed(k: SocketId)
      requires Wired() && k in sockets
      modifies this, sessions, vehicles, vehicles.footprint
      ensures fresh(vehicles.footprint - old(vehicles.footprint))
      ensures Wired() && View() == Close(old(View()), k)
    {
      var socket := sockets[k];
      if socket.observer {
        sessions.ReleaseSession(socket.session.id);
        vehicles.Same();
      } else {
        var s := sessions.GetSession(socket.session.id);
        var v := socket.session.vehicle;
        ActOn(vehicles, v, Dropping(s.Some?), Dropped(Of(vehicles.View(), v), s.Some?));
      }
      label done:
      sockets := sockets - {k};
      vehicles.Same@done();
    }

    method Route(v: VehicleId, c: Command, now: Time, reaches: bool)
      requires Wired()
      modifies vehicles, vehicles.footprint
      ensures Wired() && fresh(vehicles.footprint - old(vehicles.footprint))
      ensures View() == var w := old(View()); Put(w, v, Commanded(Of(w.fleet, v), c, now, reaches))
    {
      ActOn(vehicles, v, Commanding(c, now, reaches), Commanded(Of(vehicles.View(), v), c, now, reaches));
    }

    /** The command engine: parse, limit, route. */
    method HandleCommand(s: Session, c: Command, now: Time, delivered: bool) returns (a: Answer, reached: bool)
      requires Wired()
      modifies limiter, vehicles, vehicles.footprint
      ensures Wired() && fresh(vehicles.footprint - old(vehicles.footprint))
      ensures View() == Handle(old(View()), s, c, now, delivered)
      ensures a == HandleAnswer(old(View()), s, c, now)
      ensures reached <==> Reaches(old(View()), s, c, now, delivered)
    {
      if c.Malformed? {
        return Refused(BadRequest), false;
      }
      var admitted := limiter.Allow(now);
      vehicles.Same();
      if !admitted {
        return Refused(RateLimited), false;
      }
      reached := c.Movement() && s.role != Observer && s.vehicle != "" && s.vehicle in linked && delivered;
      Route(s.vehicle, c, now, reached);
      a := if c.Movement() && s.role == Observer then Refused(ObserverCannotDrive) else Done;
    }

    method Await(v: VehicleId, now: Time)
      requires Wired()
      modifies vehicles, vehicles.footprint
      ensures Wired() && fresh(vehicles.footprint - old(vehicles.footprint))
      ensures View() == Waiting(old(View()), v, Running(now + ACK_TIMEOUT))
    {
      ActOn(vehicles, v, AwaitingAck(now), Of(vehicles.View(), v).(ackTimer := Running(now + ACK_TIMEOUT)));
    }

    method Settle(v: VehicleId)
      requires Wired()
      modifies vehicles, vehicles.footprint
      ensures Wired() && fresh(vehicles.footprint - old(vehicles.footprint))
      ensures View() == Acked(old(View()), v)
    {
      ActOn(vehicles, v, SettlingAck, Of(vehicles.View(), v).(ackTimer := NoTimer));
    }

    /** Whether commands for v are dropped now. */
    method Check(v: VehicleId) returns (silenced: bool)
      requires Wired()
      modifies vehicles
      ensures Wired() && fresh(vehicles.footprint - old(vehicles.footprint))
      ensures silenced == Silenced(Of(old(View()).fleet, v).machine)
      ensures View() == var w := old(View()); Put(w, v, Of(w.fleet, v))
    {
      var vc := vehicles.Get(v);
      silenced := vc.sm.system == SafeMode || vc.sm.control == ControlBlocked;
    }

    method Serve(v: VehicleId, s: Session, c: Command, now: Time, delivered: bool) returns (a: Answer, reached: bool)
      requires Wired()
      modifies limiter, vehicles, vehicles.footprint
      ensures fresh(vehicles.footprint - old(vehicles.footprint))
      ensures Wired() && View() == Acked(Handle(old(View()), s, c, now, delivered), v)
      ensures a == HandleAnswer(old(View()), s, c, now)
      ensures reached <==> Reaches(old(View()), s, c, now, delivered)
    {
      a, reached := HandleCommand(s, c, now, delivered);
      Settle(v);
    }

    method ServeTimed(v: VehicleId, s: Session, c: Command, now: Time, delivered: bool)
      returns (a: Answer, reached: bool)
      requires Wired()
      modifies limiter, vehicles, vehicles.footprint
      ensures fresh(vehicles.footprint - old(vehicles.footprint))
      ensures var waiting := Waiting(old(View()), v, Running(now + ACK_TIMEOUT));
              && Wired() && View() == Acked(Handle(waiting, s, c, now, delivered), v)
              && a == HandleAnswer(waiting, s, c, now)
              && (reached <==> Reaches(waiting, s, c, now, delivered))
    {
      Await(v, now);
      a, reached := Serve(v, s, c, now, delivered);
    }

    /** A command of a live session, under the ACK timer of a controller's socket. */
    method Relay(v: VehicleId, timed: bool, s: Session, c: Command, now: Time, delivered: bool)
      returns (a: Answer, reached: bool)
      requires Wired()
      modifies limiter, vehicles, vehicles.footprint
      ensures fresh(vehicles.footprint - old(vehicles.footprint))
      ensures Wired() && View() == Acked(Handle(old(View()), s, c, now, delivered), v)
      ensures a == HandleAnswer(old(View()), s, c, now)
      ensures reached <==> Reaches(old(View()), s, c, now, delivered)
    {
      if timed {
        AckTimerLeavesNoTrace(View(), v, Running(now + ACK_TIMEOUT), s, c, now, delivered);
        a, reached := ServeTimed(v, s, c, now, delivered);
      } else {
        a, reached := Serve(v, s, c, now, delivered);
      }
    }

    method Deliver(socket: Socket, c: Command, now: Time, delivered: bool) returns (a: Answer, forward: Option<Forward>)
      requires Wired()
      modifies limiter, vehicles, vehicles.footprint
      ensures fresh(vehicles.footprint - old(vehicles.footprint))
      ensures Wired() && Outcome(View(), a, forward) == Delivery(old(View()), socket.session, c, now, delivered)
    {
      var v := socket.session.vehicle;
      var current := sessions.GetSession(socket.session.id);
      if current.None? {
        Settle(v);
        return Refused(SessionNotFound), None;
      }
      var reached;
      a, reached := Relay(v, !socket.observer, current.value, c, now, delivered);
      forward := if reached then Some(Forward(current.value.vehicle, current.value.id, c)) else None;
    }

    /** One message of an operator socket. */
    method HandleMessage(k: SocketId, c: Command, now: Time, delivered: bool)
      returns (a: Answer, forward: Option<Forward>)
      requires Wired() && k in sockets
      modifies limiter, vehicles, vehicles.footprint
      ensures fresh(vehicles.footprint - old(vehicles.footprint))
      ensures Wired()
      ensures Outcome(View(), a, forward)
              == var w := old(View());
                 Outcome(Message(w, k, c, now, delivered), MessageAnswer(w, k, c, now),
                         Forwarded(w, Receive(k, c, now, delivered)))
    {
      MessageAfterLookup(View(), k, c, now, delivered);
      var silenced := Check(sockets[k].session.vehicle);
      if silenced {
        return Refused(Blocked), None;
      }
      a, forward := Deliver(sockets[k], c, now, delivered);
    }

    /** Media reports, timers, polls and the vehicle's own socket. */
    method HandleLocal(v: VehicleId, h: Happening)
      requires Wired()
      modifies this, vehicles, vehicles.footprint
      ensures fresh(vehicles.footprint - old(vehicles.footprint))
      ensures Wired() && View() == LocalStep(old(View()), v, h)
    {
      if Ignored(v, h) {
        return;
      }
      ActOn(vehicles, v, Reacting(h), Affected(Of(vehicles.View(), v), h));
      label reacted:
      if h.VehicleJoins? {
        linked := linked + {v};
      } else if h.VehicleLeaves? {
        linked := linked - {v};
      }
      vehicles.Same@reacted();
    }

    /** One tick of the safety-bus polling loop. */
    method HandleBusPoll(healthy: bool)
      requires Wired()
      modifies this, vehicles, vehicles.footprint
      ensures fresh(vehicles.footprint - old(vehicles.footprint))
      ensures Wired() && View() == BusTicked(old(View()), healthy)
    {
      var failures := if healthy then 0 else busFailures + 1;
      if failures >= BUS_THRESHOLD {
        var ids := sessions.ActiveVehicleIds();
        TripAll(vehicles, ids);
        failures := 0;
      }
      label counted:
      busFailures := failures;
      vehicles.Same@counted();
    }

    method DispatchSession(e: Event)
      requires Wired() && (e.StartSession? || e.EndSession?)
      modifies this, sessions, vehicles, vehicles.footprint
      ensures fresh(vehicles.footprint - old(vehicles.footprint))
      ensures Wired() && View() == Step(old(View()), e)
    {
      if e.StartSession? {
        var _ := HandleSessionStart(e.v, e.op, e.asObserver, e.id);
      } else {
        HandleSessionEnd(e.id);
      }
    }

    method DispatchHandover(e: Event)
      requires Wired() && View().roster.Consistent() && (e.RequestHandover? || e.ConfirmHandover? || e.CancelHandover?)
      modifies handover, sessions, vehicles, vehicles.footprint
      ensures fresh(vehicles.footprint - old(vehicles.footprint))
      ensures Wired() && View() == Step(old(View()), e)
    {
      if e.RequestHandover? {
        var _ := HandleHandoverRequest(e.v, e.from, e.to);
      } else if e.ConfirmHandover? {
        var _ := HandleHandoverConfirm(e.v, e.op, e.tokenIssued);
      } else {
        HandleHandoverCancel(e.v);
      }
    }

    method DispatchSocket(e: Event) returns (forward: Option<Forward>)
      requires Wired() && (e.OpenSocket? || e.Receive? || e.CloseSocket?)
      modifies this, limiter, sessions, vehicles, vehicles.footprint
      ensures fresh(vehicles.footprint - old(vehicles.footprint))
      ensures Wired() && View() == Step(old(View()), e)
      ensures forward == Forwarded(old(View()), e)
    {
      forward := None;
      if e.OpenSocket? {
        var _ := ServeSocket(e.socket, e.id);
      } else if e.socket in sockets {
        if e.Receive? {
          var answer;
          answer, forward := HandleMessage(e.socket, e.command, e.now, e.delivered);
        } else {
          HandleSocketClosed(e.socket);
        }
      }
    }

    method DispatchVehicle(e: Event)
      requires Wired() && (e.StopRequest? || e.BusPolled? || e.At?)
      modifies this, vehicles, vehicles.footprint
      ensures fresh(vehicles.footprint - old(vehicles.footprint))
      ensures Wired() && View() == Step(old(View()), e)
    {
      if e.StopRequest? {
        HandleEmergencyStop(e.v);
      } else if e.BusPolled? {
        HandleBusPoll(e.healthy);
      } else {
        HandleLocal(e.v, e.what);
      }
    }

    /** Any event, handled by its handler: a server that starts in the invariant stays in it, takes
        exactly the steps of the protocol and forwards exactly its commands. */
    method Dispatch(e: Event) returns (forward: Option<Forward>)
      requires Wired() && Inv(View()) && Enabled(View(), e)
      modifies this, handover, limiter, sessions, vehicles, vehicles.footprint
      ensures fresh(vehicles.footprint - old(vehicles.footprint))
      ensures Wired() && View() == Step(old(View()), e) && Inv(View())
      ensures forward == Forwarded(old(View()), e)
    {
      forward := None;
      StepKeepsInv(View(), e);
      if e.StartSession? || e.EndSession? {
        DispatchSession(e);
      } else if e.RequestHandover? || e.ConfirmHandover? || e.CancelHandover? {
        DispatchHandover(e);
      } else if e.OpenSocket? || e.Receive? || e.CloseSocket? {
        forward := DispatchSocket(e);
      } else {
        DispatchVehicle(e);
      }
    }
  }
}
