/** Who drives and who is checked, after handovers. A handover changes the operator of a session, but
    neither the account that the account check asks for nor the operator of an open socket. */
module Operators {
  import opened Common
  import opened StateMachine
  import opened Polling
  import opened Sessions
  import opened Vehicles
  import opened Protocol
  import opened ProtocolSafety
  import opened ProtocolRuns
  import opened WatchdogCoverage

  /** The event hands v over to its operator `e.op`. */
  predicate HandedOver(w: World, e: Event, v: VehicleId) {
    e.ConfirmHandover? && e.v == v && ConfirmAnswer(w, v, e.op, e.tokenIssued) == Done
  }

  // ----- The operator of a vehicle -----

  /** The operator of v's controller. */
  function OperatorOf(r: Roster, v: VehicleId): Option<OperatorId> {
    var s := r.Controlling(v);
    if s.Some? then Some(s.value.operator) else None
  }

  lemma StartedOperator(r: Roster, u: VehicleId, op: OperatorId, id: SessionId, v: VehicleId)
    requires r.Consistent() && id !in r.live
    ensures OperatorOf(r.Started(u, op, id), v)
            == if u == v && r.RoleFor(v) == Controller then Some(op) else OperatorOf(r, v)
  {
  }

  lemma ReleasedOperator(r: Roster, id: SessionId, v: VehicleId)
    requires r.Consistent() && OperatorOf(r.Released(id), v).Some?
    ensures OperatorOf(r.Released(id), v) == OperatorOf(r, v)
  {
  }

  lemma ReassignedOperator(r: Roster, u: VehicleId, op: OperatorId, v: VehicleId)
    requires r.Consistent()
    ensures OperatorOf(r.Reassigned(u, op, Controller), v)
            == if u == v && OperatorOf(r, v).Some? then Some(op) else OperatorOf(r, v)
  {
  }

  /** The operator of a vehicle changes only with its session and with a handover. */
  lemma OperatorAfter(w: World, e: Event, v: VehicleId)
    requires Inv(w) && Enabled(w, e) && OperatorOf(RosterAfter(w, e), v).Some?
    ensures OperatorOf(RosterAfter(w, e), v)
            == if (StartsControl(w, e) && e.v == v) || HandedOver(w, e, v) then Some(e.op) else OperatorOf(w.roster, v)
  {
    match e {
      case StartSession(u, op, _, id) => StartedOperator(w.roster, u, op, id, v);
      case EndSession(id) =>
        if id != "" {
          ReleasedOperator(w.roster, id, v);
        }
      case ConfirmHandover(u, op, _) => ReassignedOperator(w.roster, u, op, v);
      case CloseSocket(k) =>
        if k in w.sockets && w.sockets[k].observer {
          ReleasedOperator(w.roster, w.sockets[k].session.id, v);
        }
      case _ =>
    }
  }

  // ----- The account that is checked -----

  /** The operator for whom the event starts the watch over a vehicle. */
  function Starter(w: World, e: Event): OperatorId {
    match e
    case StartSession(_, op, _, _) => op
    case OpenSocket(_, id) => if id in w.roster.live then w.roster.live[id].operator else ""
    case _ => ""
  }

  /** The operator for whom the watch over v was last started. */
  function Account(ws: seq<World>, es: seq<Event>, i: nat, v: VehicleId): OperatorId
    requires |ws| == |es| + 1 && i <= |es|
    decreases i
  {
    if i == 0 then ""
    else if StartsDeadman(ws[i - 1], es[i - 1], v) then Starter(ws[i - 1], es[i - 1])
    else Account(ws, es, i - 1, v)
  }

  /** The account of the running loop, if one runs. */
  function Asked(x: Vehicle): Option<OperatorId> {
    if x.auth.running.Some? then Some(x.auth.running.value.account) else None
  }

  /** The effect starts the watch for this operator. */
  predicate StartsFor(x: Vehicle, f: Effect, op: OperatorId) {
    f == Taken(op) || (f == Resumed(op) && x.machine.system == SafeMode)
  }

  lemma FeltAccount(x: Vehicle, f: Effect)
    ensures forall op | StartsFor(x, f, op) :: Asked(Felt(x, f)) == Some(op)
    ensures !StartsWatch(x, f) && Asked(Felt(x, f)).Some? ==> Asked(Felt(x, f)) == Asked(x)
  {
  }

  lemma AskedStep(w: World, e: Event, v: VehicleId)
    requires Inv(w) && Enabled(w, e)
    ensures var x, y := Of(w.fleet, v), Of(Step(w, e).fleet, v);
            if StartsDeadman(w, e, v) then Asked(y) == Some(Starter(w, e))
            else Asked(y).Some? ==> Asked(y) == Asked(x)
  {
    StepSeen(w, e, v);
    WatchEffects(w, e, v);
    FeltAccount(Of(w.fleet, v), EffectOn(w, e, v));
    if StartsDeadman(w, e, v) {
      assert StartsFor(Of(w.fleet, v), EffectOn(w, e, v), Starter(w, e));
    }
  }

  /** v was handed over at step h, to another operator than the one the watch was started for; since
      then it was neither handed over nor was its watch started. */
  predicate HandedAwayAt(ws: seq<World>, es: seq<Event>, i: nat, v: VehicleId, h: nat)
    requires |ws| == |es| + 1 && i <= |es|
  {
    && h < i && HandedOver(ws[h], es[h], v) && es[h].op != Account(ws, es, h, v)
    && forall j | h < j < i :: !StartsDeadman(ws[j], es[j], v) && !HandedOver(ws[j], es[j], v)
  }

  /** The last handover of v since its watch was started went to another operator. */
  ghost predicate HandedAway(ws: seq<World>, es: seq<Event>, i: nat, v: VehicleId)
    requires |ws| == |es| + 1 && i <= |es|
  {
    exists h: nat :: HandedAwayAt(ws, es, i, v, h)
  }

  lemma HandedAwayStep(ws: seq<World>, es: seq<Event>, i: nat, v: VehicleId)
    requires |ws| == |es| + 1 && i < |es|
    ensures HandedAway(ws, es, i + 1, v) <==>
              if HandedOver(ws[i], es[i], v) then es[i].op != Account(ws, es, i, v)
              else HandedAway(ws, es, i, v) && !StartsDeadman(ws[i], es[i], v)
  {
    if HandedOver(ws[i], es[i], v) && es[i].op != Account(ws, es, i, v) {
      assert HandedAwayAt(ws, es, i + 1, v, i);
    } else if HandedAway(ws, es, i, v) && !StartsDeadman(ws[i], es[i], v) && !HandedOver(ws[i], es[i], v) {
      var h: nat :| HandedAwayAt(ws, es, i, v, h);
      assert HandedAwayAt(ws, es, i + 1, v, h);
    }
    if HandedAway(ws, es, i + 1, v) {
      var h: nat :| HandedAwayAt(ws, es, i + 1, v, h);
      assert h < i ==> HandedAwayAt(ws, es, i, v, h);
    }
  }

  lemma DrivenHasOperator(w: World, v: VehicleId)
    requires Inv(w) && Of(w.fleet, v).machine.Drivable()
    ensures OperatorOf(w.roster, v).Some?
  {
    OfIsSound(w, v);
    IndexAgreesWithScan(w.roster, v);
  }

  lemma StarterHasVehicle(w: World, e: Event, v: VehicleId)
    requires Inv(w) && StartsDeadman(w, e, v)
    ensures if e.StartSession? then StartsControl(w, e) && e.v == v && Starter(w, e) == e.op
            else OperatorOf(w.roster, v) == Some(Starter(w, e))
    ensures !HandedOver(w, e, v)
  {
    if e.OpenSocket? {
      ControllerOperator(w, e.id);
    }
  }

  lemma OperatorAlongRun(ws: seq<World>, es: seq<Event>, i: nat, v: VehicleId)
    requires IsRun(ws, es) && i < |es| && Of(ws[i + 1].fleet, v).machine.Drivable()
    ensures OperatorOf(ws[i + 1].roster, v).Some? && OperatorMoves(ws[i], es[i], v, ws[i + 1].roster)
  {
    RunKeepsInv(ws, es, i);
    RunKeepsInv(ws, es, i + 1);
    DrivenHasOperator(ws[i + 1], v);
    RosterAlongRun(ws, es, i);
    OperatorStep(ws[i], es[i], v);
  }

  /** How an event moves the operator of v. */
  predicate OperatorMoves(w: World, e: Event, v: VehicleId, after: Roster) {
    OperatorOf(after, v)
    == if StartsDeadman(w, e, v) then Some(Starter(w, e))
       else if HandedOver(w, e, v) then Some(e.op) else OperatorOf(w.roster, v)
  }

  lemma OperatorStep(w: World, e: Event, v: VehicleId)
    requires Inv(w) && Enabled(w, e) && OperatorOf(RosterAfter(w, e), v).Some?
    ensures OperatorMoves(w, e, v, RosterAfter(w, e))
  {
    OperatorAfter(w, e, v);
    if StartsDeadman(w, e, v) {
      StarterHasVehicle(w, e, v);
    }
  }

  lemma AskedAlongRun(ws: seq<World>, es: seq<Event>, i: nat, v: VehicleId)
    requires IsRun(ws, es) && i < |es|
    ensures var x, y := Of(ws[i].fleet, v), Of(ws[i + 1].fleet, v);
            if StartsDeadman(ws[i], es[i], v) then Asked(y) == Some(Starter(ws[i], es[i]))
            else Asked(y).Some? ==> Asked(y) == Asked(x)
  {
    assert Happens(ws, es, i);
    RunKeepsInv(ws, es, i);
    AskedStep(ws[i], es[i], v);
  }

  /** The running loop asks for the account the watch was started for; the operator is another one
      exactly when the vehicle was handed away. */
  lemma {:induction false} AccountFollowsStart(ws: seq<World>, es: seq<Event>, i: nat, v: VehicleId)
    requires IsRun(ws, es) && i <= |es| && Of(ws[i].fleet, v).machine.Drivable()
    ensures Asked(Of(ws[i].fleet, v)).Some? ==> Asked(Of(ws[i].fleet, v)) == Some(Account(ws, es, i, v))
    ensures OperatorOf(ws[i].roster, v) == Some(Account(ws, es, i, v)) <==> !HandedAway(ws, es, i, v)
  {
    if i > 0 {
      OperatorAlongRun(ws, es, i - 1, v);
      AskedAlongRun(ws, es, i - 1, v);
      HandedAwayStep(ws, es, i - 1, v);
      if !StartsDeadman(ws[i - 1], es[i - 1], v) {
        DeadmanAlongRun(ws, es, i - 1, v);
        AccountFollowsStart(ws, es, i - 1, v);
      }
    }
  }

  /** The account check asks for the account of the operator who has the vehicle. */
  predicate Checked(w: World, v: VehicleId) {
    Asked(Of(w.fleet, v)).Some? && Asked(Of(w.fleet, v)) == OperatorOf(w.roster, v)
  }

  /** In every run the operator of a drivable vehicle is checked exactly when, since the watch over the
      vehicle was last started, no controller's socket of an ended session closed late and the last
      handover, if any, did not go to another operator. */
  lemma CheckedExactly(ws: seq<World>, es: seq<Event>, i: nat, v: VehicleId)
    requires IsRun(ws, es) && i <= |es| && Of(ws[i].fleet, v).machine.Drivable()
    ensures Checked(ws[i], v) <==> !Unwatched(ws, es, i, v) && !HandedAway(ws, es, i, v)
  {
    AuthOffExactly(ws, es, i, v);
    AccountFollowsStart(ws, es, i, v);
  }

  // ----- The operator at the socket -----

  /** Socket k, open since before step h, saw its vehicle handed over to another operator than its own at
      h; since then the vehicle was not handed over and the socket not opened anew. */
  predicate OutdatedAt(ws: seq<World>, es: seq<Event>, i: nat, k: SocketId, h: nat)
    requires |ws| == |es| + 1 && i <= |es|
  {
    && h < i && k in ws[h].sockets
    && var s := ws[h].sockets[k].session;
       && HandedOver(ws[h], es[h], s.vehicle) && es[h].op != s.operator
       && forall j | h < j < i :: !HandedOver(ws[j], es[j], s.vehicle) && !(es[j].OpenSocket? && es[j].socket == k)
  }

  /** The last handover of the socket's vehicle since the socket opened went to another operator. */
  ghost predicate Outdated(ws: seq<World>, es: seq<Event>, i: nat, k: SocketId)
    requires |ws| == |es| + 1 && i <= |es|
  {
    exists h: nat :: OutdatedAt(ws, es, i, k, h)
  }

  /** Socket k was opened at step i or is the socket it was before. */
  lemma SocketStep(w: World, e: Event, k: SocketId)
    requires Enabled(w, e) && k in Step(w, e).sockets
    ensures if e.OpenSocket? && e.socket == k
            then e.id in w.roster.live && Step(w, e).sockets[k].session == w.roster.live[e.id]
            else k in w.sockets && Step(w, e).sockets[k] == w.sockets[k]
  {
  }

  lemma SocketAlongRun(ws: seq<World>, es: seq<Event>, i: nat, k: SocketId)
    requires IsRun(ws, es) && i < |es| && k in ws[i + 1].sockets
    ensures if es[i].OpenSocket? && es[i].socket == k
            then && es[i].id in ws[i].roster.live && ws[i + 1].sockets[k].session == ws[i].roster.live[es[i].id]
                 && ws[i + 1].roster == ws[i].roster
            else k in ws[i].sockets && ws[i + 1].sockets[k] == ws[i].sockets[k]
  {
    assert Happens(ws, es, i);
    SocketStep(ws[i], es[i], k);
    RosterStep(ws[i], es[i]);
  }

  lemma OutdatedStep(ws: seq<World>, es: seq<Event>, i: nat, k: SocketId)
    requires |ws| == |es| + 1 && i < |es| && k in ws[i].sockets && !(es[i].OpenSocket? && es[i].socket == k)
    requires forall h | 0 <= h < i && OutdatedAt(ws, es, i, k, h) :: ws[h].sockets[k] == ws[i].sockets[k]
    ensures var s := ws[i].sockets[k].session;
            Outdated(ws, es, i + 1, k) <==>
              if HandedOver(ws[i], es[i], s.vehicle) then es[i].op != s.operator else Outdated(ws, es, i, k)
  {
    var s := ws[i].sockets[k].session;
    if HandedOver(ws[i], es[i], s.vehicle) {
      if es[i].op != s.operator {
        assert OutdatedAt(ws, es, i + 1, k, i);
      }
    } else if Outdated(ws, es, i, k) {
      var h: nat :| OutdatedAt(ws, es, i, k, h);
      assert OutdatedAt(ws, es, i + 1, k, h);
    }
    if Outdated(ws, es, i + 1, k) {
      var h: nat :| OutdatedAt(ws, es, i + 1, k, h);
      assert h < i ==> OutdatedAt(ws, es, i, k, h);
    }
  }

  /** A socket that was not opened anew since h is the one it was at h. */
  lemma {:induction false} SameSocketSince(ws: seq<World>, es: seq<Event>, h: nat, i: nat, k: SocketId)
    requires IsRun(ws, es) && h <= i <= |es| && k in ws[i].sockets
    requires forall j | h <= j < i :: !(es[j].OpenSocket? && es[j].socket == k)
    ensures k in ws[h].sockets && ws[h].sockets[k] == ws[i].sockets[k]
    decreases i
  {
    if h < i {
      SocketAlongRun(ws, es, i - 1, k);
      SameSocketSince(ws, es, h, i - 1, k);
    }
  }

  lemma SessionOperatorAlongRun(ws: seq<World>, es: seq<Event>, i: nat, k: SocketId)
    requires IsRun(ws, es) && i < |es| && k in ws[i].sockets && k in ws[i + 1].sockets
    requires ws[i + 1].sockets[k] == ws[i].sockets[k] && ws[i].sockets[k].session.id in ws[i + 1].roster.live
    requires ws[i].sockets[k].session.role == Controller
    ensures var s := ws[i].sockets[k].session;
            && s.id in ws[i].roster.live
            && ws[i + 1].roster.live[s.id].operator
               == if HandedOver(ws[i], es[i], s.vehicle) then es[i].op else ws[i].roster.live[s.id].operator
  {
    var s := ws[i].sockets[k].session;
    RosterAlongRun(ws, es, i);
    RunKeepsInv(ws, es, i);
    RunKeepsInv(ws, es, i + 1);
    assert SoundSocket(ws[i], ws[i].sockets[k]) && SoundSocket(ws[i + 1], ws[i + 1].sockets[k]);
    IssuedStaysIssued(ws[i], es[i], s.id);
    ControllerOperator(ws[i], s.id);
    ControllerOperator(ws[i + 1], s.id);
    OperatorAfter(ws[i], es[i], s.vehicle);
    TakenVehicleIsTaken(ws[i], es[i], s.id);
  }

  /** No session comes to life again. */
  lemma IssuedStaysIssued(w: World, e: Event, id: SessionId)
    requires Inv(w) && Enabled(w, e) && id in w.issued && id in RosterAfter(w, e).live
    ensures id in w.roster.live
  {
  }

  lemma ControllerOperator(w: World, id: SessionId)
    requires Inv(w) && id in w.roster.live && w.roster.live[id].role == Controller
    ensures OperatorOf(w.roster, w.roster.live[id].vehicle) == Some(w.roster.live[id].operator)
  {
  }

  lemma TakenVehicleIsTaken(w: World, e: Event, id: SessionId)
    requires Inv(w) && id in w.roster.live && w.roster.live[id].role == Controller
    ensures !(StartsControl(w, e) && e.v == w.roster.live[id].vehicle)
  {
  }

  /** The operator of a live controller's session is its socket's operator exactly when the vehicle was
      not handed to another operator since the socket opened. */
  lemma {:induction false} SocketOperatorExactly(ws: seq<World>, es: seq<Event>, i: nat, k: SocketId)
    requires IsRun(ws, es) && i <= |es| && k in ws[i].sockets
    requires ws[i].sockets[k].session.role == Controller && ws[i].sockets[k].session.id in ws[i].roster.live
    ensures var s := ws[i].sockets[k].session;
            ws[i].roster.live[s.id].operator == s.operator <==> !Outdated(ws, es, i, k)
  {
    if i > 0 {
      SocketAlongRun(ws, es, i - 1, k);
      if es[i - 1].OpenSocket? && es[i - 1].socket == k {
        RunKeepsInv(ws, es, i - 1);
        assert !Outdated(ws, es, i, k);
      } else {
        SessionOperatorAlongRun(ws, es, i - 1, k);
        OutdatedAlongRun(ws, es, i - 1, k);
        SocketOperatorExactly(ws, es, i - 1, k);
      }
    }
  }

  lemma OutdatedAlongRun(ws: seq<World>, es: seq<Event>, i: nat, k: SocketId)
    requires IsRun(ws, es) && i < |es| && k in ws[i].sockets && !(es[i].OpenSocket? && es[i].socket == k)
    ensures var s := ws[i].sockets[k].session;
            Outdated(ws, es, i + 1, k) <==>
              if HandedOver(ws[i], es[i], s.vehicle) then es[i].op != s.operator else Outdated(ws, es, i, k)
  {
    forall h | 0 <= h < i && OutdatedAt(ws, es, i, k, h)
      ensures ws[h].sockets[k] == ws[i].sockets[k]
    {
      SameSocketSince(ws, es, h + 1, i, k);
      SocketAlongRun(ws, es, h, k);
    }
    OutdatedStep(ws, es, i, k);
  }

  /** In every run a forwarded command comes over a socket of the session's current operator exactly when
      the last handover of the vehicle since the socket opened, if any, did not go to another operator. */
  lemma ForwardedByOperatorExactly(ws: seq<World>, es: seq<Event>, i: nat)
    requires IsRun(ws, es) && i < |es| && Forwarded(ws[i], es[i]).Some?
    ensures es[i].Receive? && es[i].socket in ws[i].sockets
    ensures var f := Forwarded(ws[i], es[i]).value;
            && f.session in ws[i].roster.live
            && (ws[i].roster.live[f.session].operator == ws[i].sockets[es[i].socket].session.operator
                <==> !Outdated(ws, es, i, es[i].socket))
  {
    RunKeepsInv(ws, es, i);
    ForwardedFrom(ws[i], es[i]);
    assert SoundSocket(ws[i], ws[i].sockets[es[i].socket]);
    SocketOperatorExactly(ws, es, i, es[i].socket);
  }
}
