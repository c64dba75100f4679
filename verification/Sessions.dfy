/** The session manager: all live sessions, and an index from each controlled vehicle to its
    controlling session. The index must agree with a scan of the sessions. */
module Sessions {
  import opened Common

  type SessionId = string

  datatype Role = Controller | Observer

  datatype Session = Session(id: SessionId, vehicle: VehicleId, operator: OperatorId, role: Role)

  datatype Roster = Roster(live: map<SessionId, Session>, controller: map<VehicleId, SessionId>) {

    /** The role a new session for v gets, and the index with a stale lock dropped. */
    function RoleFor(v: VehicleId): Role {
      if v in controller && controller[v] in live then Observer else Controller
    }

    function Started(v: VehicleId, op: OperatorId, id: SessionId): Roster {
      var s := Session(id, v, op, RoleFor(v));
      Roster(live[id := s], if s.role == Controller then controller[v := id] else controller)
    }

    function Released(id: SessionId): Roster {
      if id !in live then this
      else
        var s := live[id];
        Roster(live - {id},
               if s.role == Controller && s.vehicle in controller && controller[s.vehicle] == id
               then controller - {s.vehicle} else controller)
    }

    /** The controller of v, if v has one. */
    function Controlling(v: VehicleId): Option<Session> {
      if v in controller && controller[v] in live then Some(live[controller[v]]) else None
    }

    /** The controller of v handed to another operator. */
    function Reassigned(v: VehicleId, op: OperatorId, role: Role): Roster {
      if v in controller && controller[v] in live
      then this.(live := live[controller[v] := live[controller[v]].(operator := op, role := role)])
      else this
    }

    function Vehicles(): set<VehicleId> {
      set id | id in live :: live[id].vehicle
    }

    /** The index agrees with the sessions: every entry is a live controller of that vehicle, and
        every live controller is the entry of its vehicle. */
    ghost predicate Consistent() {
      && (forall id | id in live :: live[id].id == id)
      && (forall v | v in controller ::
            controller[v] in live && live[controller[v]].vehicle == v && live[controller[v]].role == Controller)
      && (forall id | id in live && live[id].role == Controller ::
            live[id].vehicle in controller && controller[live[id].vehicle] == id)
    }
  }

  const EMPTY_ROSTER := Roster(map[], map[])

  /** The index names the only controller: at most one per vehicle, and one exactly when indexed. */
  lemma IndexAgreesWithScan(r: Roster, v: VehicleId)
    requires r.Consistent()
    ensures v in r.controller <==> exists id :: id in r.live && r.live[id].vehicle == v && r.live[id].role == Controller
    ensures forall id, id' | id in r.live && id' in r.live && r.live[id].role == r.live[id'].role == Controller
              && r.live[id].vehicle == r.live[id'].vehicle :: id == id'
    ensures v in r.controller <==> r.Controlling(v).Some?
  {
    if v in r.controller {
      assert r.controller[v] in r.live;
    }
  }

  /** The stale-lock branch of a session start is dead: the new session observes exactly when the
      vehicle is in the index. */
  lemma StartKeepsConsistent(r: Roster, v: VehicleId, op: OperatorId, id: SessionId)
    requires r.Consistent() && id !in r.live
    ensures r.Started(v, op, id).Consistent()
    ensures r.RoleFor(v) == Observer <==> v in r.controller
    ensures r.Started(v, op, id).controller.Keys == r.controller.Keys + {v}
  {
    var after := r.Started(v, op, id);
    forall u | u in after.controller
      ensures after.controller[u] in after.live
      ensures after.live[after.controller[u]].vehicle == u && after.live[after.controller[u]].role == Controller
    {
      if u in r.controller {
        assert r.controller[u] != id;
      }
    }
  }

  /** A start adds one session: an observer of a vehicle that has a controller, and else its controller. */
  lemma StartExactly(r: Roster, v: VehicleId, op: OperatorId, id: SessionId)
    requires r.Consistent()
    ensures var taken, after := v in r.controller, r.Started(v, op, id);
            && after.live == r.live[id := Session(id, v, op, if taken then Observer else Controller)]
            && after.controller == if taken then r.controller else r.controller[v := id]
  {
  }

  lemma ReleaseKeepsConsistent(r: Roster, id: SessionId)
    requires r.Consistent()
    ensures r.Released(id).Consistent()
    ensures r.Released(id).controller
            == if id in r.live && r.live[id].role == Controller then r.controller - {r.live[id].vehicle}
               else r.controller
  {
  }

  /** A release ends exactly that session, and frees the vehicle that it controlled. */
  lemma ReleaseExactly(r: Roster, id: SessionId)
    requires r.Consistent()
    ensures r.Released(id).live == r.live - {id}
    ensures r.Released(id).controller == map v | v in r.controller && r.controller[v] != id :: r.controller[v]
  {
    ReleaseKeepsConsistent(r, id);
  }

  lemma ReassignKeepsConsistent(r: Roster, v: VehicleId, op: OperatorId)
    requires r.Consistent()
    ensures r.Reassigned(v, op, Controller).Consistent()
  {
  }

  class Manager {
    var sessions: map<SessionId, Session>
    var vehicleController: map<VehicleId, SessionId>

    ghost function View(): Roster
      reads this
    {
      Roster(sessions, vehicleController)
    }

    constructor ()
      ensures View() == EMPTY_ROSTER
    {
      sessions, vehicleController := map[], map[];
    }

    method StartSession(v: VehicleId, op: OperatorId, id: SessionId) returns (s: Session)
      modifies this
      ensures View() == old(View()).Started(v, op, id)
      ensures s == Session(id, v, op, old(View()).RoleFor(v))
    {
      var role := Controller;
      if v in vehicleController {
        if vehicleController[v] in sessions {
          role := Observer;
        } else {
          vehicleController := vehicleController - {v};
        }
      }
      s := Session(id, v, op, role);
      sessions := sessions[id := s];
      if role == Controller {
        vehicleController := vehicleController[v := id];
      }
    }

    method GetSession(id: SessionId) returns (s: Option<Session>)
      ensures s == if id in sessions then Some(sessions[id]) else None
    {
      s := if id in sessions then Some(sessions[id]) else None;
    }

    /** Whether some live session controls a vehicle for this operator; found by a scan. */
    method HasActiveOperatorSession(op: OperatorId) returns (found: bool)
      ensures found <==> exists id :: id in sessions && sessions[id].operator == op && sessions[id].role == Controller
    {
      var rest := sessions.Keys;
      while rest != {}
        invariant rest <= sessions.Keys
        invariant forall id | id in sessions.Keys - rest ::
                    sessions[id].operator != op || sessions[id].role != Controller
        decreases |rest|
      {
        var id :| id in rest;
        if sessions[id].operator == op && sessions[id].role == Controller {
          return true;
        }
        rest := rest - {id};
      }
      return false;
    }

    method IsVehicleLocked(v: VehicleId) returns (locked: bool)
      ensures locked <==> View().Controlling(v).Some?
    {
      if v !in vehicleController {
        return false;
      }
      locked := vehicleController[v] in sessions;
    }

    method GetSessionByVehicle(v: VehicleId) returns (s: Option<Session>)
      ensures s == View().Controlling(v)
    {
      if v !in vehicleController || vehicleController[v] !in sessions {
        return None;
      }
      s := Some(sessions[vehicleController[v]]);
    }

    method ReleaseSession(id: SessionId)
      modifies this
      ensures View() == old(View()).Released(id)
    {
      if id !in sessions {
        return;
      }
      var s := sessions[id];
      if s.role == Controller && s.vehicle in vehicleController && vehicleController[s.vehicle] == id {
        vehicleController := vehicleController - {s.vehicle};
      }
      sessions := sessions - {id};
    }

    /** Updates the first controller of v met in the scan. With a consistent index the result does
        not depend on the order of the scan. */
    method UpdateOperator(v: VehicleId, op: OperatorId, role: Role)
      requires View().Consistent()
      modifies this
      ensures View() == old(View()).Reassigned(v, op, role)
    {
      var rest := sessions.Keys;
      while rest != {}
        invariant rest <= sessions.Keys && View() == old(View())
        invariant forall id | id in sessions.Keys - rest :: sessions[id].vehicle != v || sessions[id].role != Controller
        decreases |rest|
      {
        var id :| id in rest;
        var s := sessions[id];
        if s.vehicle == v && s.role == Controller {
          sessions := sessions[id := s.(operator := op, role := role)];
          return;
        }
        rest := rest - {id};
      }
    }

    method EndSession()
      modifies this
      ensures View() == EMPTY_ROSTER
    {
      sessions, vehicleController := map[], map[];
    }

    /** Every vehicle with a live session, each exactly once, in the order of the scan. */
    method ActiveVehicleIds() returns (out: seq<VehicleId>)
      ensures forall i, j | 0 <= i < j < |out| :: out[i] != out[j]
      ensures (set v | v in out) == View().Vehicles()
      ensures forall v :: v in out <==> exists id :: id in sessions && sessions[id].vehicle == v
    {
      out := [];
      var seen: set<VehicleId> := {};
      var rest := sessions.Keys;
      while rest != {}
        invariant rest <= sessions.Keys
        invariant seen == (set v | v in out)
        invariant forall i, j | 0 <= i < j < |out| :: out[i] != out[j]
        invariant seen == set id | id in sessions.Keys - rest :: sessions[id].vehicle
        decreases |rest|
      {
        var id :| id in rest;
        var v := sessions[id].vehicle;
        ghost var before := seen;
        if v !in seen {
          seen := seen + {v};
          out := out + [v];
        }
        rest := rest - {id};
        assert seen == before + {v};
      }
      assert sessions.Keys - {} == sessions.Keys;
      assert forall v :: v in out <==> v in View().Vehicles() by {
        assert forall v :: v in out <==> v in seen;
      }
    }
  }
}
