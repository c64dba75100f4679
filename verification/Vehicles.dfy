/** The safety-critical state of each vehicle, and the registry that creates it on first access.
    Contexts share no machine and no watchdog. */
module Vehicles {
  import opened Common
  import opened StateMachine
  import opened Watchdogs
  import opened Polling

  /** The value of a vehicle's context. */
  datatype Vehicle = Vehicle(
    machine: Layers,
    deadman: Deadman,
    ackTimer: Timer,
    vehicleAck: VehicleAck,
    auth: Auth,
    telemetry: TelemetryPoller)

  const NEW_VEHICLE :=
    Vehicle(INITIAL, NEW_DEADMAN, NoTimer, NEW_VEHICLE_ACK, NEW_AUTH, NEW_POLLER)

  type Fleet = map<VehicleId, Vehicle>

  /** The context of v: a new one if v was never seen. */
  function Of(fleet: Fleet, v: VehicleId): Vehicle {
    if v in fleet then fleet[v] else NEW_VEHICLE
  }

  lemma Overwritten(fleet: Fleet, v: VehicleId, x: Vehicle, y: Vehicle)
    ensures fleet[v := x][v := y] == fleet[v := y]
  {
  }

  class VehicleContext {
    const sm: Machine
    const deadman: DeadmanWatchdog
    const ackTimeout: AckTimeoutWatcher
    const vehicleAck: VehicleAckWatchdog
    const auth: AuthWatchdog
    const telemetry: TelemetryWatchdog
    ghost const parts: set<object>

    /** Every watchdog acts on this context's own machine. */
    ghost predicate Wired() {
      && deadman.sm == sm && ackTimeout.sm == sm && vehicleAck.sm == sm && auth.sm == sm && telemetry.sm == sm
      && sm in parts && deadman in parts && ackTimeout in parts
      && vehicleAck in parts && auth in parts && telemetry in parts
    }

    ghost function View(): Vehicle
      reads sm, deadman, ackTimeout, vehicleAck, auth, telemetry
    {
      Vehicle(sm.View(), deadman.View(), ackTimeout.View(), vehicleAck.View(), auth.View(), telemetry.View())
    }

    constructor ()
      ensures Wired() && fresh(parts) && View() == NEW_VEHICLE
    {
      var machine := new Machine();
      sm := machine;
      deadman := new DeadmanWatchdog(machine);
      ackTimeout := new AckTimeoutWatcher(machine);
      vehicleAck := new VehicleAckWatchdog(machine);
      auth := new AuthWatchdog(machine);
      telemetry := new TelemetryWatchdog(machine);
      parts := {sm, deadman, ackTimeout, vehicleAck, auth, telemetry};
    }

    twostate lemma Unchanged()
      requires Wired() && forall o | o in parts :: unchanged(o)
      ensures View() == old(View())
    {
    }
  }

  ghost predicate Owns(footprint: set<object>, contexts: map<VehicleId, VehicleContext>) {
    forall v | v in contexts :: contexts[v].Wired() && contexts[v].parts <= footprint
  }

  ghost function Values(footprint: set<object>, contexts: map<VehicleId, VehicleContext>): Fleet
    requires Owns(footprint, contexts)
    reads footprint
  {
    map v | v in contexts :: contexts[v].View()
  }

  lemma ValuesWith(footprint: set<object>, contexts: map<VehicleId, VehicleContext>, v: VehicleId, vc: VehicleContext)
    requires Owns(footprint, contexts) && vc.Wired()
    ensures Owns(footprint + vc.parts, contexts[v := vc])
    ensures Values(footprint + vc.parts, contexts[v := vc]) == Values(footprint, contexts)[v := vc.View()]
  {
  }

  class Registry {
    var contexts: map<VehicleId, VehicleContext>
    ghost var footprint: set<object>

    /** Each context is wired to itself. */
    ghost predicate Owned()
      reads this
    {
      this !in footprint && Owns(footprint, contexts)
    }

    /** No two contexts share a machine or a watchdog. */
    ghost predicate Separate()
      reads this
    {
      && Owned()
      && (forall u, v | u in contexts && v in contexts && u != v :: contexts[u].parts !! contexts[v].parts)
    }

    ghost function View(): Fleet
      requires Owned()
      reads this, footprint
    {
      Values(footprint, contexts)
    }

    constructor ()
      ensures Separate() && View() == map[] && footprint == {}
    {
      contexts := map[];
      footprint := {};
    }

    /** The context of v, created on first access and kept for good; no other context changes. */
    method Get(v: VehicleId) returns (vc: VehicleContext)
      requires Separate()
      modifies this
      ensures Separate() && v in contexts && contexts[v] == vc
      ensures vc.Wired() && vc.parts <= footprint && vc.View() == Of(old(View()), v)
      ensures contexts == old(contexts)[v := vc]
      ensures fresh(footprint - old(footprint)) && old(footprint) <= footprint
      ensures View() == old(View())[v := Of(old(View()), v)]
    {
      if v in contexts {
        assert contexts == contexts[v := contexts[v]];
        return contexts[v];
      }
      vc := new VehicleContext();
      Same();
      Store(v, vc);
    }

    method Store(v: VehicleId, vc: VehicleContext)
      requires Separate() && v !in contexts
      requires vc.Wired() && vc.parts !! footprint && this !in vc.parts
      modifies this
      ensures Separate() && contexts == old(contexts)[v := vc] && footprint == old(footprint) + vc.parts
      ensures View() == old(View())[v := vc.View()]
    {
      ValuesWith(footprint, contexts, v, vc);
      contexts, footprint := contexts[v := vc], footprint + vc.parts;
      StillSeparate(v, vc);
    }

    twostate lemma StillSeparate(v: VehicleId, new vc: VehicleContext)
      requires old(Separate()) && v !in old(contexts)
      requires contexts == old(contexts)[v := vc] && footprint == old(footprint) + vc.parts
      requires vc.Wired() && vc.parts !! old(footprint) && this !in vc.parts
      ensures Separate()
    {
    }

    /** If no part of any context changed since `old`, the fleet is the same. */
    twostate lemma Same()
      requires old(Separate()) && unchanged(this) && forall o | o in footprint :: unchanged(o)
      ensures Separate() && View() == old(View())
    {
      forall u | u in contexts
        ensures contexts[u].View() == old(contexts[u].View())
      {
        contexts[u].Unchanged();
      }
    }

    /** If only parts of v's context changed since `old`, only v's entry changed. */
    twostate lemma OnlyChanged(v: VehicleId)
      requires old(Separate()) && unchanged(this) && v in contexts
      requires forall o | o in footprint && o !in contexts[v].parts :: unchanged(o)
      ensures Separate() && View() == old(View())[v := contexts[v].View()]
    {
      forall u | u in contexts && u != v
        ensures contexts[u].View() == old(contexts[u].View())
      {
        contexts[u].Unchanged();
      }
    }
  }
}
