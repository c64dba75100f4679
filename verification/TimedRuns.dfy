/** Whole runs with a clock: the events carry times, and a timer that has run out fires before anything
    else happens. In such runs the timers do what they are for: nobody drives on a stale hold, and a
    vehicle that falls silent is stopped once it gets no more commands. */
module TimedRuns {
  import opened Common
  import opened StateMachine
  import opened Watchdogs
  import opened Sessions
  import opened Vehicles
  import opened Protocol
  import opened ProtocolSafety
  import opened ProtocolRuns
  import opened Effects
  import opened WatchdogCoverage

  // ----- Holds -----

  /** The event is a dead-man hold that reaches the switch of v. */
  predicate Holds(w: World, e: Event, v: VehicleId) {
    && e.Receive? && e.command == DeadmanHold && e.socket in w.sockets
    && var s := w.sockets[e.socket].session;
       s.vehicle == v && s.id in w.roster.live && Admits(w, e.now) && !Silenced(Of(w.fleet, v).machine)
  }

  /** How one event moves the switch itself. */
  predicate Moves(d: Deadman, w: World, e: Event, v: VehicleId, after: Deadman) {
    if StartsDeadman(w, e, v) then after == d.Started()
    else if Holds(w, e, v) then after == d.Held(e.now)
    else after == d || after == d.Halted()
  }

  lemma FeltSwitch(x: Vehicle, f: Effect)
    ensures var after := Felt(x, f).deadman;
            if StartsWatch(x, f) then after == x.deadman.Started()
            else if f.Told? && f.command == DeadmanHold && f.accepted && !Silenced(x.machine)
            then after == x.deadman.Held(f.now)
            else after == x.deadman || after == x.deadman.Halted()
  {
  }

  lemma SwitchSeen(w: World, e: Event, v: VehicleId)
    ensures Moves(Of(w.fleet, v).deadman, w, e, v, Seen(w, e, v).deadman)
  {
    WatchEffects(w, e, v);
    FeltSwitch(Of(w.fleet, v), EffectOn(w, e, v));
  }

  lemma SwitchStep(ws: seq<World>, es: seq<Event>, i: nat, v: VehicleId)
    requires IsRun(ws, es) && i < |es|
    ensures Moves(Of(ws[i].fleet, v).deadman, ws[i], es[i], v, Of(ws[i + 1].fleet, v).deadman)
  {
    assert Happens(ws, es, i);
    RunKeepsInv(ws, es, i);
    StepSeen(ws[i], es[i], v);
    SwitchSeen(ws[i], es[i], v);
  }

  /** Event k holds the switch of v, and the switch was not started since. */
  predicate HeldSince(ws: seq<World>, es: seq<Event>, i: nat, v: VehicleId, k: nat)
    requires |ws| == |es| + 1 && i <= |es|
  {
    && k < i && Holds(ws[k], es[k], v)
    && forall j | k < j < i :: !StartsDeadman(ws[j], es[j], v)
  }

  /** v was held since its switch was last started. */
  ghost predicate Held(ws: seq<World>, es: seq<Event>, i: nat, v: VehicleId)
    requires |ws| == |es| + 1 && i <= |es|
  {
    exists k: nat :: HeldSince(ws, es, i, v, k)
  }

  lemma HeldStep(ws: seq<World>, es: seq<Event>, i: nat, v: VehicleId)
    requires |ws| == |es| + 1 && i < |es|
    ensures Held(ws, es, i + 1, v) <==>
              Holds(ws[i], es[i], v) || (Held(ws, es, i, v) && !StartsDeadman(ws[i], es[i], v))
  {
    if Holds(ws[i], es[i], v) {
      assert HeldSince(ws, es, i + 1, v, i);
    } else if Held(ws, es, i, v) && !StartsDeadman(ws[i], es[i], v) {
      var k: nat :| HeldSince(ws, es, i, v, k);
      assert HeldSince(ws, es, i + 1, v, k);
    }
    if Held(ws, es, i + 1, v) {
      var k: nat :| HeldSince(ws, es, i + 1, v, k);
      assert k < i ==> HeldSince(ws, es, i, v, k);
    }
  }

  /** Event k is the last hold of v before i, and set this deadline. */
  predicate SetBy(ws: seq<World>, es: seq<Event>, i: nat, v: VehicleId, k: nat, deadline: Time)
    requires |ws| == |es| + 1 && i <= |es|
  {
    && HeldSince(ws, es, i, v, k) && deadline == es[k].now + DEADMAN_TIMEOUT
    && forall j | k < j < i :: !Holds(ws[j], es[j], v)
  }

  ghost predicate DeadlineOfLastHold(ws: seq<World>, es: seq<Event>, i: nat, v: VehicleId, deadline: Time)
    requires |ws| == |es| + 1 && i <= |es|
  {
    exists k: nat :: SetBy(ws, es, i, v, k, deadline)
  }

  lemma DeadlineStep(ws: seq<World>, es: seq<Event>, i: nat, v: VehicleId, deadline: Time)
    requires |ws| == |es| + 1 && i < |es|
    requires if Holds(ws[i], es[i], v) then deadline == es[i].now + DEADMAN_TIMEOUT
             else DeadlineOfLastHold(ws, es, i, v, deadline) && !StartsDeadman(ws[i], es[i], v)
    ensures DeadlineOfLastHold(ws, es, i + 1, v, deadline)
  {
    if Holds(ws[i], es[i], v) {
      assert SetBy(ws, es, i + 1, v, i, deadline);
    } else {
      var k: nat :| SetBy(ws, es, i, v, k, deadline);
      assert SetBy(ws, es, i + 1, v, k, deadline);
    }
  }

  /** In every run the switch of every vehicle counts down exactly when it is running and was held since
      it was started, and then to the timeout after the last hold. */
  lemma {:induction false} SwitchFollowsHolds(ws: seq<World>, es: seq<Event>, i: nat, v: VehicleId)
    requires IsRun(ws, es) && i <= |es|
    ensures var d := Of(ws[i].fleet, v).deadman;
            && d.WellFormed()
            && (!d.stopped ==> (d.armed <==> Held(ws, es, i, v)))
            && (d.timer.Running? ==> DeadlineOfLastHold(ws, es, i, v, d.timer.deadline))
  {
    if i > 0 {
      SwitchFollowsHolds(ws, es, i - 1, v);
      SwitchStep(ws, es, i - 1, v);
      HeldStep(ws, es, i - 1, v);
      var d := Of(ws[i].fleet, v).deadman;
      if d.timer.Running? {
        DeadlineStep(ws, es, i - 1, v, d.timer.deadline);
      }
    }
  }

  // ----- Forwards and ACKs -----

  predicate Forwards(w: World, e: Event, v: VehicleId) {
    Forwarded(w, e).Some? && Forwarded(w, e).value.v == v
  }

  /** How one event moves the vehicle-ACK watchdog. */
  predicate MovesAck(a: VehicleAck, w: World, e: Event, v: VehicleId, after: VehicleAck) {
    if StartsControl(w, e) && e.v == v then after == a.Started()
    else if Forwards(w, e, v) then after == a.Forwarded(e.now)
    else if e == At(v, VehicleAcks) then after == a.Acknowledged()
    else after == a || after == a.Halted()
  }

  /** The effect is a command that reaches the vehicle. */
  predicate Sends(x: Vehicle, f: Effect) {
    f.Told? && f.command.Movement() && f.accepted && f.reaches && !Silenced(x.machine)
  }

  lemma FeltForward(x: Vehicle, f: Effect)
    requires f.Told? && f.reaches ==> f.command.Movement()
    ensures var after := Felt(x, f).vehicleAck;
            if f.Taken? then after == x.vehicleAck.Started()
            else if Sends(x, f) then after == x.vehicleAck.Forwarded(f.now)
            else if f == Met(VehicleAcks) then after == x.vehicleAck.Acknowledged()
            else after == x.vehicleAck || after == x.vehicleAck.Halted()
  {
  }

  lemma ForwardEffects(w: World, e: Event, v: VehicleId)
    requires Inv(w)
    ensures var x, f := Of(w.fleet, v), EffectOn(w, e, v);
            && (f.Told? && f.reaches ==> f.command.Movement())
            && (f.Told? ==> e.Receive? && f.now == e.now)
            && (f.Taken? <==> StartsControl(w, e) && e.v == v)
            && (f == Met(VehicleAcks) <==> e == At(v, VehicleAcks))
            && (Sends(x, f) <==> Forwards(w, e, v))
  {
    if e.Receive? && e.socket in w.sockets {
      assert SoundSocket(w, w.sockets[e.socket]);
    }
  }

  lemma AckStep(ws: seq<World>, es: seq<Event>, i: nat, v: VehicleId)
    requires IsRun(ws, es) && i < |es|
    ensures Forwards(ws[i], es[i], v) ==> es[i].Receive?
    ensures MovesAck(Of(ws[i].fleet, v).vehicleAck, ws[i], es[i], v, Of(ws[i + 1].fleet, v).vehicleAck)
  {
    assert Happens(ws, es, i);
    RunKeepsInv(ws, es, i);
    StepSeen(ws[i], es[i], v);
    ForwardEffects(ws[i], es[i], v);
    FeltForward(Of(ws[i].fleet, v), EffectOn(ws[i], es[i], v));
  }

  predicate Settles(w: World, e: Event, v: VehicleId) {
    e == At(v, VehicleAcks) || (StartsControl(w, e) && e.v == v)
  }

  /** Event k forwards a command to v, and v neither acknowledged since nor did a session start. */
  predicate AwaitedSince(ws: seq<World>, es: seq<Event>, i: nat, v: VehicleId, k: nat)
    requires |ws| == |es| + 1 && i <= |es|
  {
    && k < i && Forwards(ws[k], es[k], v)
    && forall j | k < j < i :: !Settles(ws[j], es[j], v)
  }

  /** A command was forwarded to v since its last ACK. */
  ghost predicate Awaited(ws: seq<World>, es: seq<Event>, i: nat, v: VehicleId)
    requires |ws| == |es| + 1 && i <= |es|
  {
    exists k: nat :: AwaitedSince(ws, es, i, v, k)
  }

  lemma AwaitedStep(ws: seq<World>, es: seq<Event>, i: nat, v: VehicleId)
    requires |ws| == |es| + 1 && i < |es|
    ensures Awaited(ws, es, i + 1, v) <==>
              Forwards(ws[i], es[i], v) || (Awaited(ws, es, i, v) && !Settles(ws[i], es[i], v))
  {
    if Forwards(ws[i], es[i], v) {
      assert AwaitedSince(ws, es, i + 1, v, i);
    } else if Awaited(ws, es, i, v) && !Settles(ws[i], es[i], v) {
      var k: nat :| AwaitedSince(ws, es, i, v, k);
      assert AwaitedSince(ws, es, i + 1, v, k);
    }
    if Awaited(ws, es, i + 1, v) {
      var k: nat :| AwaitedSince(ws, es, i + 1, v, k);
      assert k < i ==> AwaitedSince(ws, es, i, v, k);
    }
  }

  /** Event k is the last command forwarded to v before i, and set this deadline. */
  predicate SentBy(ws: seq<World>, es: seq<Event>, i: nat, v: VehicleId, k: nat, deadline: Time)
    requires |ws| == |es| + 1 && i <= |es|
  {
    && AwaitedSince(ws, es, i, v, k) && es[k].Receive? && deadline == es[k].now + VEHICLE_ACK_TIMEOUT
    && forall j | k < j < i :: !Forwards(ws[j], es[j], v)
  }

  ghost predicate DeadlineOfLastForward(ws: seq<World>, es: seq<Event>, i: nat, v: VehicleId, deadline: Time)
    requires |ws| == |es| + 1 && i <= |es|
  {
    exists k: nat :: SentBy(ws, es, i, v, k, deadline)
  }

  lemma SentStep(ws: seq<World>, es: seq<Event>, i: nat, v: VehicleId, deadline: Time)
    requires |ws| == |es| + 1 && i < |es|
    requires if Forwards(ws[i], es[i], v) then es[i].Receive? && deadline == es[i].now + VEHICLE_ACK_TIMEOUT
             else DeadlineOfLastForward(ws, es, i, v, deadline) && !Settles(ws[i], es[i], v)
    ensures DeadlineOfLastForward(ws, es, i + 1, v, deadline)
  {
    if Forwards(ws[i], es[i], v) {
      assert SentBy(ws, es, i + 1, v, i, deadline);
    } else {
      var k: nat :| SentBy(ws, es, i, v, k, deadline);
      assert SentBy(ws, es, i + 1, v, k, deadline);
    }
  }

  /** In every run the vehicle-ACK watchdog of every vehicle counts down exactly when it is running and a
      command was forwarded since the last ACK, and then to the timeout after the last forward. */
  lemma {:induction false} AckTimerFollowsForwards(ws: seq<World>, es: seq<Event>, i: nat, v: VehicleId)
    requires IsRun(ws, es) && i <= |es|
    ensures var a := Of(ws[i].fleet, v).vehicleAck;
            && (a.pending.Running? <==> !a.stopped && Awaited(ws, es, i, v))
            && (a.pending.Running? ==> DeadlineOfLastForward(ws, es, i, v, a.pending.deadline))
  {
    if i > 0 {
      AckTimerFollowsForwards(ws, es, i - 1, v);
      AckStep(ws, es, i - 1, v);
      AwaitedStep(ws, es, i - 1, v);
      var a := Of(ws[i].fleet, v).vehicleAck;
      if a.pending.Running? {
        SentStep(ws, es, i - 1, v, a.pending.deadline);
      }
    }
  }

  // ----- Uncontrolled vehicles -----

  /** A vehicle without a controller has no countdown of its dead-man switch, and no session can start one. */
  predicate Quiet(w: World, v: VehicleId) {
    v !in w.roster.controller ==>
      var d := Of(w.fleet, v).deadman;
      && !d.timer.Running?
      && (d.stopped || forall id | id in w.roster.live :: w.roster.live[id].vehicle != v)
  }

  /** A vehicle becomes free only by a session end, and a free vehicle gets no new session. */
  lemma FreeVehicleStep(w: World, e: Event, v: VehicleId)
    requires Inv(w) && Enabled(w, e) && v !in RosterAfter(w, e).controller
    ensures v in w.roster.controller ==> e.EndSession? && (e.id == "" || e.id == w.roster.controller[v])
    ensures v !in w.roster.controller ==>
              && !StartsDeadman(w, e, v)
              && forall id | id in RosterAfter(w, e).live && RosterAfter(w, e).live[id].vehicle == v ::
                   id in w.roster.live && w.roster.live[id].vehicle == v
  {
    if e.StartSession? {
      FreeAfterStart(w, e, v);
    } else if e.OpenSocket? {
      FreeAfterOpening(w, e, v);
    } else if e.CloseSocket? && e.socket in w.sockets {
      assert SoundSocket(w, w.sockets[e.socket]);
      ReleaseExactly(w.roster, w.sockets[e.socket].session.id);
    } else if e.EndSession? {
      ReleaseExactly(w.roster, e.id);
    }
  }

  lemma FreeAfterStart(w: World, e: Event, v: VehicleId)
    requires Inv(w) && Enabled(w, e) && e.StartSession? && v !in RosterAfter(w, e).controller
    ensures v !in w.roster.controller && !StartsDeadman(w, e, v)
    ensures forall id | id in RosterAfter(w, e).live && RosterAfter(w, e).live[id].vehicle == v ::
              id in w.roster.live && w.roster.live[id].vehicle == v
  {
    StartExactly(w.roster, e.v, e.op, e.id);
  }

  lemma FreeAfterOpening(w: World, e: Event, v: VehicleId)
    requires Inv(w) && e.OpenSocket? && v !in w.roster.controller
    ensures !StartsDeadman(w, e, v)
  {
    if Controls(w.roster, e.id, v) {
      ControllerIsIndexed(w.roster, e.id);
    }
  }

  lemma ControllerIsIndexed(r: Roster, id: SessionId)
    requires r.Consistent() && id in r.live && r.live[id].role == Controller
    ensures r.live[id].vehicle in r.controller
  {
  }

  lemma FreedIsStill(ws: seq<World>, es: seq<Event>, i: nat, v: VehicleId)
    requires IsRun(ws, es) && i < |es| && v in ws[i].roster.controller
    requires es[i].EndSession? && (es[i].id == "" || es[i].id == ws[i].roster.controller[v])
    ensures Of(ws[i + 1].fleet, v).deadman == Stilled(Of(ws[i].fleet, v).deadman)
  {
    assert Happens(ws, es, i);
    RunKeepsInv(ws, es, i);
    SessionEndOnVehicle(ws[i], es[i].id, v);
  }

  lemma {:induction false} RunIsQuiet(ws: seq<World>, es: seq<Event>, i: nat, v: VehicleId)
    requires IsRun(ws, es) && i <= |es|
    ensures Quiet(ws[i], v)
  {
    if i > 0 && v !in ws[i].roster.controller {
      RunIsQuiet(ws, es, i - 1, v);
      RunKeepsInv(ws, es, i - 1);
      RosterAlongRun(ws, es, i - 1);
      FreeVehicleStep(ws[i - 1], es[i - 1], v);
      if v in ws[i - 1].roster.controller {
        FreedIsStill(ws, es, i - 1, v);
      } else {
        SwitchStep(ws, es, i - 1, v);
        if Holds(ws[i - 1], es[i - 1], v) {
          HoldNeedsSession(ws, es, i - 1, v);
        }
      }
    }
  }

  lemma HoldNeedsSession(ws: seq<World>, es: seq<Event>, i: nat, v: VehicleId)
    requires IsRun(ws, es) && i < |es| && Holds(ws[i], es[i], v)
    ensures exists id :: id in ws[i].roster.live && ws[i].roster.live[id].vehicle == v
  {
    RunKeepsInv(ws, es, i);
    var k := ws[i].sockets[es[i].socket];
    assert SoundSocket(ws[i], k);
    assert k.session.id in ws[i].roster.live;
  }

  // ----- The clock -----

  predicate Over(t: Timer, now: Time) {
    t.Running? && t.deadline <= now
  }

  /** The dead-man switch or the vehicle-ACK watchdog of v has run out. */
  predicate RunOut(w: World, v: VehicleId, now: Time) {
    Over(Of(w.fleet, v).deadman.timer, now) || Over(Of(w.fleet, v).vehicleAck.pending, now)
  }

  /** The event is the expiry of a timer that has run out. */
  predicate DueExpiry(w: World, e: Event, now: Time) {
    && e.At?
    && (|| (e.what.DeadmanExpires? && Over(Of(w.fleet, e.v).deadman.timer, now))
        || (e.what.VehicleAckExpires? && Over(Of(w.fleet, e.v).vehicleAck.pending, now)))
  }

  /** Events happen at times that never go back, messages are stamped with theirs, and while some timer
      has run out the next event is the expiry of one that has. */
  ghost predicate Timed(ws: seq<World>, es: seq<Event>, ts: seq<Time>)
    requires |ws| == |es| + 1
  {
    && |ts| == |es|
    && (forall i, j | 0 <= i <= j < |ts| :: ts[i] <= ts[j])
    && (forall i | 0 <= i < |es| && es[i].Receive? :: es[i].now == ts[i])
    && (forall i: nat, v | i < |es| && RunOut(ws[i], v, ts[i]) :: DueExpiry(ws[i], es[i], ts[i]))
  }

  /** In every run the expiry of a timer that has run out puts its vehicle into SAFE_MODE. */
  lemma ExpiryStops(ws: seq<World>, es: seq<Event>, i: nat, now: Time)
    requires IsRun(ws, es) && i < |es| && DueExpiry(ws[i], es[i], now)
    ensures Of(ws[i + 1].fleet, es[i].v).machine.system == SafeMode
    ensures if es[i].what.DeadmanExpires? then Of(ws[i + 1].fleet, es[i].v).deadman.stopped
            else Of(ws[i + 1].fleet, es[i].v).vehicleAck.stopped
  {
    var v := es[i].v;
    assert Happens(ws, es, i);
    RunKeepsInv(ws, es, i);
    OfIsSound(ws[i], v);
    SwitchFollowsHolds(ws, es, i, v);
    AckTimerFollowsForwards(ws, es, i, v);
    RunIsQuiet(ws, es, i, v);
    DeadmanExpiryExactly(ws[i], v);
    VehicleAckExpiryExactly(ws[i], v);
  }

  lemma ExpiryIsLocal(ws: seq<World>, es: seq<Event>, i: nat, v: VehicleId)
    requires IsRun(ws, es) && i < |es| && es[i].At? && es[i].v != v
    ensures Of(ws[i + 1].fleet, v) == Of(ws[i].fleet, v)
  {
    assert Happens(ws, es, i);
    RunKeepsInv(ws, es, i);
    StepIsLocal(ws[i], es[i], v);
  }

  /** In every timed run, a vehicle whose dead-man switch or vehicle-ACK watchdog runs out is in SAFE_MODE
      before anything but an expiry happens. */
  lemma {:induction false} RunOutStops(ws: seq<World>, es: seq<Event>, ts: seq<Time>, i: nat, j: nat, v: VehicleId)
    requires IsRun(ws, es) && Timed(ws, es, ts) && i <= j < |es|
    requires RunOut(ws[i], v, ts[i]) || Of(ws[i].fleet, v).machine.system == SafeMode
    requires forall k | i <= k < j :: DueExpiry(ws[k], es[k], ts[k])
    requires !DueExpiry(ws[j], es[j], ts[j])
    ensures Of(ws[j].fleet, v).machine.system == SafeMode
    decreases j - i
  {
    if i < j {
      if es[i].v != v {
        ExpiryIsLocal(ws, es, i, v);
      } else {
        ExpiryStops(ws, es, i, ts[i]);
      }
      assert ts[i] <= ts[i + 1];
      RunOutStops(ws, es, ts, i + 1, j, v);
    }
  }

  /** In every timed run, whenever something other than the expiry of a timer happens, a drivable vehicle that is
      watched and was held since its switch started was held less than the timeout ago. */
  lemma HoldIsRecent(ws: seq<World>, es: seq<Event>, ts: seq<Time>, i: nat, v: VehicleId) returns (k: nat)
    requires IsRun(ws, es) && Timed(ws, es, ts) && i < |es| && !DueExpiry(ws[i], es[i], ts[i])
    requires Of(ws[i].fleet, v).machine.Drivable() && !Unwatched(ws, es, i, v) && Held(ws, es, i, v)
    ensures k < i && Holds(ws[k], es[k], v) && 0.0 <= ts[i] - ts[k] < 10.0
    ensures forall j | k < j < i :: !Holds(ws[j], es[j], v)
  {
    SwitchFollowsHolds(ws, es, i, v);
    DeadmanOffExactly(ws, es, i, v);
    var deadline := Of(ws[i].fleet, v).deadman.timer.deadline;
    k :| SetBy(ws, es, i, v, k, deadline);
    assert !RunOut(ws[i], v, ts[i]);
  }

  /** In every timed run, whenever something other than the expiry of a timer happens, a drivable vehicle whose
      vehicle-ACK watchdog has not expired since the session started, and to which a command was forwarded
      since its last ACK, got the last one less than the timeout ago. */
  lemma ForwardIsRecent(ws: seq<World>, es: seq<Event>, ts: seq<Time>, i: nat, v: VehicleId) returns (k: nat)
    requires IsRun(ws, es) && Timed(ws, es, ts) && i < |es| && !DueExpiry(ws[i], es[i], ts[i])
    requires Of(ws[i].fleet, v).machine.Drivable() && !Expired(ws, es, i, v) && Awaited(ws, es, i, v)
    ensures k < i && Forwards(ws[k], es[k], v) && 0.0 <= ts[i] - ts[k] < 1.0
    ensures forall j | k < j < i :: !Forwards(ws[j], es[j], v)
  {
    AckTimerFollowsForwards(ws, es, i, v);
    VehicleAckOffExactly(ws, es, i, v);
    var deadline := Of(ws[i].fleet, v).vehicleAck.pending.deadline;
    k :| SentBy(ws, es, i, v, k, deadline);
    assert !RunOut(ws[i], v, ts[i]);
  }

  /** In every timed run a command that reaches a vehicle is backed by a recent hold, unless the vehicle
      is unwatched or was not yet held since its switch started. */
  lemma ForwardIsHeld(ws: seq<World>, es: seq<Event>, ts: seq<Time>, i: nat)
    requires IsRun(ws, es) && Timed(ws, es, ts) && i < |es| && Forwarded(ws[i], es[i]).Some?
    ensures var v := Forwarded(ws[i], es[i]).value.v;
            || Unwatched(ws, es, i, v) || !Held(ws, es, i, v)
            || exists k :: 0 <= k < i && Holds(ws[k], es[k], v) && 0.0 <= ts[i] - ts[k] < DEADMAN_TIMEOUT
  {
    ForwardIsSafe(ws, es, i);
    var v := Forwarded(ws[i], es[i]).value.v;
    if !Unwatched(ws, es, i, v) && Held(ws, es, i, v) {
      var k := HoldIsRecent(ws, es, ts, i, v);
    }
  }
}
