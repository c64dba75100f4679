/** The server's objects over whole runs: what holds in every run of the protocol holds of them. */
module ServerRuns {
  import opened Common
  import opened StateMachine
  import opened Vehicles
  import opened Protocol
  import opened ProtocolSafety
  import opened ProtocolRuns
  import opened ControlServer

  /** Each event is enabled when its turn comes. */
  predicate Accepts(w: World, es: seq<Event>)
    decreases |es|
  {
    es == [] || (Enabled(w, es[0]) && Accepts(Step(w, es[0]), es[1..]))
  }

  /** The command comes from the one live controller of a drivable vehicle. */
  predicate SafeForward(w: World, f: Forward) {
    && f.command.Movement()
    && Of(w.fleet, f.v).machine.Drivable() && Of(w.fleet, f.v).machine.control == ControlActive
    && Controls(w.roster, f.session, f.v)
  }

  lemma NextIsAccepted(ws: seq<World>, es: seq<Event>, i: nat)
    requires i < |es| && |ws| == i + 1 && IsRun(ws, es[..i]) && Accepts(ws[i], es[i..])
    ensures Enabled(ws[i], es[i]) && Accepts(Step(ws[i], es[i]), es[i + 1..])
    ensures IsRun(ws + [Step(ws[i], es[i])], es[..i + 1])
  {
    assert es[i..][0] == es[i] && es[i..][1..] == es[i + 1..];
    assert es[..i + 1] == es[..i] + [es[i]];
    RunContinues(ws, es[..i], es[i]);
  }

  /** A new server that handles the events one after the other goes through a run of the protocol, and
      whatever it forwards on the way is safe. */
  method Run(now: Time, es: seq<Event>) returns (server: Server, forwards: seq<Option<Forward>>, ghost ws: seq<World>)
    requires Accepts(NewWorld(now), es)
    ensures IsRun(ws, es) && ws[0] == NewWorld(now)
    ensures server.Wired() && server.View() == ws[|es|]
    ensures |forwards| == |es| && forall i | 0 <= i < |es| :: forwards[i] == Forwarded(ws[i], es[i])
    ensures forall i | 0 <= i < |es| && forwards[i].Some? :: SafeForward(ws[i], forwards[i].value)
  {
    server := new Server(now);
    forwards, ws := [], [NewWorld(now)];
    for i := 0 to |es|
      invariant fresh(server) && server.Wired() && Inv(server.View())
      invariant fresh(server.vehicles) && fresh(server.sessions) && fresh(server.handover) && fresh(server.limiter)
      invariant fresh(server.vehicles.footprint)
      invariant IsRun(ws, es[..i]) && ws[0] == NewWorld(now) && ws[i] == server.View()
      invariant Accepts(ws[i], es[i..])
      invariant |forwards| == i && forall j | 0 <= j < i :: forwards[j] == Forwarded(ws[j], es[j])
    {
      NextIsAccepted(ws, es, i);
      ws := ws + [Step(ws[i], es[i])];
      var forward := server.Dispatch(es[i]);
      forwards := forwards + [forward];
    }
    assert es[..|es|] == es;
    forall i | 0 <= i < |es| && forwards[i].Some?
      ensures SafeForward(ws[i], forwards[i].value)
    {
      ForwardIsSafe(ws, es, i);
    }
  }
}
