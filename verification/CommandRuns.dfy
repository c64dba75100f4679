/** The command limiter inside whole runs: one bucket for all vehicles, and the messages that draw on it. */
module CommandRuns {
  import opened Common
  import opened StateMachine
  import opened Sessions
  import opened Vehicles
  import opened Protocol
  import opened ProtocolSafety
  import opened ProtocolRuns
  import opened Effects
  import TokenBuckets

  const RATE := TokenBuckets.COMMANDS_PER_SECOND

  /** The event draws on the limiter: a well-formed message of a live session whose vehicle is not in
      SAFE_MODE, whatever it asks for. */
  predicate Draws(w: World, e: Event) {
    e.Receive? && Handled(w, e.socket) && !e.command.Malformed?
  }

  lemma LimiterStep(w: World, e: Event)
    requires Inv(w)
    ensures Step(w, e).limiter == if Draws(w, e) then TokenBuckets.Taken(w.limiter, e.now, RATE) else w.limiter
  {
    if e.Receive? {
      MessageDraws(w, e.socket, e.command, e.now, e.delivered);
    }
  }

  lemma MessageDraws(w: World, k: SocketId, c: Command, now: Time, delivered: bool)
    requires Inv(w)
    ensures Message(w, k, c, now, delivered).limiter
            == if Handled(w, k) && !c.Malformed? then TokenBuckets.Taken(w.limiter, now, RATE) else w.limiter
  {
    if k in w.sockets {
      OfIsSound(w, w.sockets[k].session.vehicle);
    }
  }

  lemma LimiterAlongRun(ws: seq<World>, es: seq<Event>, i: nat)
    requires IsRun(ws, es) && i < |es|
    ensures ws[i + 1].limiter
            == if Draws(ws[i], es[i]) then TokenBuckets.Taken(ws[i].limiter, es[i].now, RATE) else ws[i].limiter
  {
    assert Happens(ws, es, i);
    RunKeepsInv(ws, es, i);
    LimiterStep(ws[i], es[i]);
  }

  /** The calls of the limiter before event i, in order, with its answers. */
  function Calls(ws: seq<World>, es: seq<Event>, i: nat): seq<TokenBuckets.Call>
    requires |ws| == |es| + 1 && i <= |es|
  {
    if i == 0 then []
    else
      Calls(ws, es, i - 1)
      + if Draws(ws[i - 1], es[i - 1]) then [TokenBuckets.Call(es[i - 1].now, Admits(ws[i - 1], es[i - 1].now))] else []
  }

  /** In every run of a server created at time `created` the limiter is where the history of all these calls
      leaves it, and each call was accepted exactly when that history admitted it. */
  lemma {:induction false} LimiterFollowsCalls(ws: seq<World>, es: seq<Event>, i: nat, created: Time)
    requires IsRun(ws, es) && i <= |es| && ws[0] == NewWorld(created)
    ensures ws[i].limiter == TokenBuckets.Level(created, Calls(ws, es, i), RATE)
    ensures TokenBuckets.Decided(created, Calls(ws, es, i), RATE)
  {
    if i > 0 {
      LimiterFollowsCalls(ws, es, i - 1, created);
      LimiterAlongRun(ws, es, i - 1);
      var calls, w, e := Calls(ws, es, i - 1), ws[i - 1], es[i - 1];
      if Draws(w, e) {
        assert Calls(ws, es, i) == calls + [TokenBuckets.Call(e.now, TokenBuckets.Allows(w.limiter, e.now, RATE))];
        OneMoreCall(created, calls, w.limiter, e.now);
      } else {
        assert Calls(ws, es, i) == calls;
      }
    }
  }

  lemma OneMoreCall(created: Time, calls: seq<TokenBuckets.Call>, b: TokenBuckets.Bucket, now: Time)
    requires TokenBuckets.Decided(created, calls, RATE) && b == TokenBuckets.Level(created, calls, RATE)
    ensures var longer := calls + [TokenBuckets.Call(now, TokenBuckets.Allows(b, now, RATE))];
            TokenBuckets.Level(created, longer, RATE) == TokenBuckets.Taken(b, now, RATE)
            && TokenBuckets.Decided(created, longer, RATE)
  {
    var longer := calls + [TokenBuckets.Call(now, TokenBuckets.Allows(b, now, RATE))];
    TokenBuckets.LevelAfterCall(created, calls, RATE, now);
    TokenBuckets.BucketDecides(created, calls, RATE, now);
    forall k | 0 <= k < |longer|
      ensures longer[k].accepted <==> TokenBuckets.Admissible(created, longer[..k], RATE, longer[k].at)
    {
      assert longer[..k] == calls[..k];
      assert k == |calls| ==> calls[..k] == calls;
    }
  }

  /** The commands forwarded to any vehicle by messages stamped within [from, until], before event i. */
  function ForwardsWithin(ws: seq<World>, es: seq<Event>, i: nat, from: Time, until: Time): nat
    requires |ws| == |es| + 1 && i <= |es|
  {
    if i == 0 then 0
    else
      var e := es[i - 1];
      ForwardsWithin(ws, es, i - 1, from, until)
      + if Forwarded(ws[i - 1], e).Some? && e.Receive? && from <= e.now <= until then 1 else 0
  }

  lemma ForwardIsAccepted(w: World, e: Event)
    requires Inv(w) && Forwarded(w, e).Some?
    ensures e.Receive? && Draws(w, e) && Admits(w, e.now)
  {
    ForwardedFrom(w, e);
  }

  lemma {:induction false} ForwardsAreCalls(ws: seq<World>, es: seq<Event>, i: nat, from: Time, until: Time)
    requires IsRun(ws, es) && i <= |es|
    ensures ForwardsWithin(ws, es, i, from, until) <= TokenBuckets.AcceptedWithin(Calls(ws, es, i), from, until)
  {
    if i > 0 {
      ForwardsAreCalls(ws, es, i - 1, from, until);
      RunKeepsInv(ws, es, i - 1);
      if Forwarded(ws[i - 1], es[i - 1]).Some? {
        ForwardIsAccepted(ws[i - 1], es[i - 1]);
      }
      AcceptedStep(ws, es, i - 1, from, until);
    }
  }

  lemma AcceptedStep(ws: seq<World>, es: seq<Event>, i: nat, from: Time, until: Time)
    requires |ws| == |es| + 1 && i < |es|
    ensures var e := es[i];
            TokenBuckets.AcceptedWithin(Calls(ws, es, i + 1), from, until)
            == TokenBuckets.AcceptedWithin(Calls(ws, es, i), from, until)
               + if Draws(ws[i], e) && Admits(ws[i], e.now) && from <= e.now <= until then 1 else 0
  {
    var calls, e := Calls(ws, es, i), es[i];
    if Draws(ws[i], e) {
      var last := TokenBuckets.Call(e.now, Admits(ws[i], e.now));
      assert (calls + [last])[..|calls|] == calls;
    } else {
      assert Calls(ws, es, i + 1) == calls;
    }
  }

  /** In every run no window of any length sees more than 100 + 100 * length commands forwarded, to all vehicles
      together. */
  lemma ForwardsAreLimited(ws: seq<World>, es: seq<Event>, i: nat, from: Time, until: Time)
    requires IsRun(ws, es) && i <= |es| && from <= until
    ensures ForwardsWithin(ws, es, i, from, until) as real <= 100.0 + 100.0 * (until - from)
  {
    var created :| ws[0] == NewWorld(created);
    var calls := Calls(ws, es, i);
    LimiterFollowsCalls(ws, es, i, created);
    ForwardsAreCalls(ws, es, i, from, until);
    AtMostAccepted(ForwardsWithin(ws, es, i, from, until), created, calls, from, until);
  }

  lemma AtMostAccepted(n: nat, created: Time, calls: seq<TokenBuckets.Call>, from: Time, until: Time)
    requires n <= TokenBuckets.AcceptedWithin(calls, from, until)
    requires from <= until && TokenBuckets.Decided(created, calls, RATE)
    ensures n as real <= RATE + RATE * (until - from)
  {
    TokenBuckets.NoWindowOverfilled(created, calls, RATE, from, until);
  }
}
