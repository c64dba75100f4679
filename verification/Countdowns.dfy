/** Timer watchdogs over a logical clock.

    `Countdown` is what the dead-man switch and the vehicle-ACK watchdog have in common: a single
    timer that some signals arm, others disarm, and that stops the watchdog when it runs out. A run
    is a trace of stamped signals; a deadline that has passed fires before the next signal is
    handled. */
module Countdowns {
  import opened Common

  datatype Signal = Start | Stop | Arm | Disarm

  datatype Stamped = Stamped(at: Time, signal: Signal)

  datatype Countdown = Countdown(stopped: bool, deadline: Option<Time>)

  function Receive(c: Countdown, s: Stamped, timeout: Time): Countdown {
    match s.signal
    case Start => Countdown(false, None)
    case Stop => Countdown(true, None)
    case Arm => if c.stopped then c else Countdown(false, Some(s.at + timeout))
    case Disarm => Countdown(c.stopped, None)
  }

  predicate Due(c: Countdown, now: Time) {
    c.deadline.Some? && c.deadline.value <= now
  }

  /** Fire if the deadline has passed by `now`. */
  function Settle(c: Countdown, now: Time): Countdown {
    if Due(c, now) then Countdown(true, None) else c
  }

  /** The watchdog right after the last signal of the trace. */
  function Play(running: bool, trace: seq<Stamped>, timeout: Time): Countdown {
    if trace == [] then Countdown(!running, None)
    else
      var last := trace[|trace| - 1];
      Receive(Settle(Play(running, trace[..|trace| - 1], timeout), last.at), last, timeout)
  }

  /** The indices of the signals after which the watchdog fired, seen at time `now`. */
  function Fires(running: bool, trace: seq<Stamped>, timeout: Time, now: Time): seq<nat> {
    if trace == [] then []
    else
      Fires(running, trace[..|trace| - 1], timeout, trace[|trace| - 1].at)
      + if Due(Play(running, trace, timeout), now) then [|trace| - 1] else []
  }

  // ----- The declarative reading -----

  function Next(trace: seq<Stamped>, i: nat, now: Time): Time
    requires i < |trace|
  {
    if i + 1 < |trace| then trace[i + 1].at else now
  }

  /** Signal i armed the timer and nothing came for a whole timeout. */
  predicate Lapses(trace: seq<Stamped>, timeout: Time, now: Time, i: nat)
    requires i < |trace|
  {
    trace[i].signal == Arm && trace[i].at + timeout <= Next(trace, i, now)
  }

  /** Since signal s (or since the beginning, s == -1) there was neither a stop nor a lapse before n. */
  predicate UndisturbedSince(trace: seq<Stamped>, timeout: Time, now: Time, s: int, n: nat)
    requires -1 <= s < n <= |trace|
  {
    forall j: nat | s < j < n :: trace[j].signal != Stop && !Lapses(trace, timeout, now, j)
  }

  predicate RunningSince(running: bool, trace: seq<Stamped>, timeout: Time, now: Time, s: int, n: nat)
    requires n <= |trace|
  {
    && -1 <= s < n
    && (if s == -1 then running else trace[s].signal == Start)
    && UndisturbedSince(trace, timeout, now, s, n)
  }

  /** The watchdog is running when signal n arrives (n == |trace|: at time now). */
  ghost predicate Live(running: bool, trace: seq<Stamped>, timeout: Time, now: Time, n: nat)
    requires n <= |trace|
  {
    exists s :: RunningSince(running, trace, timeout, now, s, n)
  }

  /** The watchdog must fire after signal i: it was running, i armed it, and a timeout passed. */
  ghost predicate Trips(running: bool, trace: seq<Stamped>, timeout: Time, now: Time, i: nat)
    requires i < |trace|
  {
    Lapses(trace, timeout, now, i) && Live(running, trace, timeout, now, i)
  }

  lemma LiveOfPrefix(running: bool, trace: seq<Stamped>, timeout: Time, now: Time, n: nat)
    requires n < |trace|
    ensures Live(running, trace, timeout, now, n) <==> Live(running, trace[..n], timeout, trace[n].at, n)
  {
    var front := trace[..n];
    forall j: nat | j < n
      ensures front[j] == trace[j] && (Lapses(trace, timeout, now, j) <==> Lapses(front, timeout, trace[n].at, j))
    {
    }
    if Live(running, trace, timeout, now, n) {
      var s :| RunningSince(running, trace, timeout, now, s, n);
      assert RunningSince(running, front, timeout, trace[n].at, s, n);
    }
    if Live(running, front, timeout, trace[n].at, n) {
      var s :| RunningSince(running, front, timeout, trace[n].at, s, n);
      assert RunningSince(running, trace, timeout, now, s, n);
    }
  }

  lemma LiveStep(running: bool, trace: seq<Stamped>, timeout: Time, now: Time, n: nat)
    requires n < |trace|
    ensures Live(running, trace, timeout, now, n + 1) <==>
              match trace[n].signal
              case Start => true
              case Stop => false
              case Arm => Live(running, trace, timeout, now, n) && !Lapses(trace, timeout, now, n)
              case Disarm => Live(running, trace, timeout, now, n)
  {
    if trace[n].signal == Start {
      assert RunningSince(running, trace, timeout, now, n, n + 1);
    } else {
      if Live(running, trace, timeout, now, n + 1) {
        var s :| RunningSince(running, trace, timeout, now, s, n + 1);
        assert s != n;
        assert RunningSince(running, trace, timeout, now, s, n);
      }
      if Live(running, trace, timeout, now, n) && trace[n].signal != Stop && !Lapses(trace, timeout, now, n) {
        var s :| RunningSince(running, trace, timeout, now, s, n);
        assert RunningSince(running, trace, timeout, now, s, n + 1);
      }
    }
  }

  /** The operational watchdog agrees with the declarative reading: at every time it is running iff
      Live says so, and its deadline is pending iff the last signal armed it less than a timeout ago. */
  lemma {:induction false} CountdownExactly(running: bool, trace: seq<Stamped>, timeout: Time, now: Time)
    ensures var c := Settle(Play(running, trace, timeout), now);
            var n := |trace|;
            && (!c.stopped <==> Live(running, trace, timeout, now, n))
            && (c.deadline.Some? <==>
                  n > 0 && trace[n - 1].signal == Arm && Live(running, trace, timeout, now, n))
            && (c.deadline.Some? ==> c.deadline.value == trace[n - 1].at + timeout && now < c.deadline.value)
    ensures |trace| > 0 ==>
              (Due(Play(running, trace, timeout), now) <==> Trips(running, trace, timeout, now, |trace| - 1))
  {
    if trace == [] {
      if running {
        assert RunningSince(running, trace, timeout, now, -1, 0);
      }
    } else {
      var n := |trace| - 1;
      CountdownExactly(running, trace[..n], timeout, trace[n].at);
      LiveOfPrefix(running, trace, timeout, now, n);
      LiveStep(running, trace, timeout, now, n);
    }
  }

  /** The watchdog fires after exactly the signals it must fire after. */
  lemma {:induction false} FiresExactly(running: bool, trace: seq<Stamped>, timeout: Time, now: Time, i: nat)
    requires i < |trace|
    ensures i in Fires(running, trace, timeout, now) <==> Trips(running, trace, timeout, now, i)
  {
    var n := |trace| - 1;
    var front := trace[..n];
    FiresInRange(running, front, timeout, trace[n].at);
    if i == n {
      CountdownExactly(running, trace, timeout, now);
    } else {
      FiresExactly(running, front, timeout, trace[n].at, i);
      assert front[..i] == trace[..i];
      LiveOfPrefix(running, trace, timeout, now, i);
      LiveOfPrefix(running, front, timeout, trace[n].at, i);
      assert Next(front, i, trace[n].at) == Next(trace, i, now);
    }
  }

  lemma {:induction false} FiresInRange(running: bool, trace: seq<Stamped>, timeout: Time, now: Time)
    ensures forall k | 0 <= k < |Fires(running, trace, timeout, now)| ::
              Fires(running, trace, timeout, now)[k] < |trace|
    ensures forall k, l | 0 <= k < l < |Fires(running, trace, timeout, now)| ::
              Fires(running, trace, timeout, now)[k] < Fires(running, trace, timeout, now)[l]
  {
    if trace != [] {
      FiresInRange(running, trace[..|trace| - 1], timeout, trace[|trace| - 1].at);
    }
  }

  /** Between two fires there is always a Start, so a watchdog fires at most once per Start; and no
      Stop lies between the Start it runs under and the signal after which it fires. */
  lemma OncePerStart(running: bool, trace: seq<Stamped>, timeout: Time, now: Time, i: nat, j: nat)
    requires i < j < |trace|
    requires i in Fires(running, trace, timeout, now) && j in Fires(running, trace, timeout, now)
    ensures exists s: nat :: i < s < j && trace[s].signal == Start
              && forall k: nat | s < k < j :: trace[k].signal != Stop
  {
    FiresExactly(running, trace, timeout, now, i);
    FiresExactly(running, trace, timeout, now, j);
    var s :| RunningSince(running, trace, timeout, now, s, j);
    assert i <= s;
    assert s != i;
    assert i < s < j && trace[s].signal == Start;
  }

  /** The watchdog has not fired exactly when it must not fire after any signal. */
  lemma SilentExactly(running: bool, trace: seq<Stamped>, timeout: Time, now: Time)
    ensures Fires(running, trace, timeout, now) == []
            <==> forall i: nat | i < |trace| :: !Trips(running, trace, timeout, now, i)
  {
    var fires := Fires(running, trace, timeout, now);
    FiresInRange(running, trace, timeout, now);
    forall i: nat | i < |trace|
      ensures i in fires <==> Trips(running, trace, timeout, now, i)
    {
      FiresExactly(running, trace, timeout, now, i);
    }
    if fires != [] {
      assert fires[0] in fires;
    }
  }

  /** Signals that arm the timer faster than it runs out keep it from ever firing, even if nothing
      disarms it: each one restarts the single timer. */
  lemma SteadyArmingMasksSilence(running: bool, trace: seq<Stamped>, timeout: Time, now: Time)
    requires forall i | 0 <= i < |trace| && trace[i].signal == Arm :: Next(trace, i, now) < trace[i].at + timeout
    ensures Fires(running, trace, timeout, now) == []
  {
    SilentExactly(running, trace, timeout, now);
  }
}
