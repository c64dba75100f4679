/** The polling watchdogs: each counts consecutive failed polls and acts at a threshold.

    The auth watchdog acts once and stops; the safety-bus and telemetry watchdogs reset their counter
    and go on. A threshold below one behaves like one. */
module Polling {
  import opened Common
  import opened StateMachine

  const AUTH_THRESHOLD := 2
  const BUS_THRESHOLD := 2
  const TELEMETRY_THRESHOLD := 2

  /** The number of consecutive failures at which a watchdog with this threshold acts. */
  function Limit(threshold: int): (t: nat)
    ensures t >= 1
  {
    if threshold < 1 then 1 else threshold
  }

  /** The length of the trailing run of failed polls, `before` failures preceding the first one. */
  function Streak(before: nat, polls: seq<bool>): nat {
    if polls == [] then before
    else if polls[|polls| - 1] then 0
    else Streak(before, polls[..|polls| - 1]) + 1
  }

  /** The last n polls all failed. */
  predicate FailedBlock(polls: seq<bool>, n: nat) {
    n <= |polls| && forall i | |polls| - n <= i < |polls| :: !polls[i]
  }

  lemma {:induction false} StreakIsLongestBlock(polls: seq<bool>, n: nat)
    ensures FailedBlock(polls, n) <==> n <= Streak(0, polls)
  {
    if polls != [] && n > 0 {
      var front := polls[..|polls| - 1];
      StreakIsLongestBlock(front, n - 1);
      if FailedBlock(polls, n) {
        assert !polls[|polls| - 1];
        assert FailedBlock(front, n - 1);
      } else if !polls[|polls| - 1] && FailedBlock(front, n - 1) {
        assert forall i | |polls| - n <= i < |polls| - 1 :: front[i] == polls[i];
        assert FailedBlock(polls, n);
      }
    }
  }

  // ----- Safety bus: keeps acting while the outage lasts -----

  /** One poll of a counter that resets when it acts. */
  function Count(failures: nat, ok: bool, threshold: int): nat {
    if ok || failures + 1 >= threshold then 0 else failures + 1
  }

  predicate Acts(failures: nat, ok: bool, threshold: int) {
    !ok && failures + 1 >= threshold
  }

  lemma MulBounds(d: int, t: nat)
    ensures d >= 1 ==> d * t >= t
    ensures d <= -1 ==> d * t + t <= 0
  {
  }

  lemma RemainderOf(q: nat, r: nat, t: nat)
    requires r < t
    ensures (q * t + r) % t == r && (q * t + r) / t == q
  {
    var x := q * t + r;
    var d := x / t - q;
    assert d * t == r - x % t by {
      assert x == (x / t) * t + x % t;
    }
    MulBounds(d, t);
  }

  lemma NextRemainder(n: nat, t: nat)
    requires t >= 1
    ensures (n + 1) % t == if n % t + 1 == t then 0 else n % t + 1
    ensures (n + 1) / t == n / t + if n % t + 1 == t then 1 else 0
    ensures n < t ==> n % t == n
    ensures n % t < t
  {
    var q, r := n / t, n % t;
    assert n == q * t + r;
    if r + 1 == t {
      assert (q + 1) * t == q * t + t;
      RemainderOf(q + 1, 0, t);
    } else {
      RemainderOf(q, r + 1, t);
    }
    if n < t {
      RemainderOf(0, n, t);
    }
  }

  lemma CountIsStreakRemainder(streak: nat, ok: bool, threshold: int)
    ensures var t := Limit(threshold);
            var failures := streak % t;
            && Count(failures, ok, threshold) == (if ok then 0 else streak + 1) % t
            && (Acts(failures, ok, threshold) <==> !ok && (streak + 1) % t == 0)
  {
    NextRemainder(streak, Limit(threshold));
    RemainderOf(0, 0, Limit(threshold));
  }

  /** The polling loop of the safety-bus watchdog; returns the polls at which it triggers the fleet. */
  method RunBus(threshold: int, polls: seq<bool>) returns (fired: seq<nat>)
    ensures forall i :: i in fired <==>
              0 <= i < |polls| && !polls[i] && Streak(0, polls[..i + 1]) % Limit(threshold) == 0
    ensures forall k, l | 0 <= k < l < |fired| :: fired[k] < fired[l]
  {
    fired := [];
    var failures: nat := 0;
    for n := 0 to |polls|
      invariant failures == Streak(0, polls[..n]) % Limit(threshold)
      invariant forall i :: i in fired <==>
                  0 <= i < n && !polls[i] && Streak(0, polls[..i + 1]) % Limit(threshold) == 0
      invariant forall k, l | 0 <= k < l < |fired| :: fired[k] < fired[l]
      invariant forall k | 0 <= k < |fired| :: fired[k] < n
    {
      assert polls[..n + 1][..n] == polls[..n];
      CountIsStreakRemainder(Streak(0, polls[..n]), polls[n], threshold);
      if polls[n] {
        failures := 0;
      } else {
        failures := failures + 1;
        if failures >= threshold {
          fired := fired + [n];
          failures := 0;
        }
      }
    }
    assert polls[..|polls|] == polls;
  }

  /** How often the loop acts among the polls lo..hi. */
  function ActCount(polls: seq<bool>, threshold: int, lo: nat, hi: nat): nat
    requires lo <= hi <= |polls|
  {
    if lo == hi then 0
    else ActCount(polls, threshold, lo, hi - 1)
         + if !polls[hi - 1] && Streak(0, polls[..hi]) % Limit(threshold) == 0 then 1 else 0
  }

  /** In a run of n failures that follows a success (or the start) the bus watchdog acts exactly
      n / threshold times. */
  lemma {:induction false} BusActsPerOutage(polls: seq<bool>, threshold: int, lo: nat, hi: nat)
    requires lo <= hi <= |polls|
    requires lo == 0 || polls[lo - 1]
    requires forall i | lo <= i < hi :: !polls[i]
    ensures ActCount(polls, threshold, lo, hi) == (hi - lo) / Limit(threshold)
    ensures Streak(0, polls[..hi]) == hi - lo
    decreases hi
  {
    if lo < hi {
      BusActsPerOutage(polls, threshold, lo, hi - 1);
      assert polls[..hi][..hi - 1] == polls[..hi - 1];
      NextRemainder(hi - 1 - lo, Limit(threshold));
    } else {
      RemainderOf(0, 0, Limit(threshold));
    }
  }

  // ----- Auth: acts once -----

  /** The polling loop of the auth watchdog: it fires at the end of the first block of `threshold`
      consecutive failures and then stops, and never otherwise. */
  method RunAuth(threshold: int, polls: seq<bool>) returns (fired: Option<nat>)
    ensures fired.Some? <==> exists n :: 0 <= n <= |polls| && FailedBlock(polls[..n], Limit(threshold))
    ensures fired.Some? ==>
              && fired.value < |polls|
              && FailedBlock(polls[..fired.value + 1], Limit(threshold))
              && forall n | 0 <= n <= fired.value :: !FailedBlock(polls[..n], Limit(threshold))
  {
    var failures: nat := 0;
    StreakIsLongestBlock(polls[..0], Limit(threshold));
    for n := 0 to |polls|
      invariant failures == Streak(0, polls[..n]) < Limit(threshold)
      invariant forall k | 0 <= k <= n :: !FailedBlock(polls[..k], Limit(threshold))
    {
      assert polls[..n + 1][..n] == polls[..n];
      StreakIsLongestBlock(polls[..n + 1], Limit(threshold));
      if polls[n] {
        failures := 0;
        continue;
      }
      failures := failures + 1;
      if failures >= threshold {
        return Some(n);
      }
    }
    return None;
  }

  /** One polling loop of the account check: the account it was started for, and its failures in a row. */
  datatype Loop = Loop(account: OperatorId, failures: nat) {

    predicate Fires(active: bool) {
      Acts(failures, active, AUTH_THRESHOLD)
    }

    function After(active: bool): Loop {
      this.(failures := if active then 0 else failures + 1)
    }

    /** The machine after a check: an account that is gone counts as the loss of the operator. */
    function Effect(m: Layers, active: bool): Layers {
      if Fires(active) then SetOperator(m, NoOperator) else m
    }
  }

  /** A check of an account never leaves a drivable vehicle drivable but changed, and never touches a
      vehicle that is in IDLE or SAFE_MODE but for its operator. */
  lemma EffectIsAllOrNothing(loop: Loop, m: Layers, active: bool)
    ensures var r := loop.Effect(m, active);
            && (r.Drivable() ==> r == m)
            && (!m.Drivable() ==> r == m.(operator := r.operator))
  {
  }

  /** The running loop, and the loops that were stopped and may still finish a check. */
  datatype Auth = Auth(running: Option<Loop>, stopped: multiset<Loop>) {

    function Retired(): multiset<Loop> {
      if running.Some? then stopped + multiset{running.value} else stopped
    }

    function Started(account: OperatorId): Auth {
      Auth(Some(Loop(account, 0)), Retired())
    }

    function Halted(): Auth {
      Auth(None, Retired())
    }

    /** A loop that fires ends by itself. */
    function Ticked(active: bool): Auth {
      if running.None? then this
      else this.(running := if running.value.Fires(active) then None else Some(running.value.After(active)))
    }

    /** A stopped loop finishes a check; it may go on to another one unless it fired. */
    function Finished(loop: Loop, active: bool): Auth {
      var others := stopped - multiset{loop};
      this.(stopped := if loop.Fires(active) then others else others + multiset{loop.After(active)})
    }
  }

  const NEW_AUTH := Auth(None, multiset{})

  class AuthWatchdog {
    const sm: Machine
    var running: Option<Loop>
    var stopped: multiset<Loop>

    ghost function View(): Auth
      reads this
    {
      Auth(running, stopped)
    }

    constructor (sm: Machine)
      ensures this.sm == sm && View() == NEW_AUTH
    {
      this.sm := sm;
      running, stopped := None, multiset{};
    }

    /** A new loop for this account; a loop that was running is cancelled. */
    method Start(account: OperatorId)
      modifies this
      ensures View() == old(View()).Started(account)
    {
      Stop();
      running := Some(Loop(account, 0));
    }

    method Stop()
      modifies this
      ensures View() == old(View()).Halted()
    {
      if running.Some? {
        stopped := stopped + multiset{running.value};
        running := None;
      }
    }

    /** One tick of the running loop. */
    method Poll(active: bool)
      modifies this, sm
      ensures View() == old(View()).Ticked(active)
      ensures sm.View() == if old(running).Some? then old(running).value.Effect(old(sm.View()), active)
                           else old(sm.View())
    {
      if running.None? {
        return;
      }
      var loop := running.value;
      if active {
        running := Some(loop.(failures := 0));
        return;
      }
      running := Some(loop.(failures := loop.failures + 1));
      if loop.failures + 1 >= AUTH_THRESHOLD {
        sm.TransitionOperator(NoOperator);
        running := None;
      }
    }

    /** A check that was under way when its loop was stopped: the loop's own counter still decides, and
        stopping the loop fails the check. */
    method FinishStale(loop: Loop, active: bool)
      modifies this, sm
      ensures View() == old(View()).Finished(loop, active)
      ensures sm.View() == loop.Effect(old(sm.View()), active)
    {
      stopped := stopped - multiset{loop};
      if active {
        stopped := stopped + multiset{loop.(failures := 0)};
      } else if loop.failures + 1 >= AUTH_THRESHOLD {
        sm.TransitionOperator(NoOperator);
      } else {
        stopped := stopped + multiset{loop.(failures := loop.failures + 1)};
      }
    }
  }

  // ----- Telemetry: composed with the state machine -----

  /** The counter of the running loop, and those of the loops that were stopped and may still finish a
      check. */
  datatype TelemetryPoller = TelemetryPoller(running: Option<nat>, stopped: multiset<nat>) {

    function Retired(): multiset<nat> {
      if running.Some? then stopped + multiset{running.value} else stopped
    }

    function Started(): TelemetryPoller {
      TelemetryPoller(Some(0), Retired())
    }

    function Halted(): TelemetryPoller {
      TelemetryPoller(None, Retired())
    }

    function Ticked(recent: bool): TelemetryPoller {
      if running.None? then this
      else this.(running := Some(Count(running.value, recent, TELEMETRY_THRESHOLD)))
    }

    function Finished(failures: nat, recent: bool): TelemetryPoller {
      this.(stopped := stopped - multiset{failures} + multiset{Count(failures, recent, TELEMETRY_THRESHOLD)})
    }
  }

  const NEW_POLLER := TelemetryPoller(None, multiset{})

  /** The machine after one telemetry poll with the given counter. */
  function PolledMachine(m: Layers, failures: nat, recent: bool, threshold: int): Layers {
    if recent then ReportTelemetry(m, true)
    else if Acts(failures, recent, threshold) then ReportTelemetry(m, false)
    else m
  }

  class TelemetryWatchdog {
    const sm: Machine
    var running: Option<nat>
    var stopped: multiset<nat>

    ghost function View(): TelemetryPoller
      reads this
    {
      TelemetryPoller(running, stopped)
    }

    constructor (sm: Machine)
      ensures this.sm == sm && View() == NEW_POLLER
    {
      this.sm := sm;
      running, stopped := None, multiset{};
    }

    method Start()
      modifies this
      ensures View() == old(View()).Started()
    {
      Stop();
      running := Some(0);
    }

    method Stop()
      modifies this
      ensures View() == old(View()).Halted()
    {
      if running.Some? {
        stopped := stopped + multiset{running.value};
        running := None;
      }
    }

    /** One tick of the running loop. */
    method Poll(recent: bool)
      modifies this, sm
      ensures View() == old(View()).Ticked(recent)
      ensures sm.View() == if old(running).Some?
                           then PolledMachine(old(sm.View()), old(running).value, recent, TELEMETRY_THRESHOLD)
                           else old(sm.View())
    {
      if running.Some? {
        var failures := Check(running.value, recent);
        running := Some(failures);
      }
    }

    /** A check that was under way when its loop was stopped still reports. */
    method FinishStale(failures: nat, recent: bool)
      modifies this, sm
      ensures View() == old(View()).Finished(failures, recent)
      ensures sm.View() == PolledMachine(old(sm.View()), failures, recent, TELEMETRY_THRESHOLD)
    {
      var next := Check(failures, recent);
      stopped := stopped - multiset{failures} + multiset{next};
    }

    /** One check of a loop with the given counter, and the counter after it. */
    method Check(failures: nat, recent: bool) returns (next: nat)
      modifies sm
      ensures next == Count(failures, recent, TELEMETRY_THRESHOLD)
      ensures sm.View() == PolledMachine(old(sm.View()), failures, recent, TELEMETRY_THRESHOLD)
    {
      if recent {
        sm.TransitionTelemetry(true);
        return 0;
      }
      next := failures + 1;
      if next >= TELEMETRY_THRESHOLD {
        sm.TransitionTelemetry(false);
        next := 0;
      }
    }
  }

  /** What a drivable vehicle sees: telemetry polls mixed with media reports. */
  datatype Feed = Poll(recent: bool) | Video(report: MediaState)

  function Polls(fs: seq<Feed>): seq<bool> {
    if fs == [] then []
    else Polls(fs[..|fs| - 1]) + if fs[|fs| - 1].Poll? then [fs[|fs| - 1].recent] else []
  }

  datatype Watched = Watched(machine: Layers, failures: nat)

  function Watch(w: Watched, fs: seq<Feed>, threshold: int): Watched {
    if fs == [] then w
    else
      var before := Watch(w, fs[..|fs| - 1], threshold);
      match fs[|fs| - 1]
      case Poll(recent) =>
        Watched(PolledMachine(before.machine, before.failures, recent, threshold),
                Count(before.failures, recent, threshold))
      case Video(report) => before.(machine := ReportMedia(before.machine, report))
  }

  /** Drivable, and no telemetry cause is active; a cause of video may be, also one left over from an
      earlier session. */
  predicate Fresh(w: Watched, threshold: int) {
    w.machine.Drivable() && TelemetryCause !in w.machine.causes && w.failures < Limit(threshold)
  }

  /** The counter and the cause set tell how long the feed has been failing. */
  predicate Tracks(w: Watched, streak: nat, threshold: int) {
    && w.machine.Drivable()
    && (TelemetryCause in w.machine.causes <==> streak >= Limit(threshold))
    && (TelemetryCause in w.machine.causes ==> w.machine.system == Degraded)
    && w.failures == streak % Limit(threshold)
  }

  lemma FreshTracks(w: Watched, threshold: int)
    requires Fresh(w, threshold)
    ensures Tracks(w, w.failures, threshold)
  {
    NextRemainder(w.failures, Limit(threshold));
  }

  lemma PollKeepsTracking(w: Watched, streak: nat, recent: bool, threshold: int)
    requires Tracks(w, streak, threshold)
    ensures Tracks(Watched(PolledMachine(w.machine, w.failures, recent, threshold),
                           Count(w.failures, recent, threshold)),
                   if recent then 0 else streak + 1, threshold)
  {
    NextRemainder(streak, Limit(threshold));
    CountIsStreakRemainder(streak, recent, threshold);
    if streak + 1 < Limit(threshold) {
      RemainderOf(0, streak + 1, Limit(threshold));
    }
  }

  lemma VideoKeepsTracking(w: Watched, streak: nat, report: MediaState, threshold: int)
    requires Tracks(w, streak, threshold)
    ensures Tracks(w.(machine := ReportMedia(w.machine, report)), streak, threshold)
  {
  }

  /** While the vehicle stays drivable, the telemetry cause is active iff the trailing run of failed
      polls has reached the threshold, whatever media reports come in between. */
  lemma {:induction false} TelemetryCauseExactly(w: Watched, fs: seq<Feed>, threshold: int)
    requires Fresh(w, threshold)
    ensures Tracks(Watch(w, fs, threshold), Streak(w.failures, Polls(fs)), threshold)
  {
    if fs == [] {
      FreshTracks(w, threshold);
    } else {
      var front, f := fs[..|fs| - 1], fs[|fs| - 1];
      TelemetryCauseExactly(w, front, threshold);
      var before := Watch(w, front, threshold);
      match f {
        case Video(report) =>
          VideoKeepsTracking(before, Streak(w.failures, Polls(front)), report, threshold);
          assert Polls(fs) == Polls(front);
        case Poll(recent) =>
          PollKeepsTracking(before, Streak(w.failures, Polls(front)), recent, threshold);
          assert Polls(fs)[..|Polls(front)|] == Polls(front);
      }
    }
  }

  /** After SAFE_MODE cleared the cause, a feed that keeps failing brings DEGRADED back within at most
      `threshold` polls of the recovery: exactly when the polls make up the rest of the counter. */
  lemma StillFailingFeedDegradesAgain(w: Watched, fs: seq<Feed>, threshold: int)
    requires Fresh(w, threshold)
    requires forall i | 0 <= i < |Polls(fs)| :: !Polls(fs)[i]
    ensures TelemetryCause in Watch(w, fs, threshold).machine.causes <==>
              |Polls(fs)| >= Limit(threshold) - w.failures
    ensures |Polls(fs)| >= Limit(threshold) ==> Watch(w, fs, threshold).machine.system == Degraded
  {
    TelemetryCauseExactly(w, fs, threshold);
    AllFailing(w.failures, Polls(fs));
  }

  /** The law that the polls decide whether the telemetry cause is active. */
  predicate CauseFollowsPolls(w: Watched, fs: seq<Feed>, threshold: int) {
    TelemetryCause in Watch(w, fs, threshold).machine.causes <==> Streak(w.failures, Polls(fs)) >= Limit(threshold)
  }

  /** The law holds for all polls and media reports exactly when no telemetry cause was left over from
      an earlier session. */
  lemma PollsDecideIffNoLeftover(w: Watched, threshold: int)
    requires w.machine.Drivable() && w.failures < Limit(threshold)
    ensures TelemetryCause !in w.machine.causes <==> forall fs: seq<Feed> :: CauseFollowsPolls(w, fs, threshold)
  {
    if TelemetryCause !in w.machine.causes {
      forall fs: seq<Feed>
        ensures CauseFollowsPolls(w, fs, threshold)
      {
        TelemetryCauseExactly(w, fs, threshold);
      }
    } else {
      assert !CauseFollowsPolls(w, [], threshold);
    }
  }

  predicate Healthy(f: Feed) {
    f == Poll(true) || (f.Video? && f.report != MediaFailed && f.report != MediaDegraded)
  }

  /** A telemetry cause left over in CONNECTED outlives any number of healthy polls. */
  lemma {:induction false} LeftoverOutlivesHealthyPolls(w: Watched, fs: seq<Feed>, threshold: int)
    requires w.machine.system == Connected && TelemetryCause in w.machine.causes
    requires forall i | 0 <= i < |fs| :: Healthy(fs[i])
    ensures var m := Watch(w, fs, threshold).machine;
            m.system == Connected && TelemetryCause in m.causes
  {
    if fs != [] {
      assert Healthy(fs[|fs| - 1]);
      LeftoverOutlivesHealthyPolls(w, fs[..|fs| - 1], threshold);
    }
  }

  lemma {:induction false} AllFailing(before: nat, polls: seq<bool>)
    requires forall i | 0 <= i < |polls| :: !polls[i]
    ensures Streak(before, polls) == before + |polls|
  {
    if polls != [] {
      AllFailing(before, polls[..|polls| - 1]);
    }
  }

  /** The counter is always below the limit, in every SYSTEM state. */
  lemma CounterStaysBelowLimit(failures: nat, ok: bool, threshold: int)
    requires failures < Limit(threshold)
    ensures Count(failures, ok, threshold) < Limit(threshold)
  {
  }
}
