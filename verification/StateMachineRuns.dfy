/** Properties of every finite run of one machine, at the granularity of single calls: calls made
    by any number of threads appear as one sequence because each call holds the machine's lock. */
module StateMachineRuns {
  import opened StateMachine

  datatype Call =
    | System(next: SystemState)
    | Connect
    | Media(report: MediaState)
    | Telemetry(healthy: bool)
    | Operator(state: OperatorState)

  function Apply(m: Layers, c: Call): Layers {
    match c
    case System(next) => Transition(m, next)
    case Connect => ToConnected(m)
    case Media(report) => ReportMedia(m, report)
    case Telemetry(healthy) => ReportTelemetry(m, healthy)
    case Operator(state) => SetOperator(m, state)
  }

  function ApplyAll(m: Layers, cs: seq<Call>): Layers {
    if cs == [] then m else Apply(ApplyAll(m, cs[..|cs| - 1]), cs[|cs| - 1])
  }

  /** No caller requests CONNECTED or DEGRADED directly. */
  predicate Issued(c: Call) {
    c != System(Connected) && c != System(Degraded)
  }

  predicate AllIssued(cs: seq<Call>) {
    forall i | 0 <= i < |cs| :: Issued(cs[i])
  }

  // ----- What every call keeps -----

  function ControlOf(s: SystemState): ControlState {
    match s
    case Idle | Connecting | Authenticated => ControlInit
    case Connected | Degraded => ControlActive
    case SafeMode => ControlBlocked
    case Recovering => ControlRecovering
  }

  predicate Coherent(m: Layers) {
    && m.control == ControlOf(m.system)
    && (m.system == Degraded ==> m.causes != {})
    && (m.system == SafeMode || m.system == Recovering ==> m.causes == {})
  }

  /** The transition table, read from its targets: SAFE_MODE can be entered from wherever a session is, and
      left only to recover or to end it. */
  lemma TableByTarget(s: SystemState)
    ensures Allowed(s, SafeMode)
            <==> s == Connecting || s == Authenticated || s == Connected || s == Degraded || s == Recovering
    ensures Allowed(s, Idle) <==> s == Connected || s == Degraded || s == SafeMode
    ensures Allowed(s, Connecting) <==> s == Idle
    ensures Allowed(s, Authenticated) <==> s == Connecting || s == Recovering
    ensures Allowed(s, Connected) <==> s == Authenticated || s == Degraded
    ensures Allowed(s, Degraded) <==> s == Connected
    ensures Allowed(s, Recovering) <==> s == SafeMode
  {
  }

  /** A transition that the table allows sets SYSTEM and the CONTROL that goes with it; IDLE leaves no
      operator and SAFE_MODE no cause. Any other changes nothing. */
  lemma TransitionExactly(m: Layers, next: SystemState)
    requires Coherent(m)
    ensures Transition(m, next)
            == if !Allowed(m.system, next) then m
               else Layers(next, ControlOf(next), m.media, if next == Idle then NoOperator else m.operator,
                           if next == SafeMode then {} else m.causes)
  {
  }

  /** OPERATOR is what it is set to; losing it in CONNECTED or DEGRADED is SAFE_MODE. */
  lemma OperatorExactly(m: Layers, next: OperatorState)
    ensures SetOperator(m, next)
            == if next == NoOperator && (m.system == Connected || m.system == Degraded)
               then Layers(SafeMode, ControlBlocked, m.media, NoOperator, {})
               else Layers(m.system, m.control, m.media, next, m.causes)
  {
  }

  /** The protected way to CONNECTED works from AUTHENTICATED alone. */
  lemma ConnectExactly(m: Layers)
    ensures ToConnected(m) == if m.system == Authenticated
                              then Layers(Connected, ControlActive, m.media, m.operator, m.causes) else m
  {
  }

  /** A media report is MEDIA from then on. A bad one makes video a cause of a drivable machine, a good one
      clears it in DEGRADED; DEGRADED starts with a cause reported and ends with the last one cleared. */
  lemma MediaExactly(m: Layers, report: MediaState)
    ensures var n := ReportMedia(m, report);
            var bad, good := report == MediaFailed || report == MediaDegraded, report == MediaConnected;
            && n.media == report && n.operator == m.operator
            && (Coherent(m) ==> n.control == m.control)
            && (m.Drivable() && bad ==> n.system == Degraded && n.causes == m.causes + {MediaCause})
            && (m.system == Degraded && good ==>
                  && n.causes == m.causes - {MediaCause}
                  && n.system == if n.causes == {} then Connected else Degraded)
            && (!(m.Drivable() && bad) && !(m.system == Degraded && good) ==>
                  n.system == m.system && n.causes == m.causes)
  {
  }

  /** The same of telemetry, which has no layer of its own. */
  lemma TelemetryExactly(m: Layers, healthy: bool)
    ensures var n := ReportTelemetry(m, healthy);
            && n.media == m.media && n.operator == m.operator
            && (Coherent(m) ==> n.control == m.control)
            && (m.Drivable() && !healthy ==> n.system == Degraded && n.causes == m.causes + {TelemetryCause})
            && (m.system == Degraded && healthy ==>
                  && n.causes == m.causes - {TelemetryCause}
                  && n.system == if n.causes == {} then Connected else Degraded)
            && (!(m.Drivable() && !healthy) && !(m.system == Degraded && healthy) ==>
                  n.system == m.system && n.causes == m.causes)
  {
  }

  lemma ApplyKeepsCoherent(m: Layers, c: Call)
    requires Coherent(m) && Issued(c)
    ensures Coherent(Apply(m, c))
  {
    if c == Media(MediaFailed) || c == Media(MediaDegraded) {
      assert MediaCause in m.causes + {MediaCause};
    } else if c == Telemetry(false) {
      assert TelemetryCause in m.causes + {TelemetryCause};
    }
  }

  /** In every reachable state CONTROL is a function of SYSTEM, DEGRADED has a cause and SAFE_MODE
      has none. */
  lemma {:induction false} ReachableIsCoherent(cs: seq<Call>)
    requires AllIssued(cs)
    ensures Coherent(ApplyAll(INITIAL, cs))
  {
    if cs != [] {
      ReachableIsCoherent(cs[..|cs| - 1]);
      ApplyKeepsCoherent(ApplyAll(INITIAL, cs[..|cs| - 1]), cs[|cs| - 1]);
    }
  }

  /** Media and telemetry reports never enter or leave SAFE_MODE, never change CONTROL or OPERATOR,
      and only ever move SYSTEM between CONNECTED and DEGRADED. */
  lemma ReportsNeverTouchSafety(cs: seq<Call>, c: Call)
    requires AllIssued(cs) && (c.Media? || c.Telemetry?)
    ensures var before := ApplyAll(INITIAL, cs);
            var after := ApplyAll(INITIAL, cs + [c]);
            && after.control == before.control
            && after.operator == before.operator
            && (after.system != before.system ==> before.Drivable() && after.Drivable())
  {
    ReachableIsCoherent(cs);
    assert (cs + [c])[..|cs|] == cs;
  }

  // ----- Leftover causes -----

  /** The SYSTEM states a run passes through, the starting one first. */
  function Systems(m: Layers, cs: seq<Call>): (r: seq<SystemState>)
    ensures |r| == |cs| + 1
    ensures r[|cs|] == ApplyAll(m, cs).system
  {
    if cs == [] then [m.system] else Systems(m, cs[..|cs| - 1]) + [ApplyAll(m, cs).system]
  }

  /** The run tore a DEGRADED session down to IDLE at step i, and has seen neither DEGRADED nor
      SAFE_MODE since. */
  predicate TornDownAt(trace: seq<SystemState>, i: nat) {
    && i + 1 < |trace|
    && trace[i] == Degraded && trace[i + 1] == Idle
    && forall j | i + 1 <= j < |trace| :: trace[j] != Degraded && trace[j] != SafeMode
  }

  ghost predicate DegradedSessionLeftBehind(trace: seq<SystemState>) {
    exists i: nat :: TornDownAt(trace, i)
  }

  lemma LeftBehindStep(trace: seq<SystemState>, next: SystemState)
    requires |trace| > 0
    ensures DegradedSessionLeftBehind(trace + [next]) <==>
              || (trace[|trace| - 1] == Degraded && next == Idle)
              || (DegradedSessionLeftBehind(trace) && next != Degraded && next != SafeMode)
  {
    var longer := trace + [next];
    if trace[|trace| - 1] == Degraded && next == Idle {
      assert TornDownAt(longer, |trace| - 1);
    } else if DegradedSessionLeftBehind(trace) && next != Degraded && next != SafeMode {
      var i: nat :| TornDownAt(trace, i);
      assert TornDownAt(longer, i);
    }
    if DegradedSessionLeftBehind(longer) {
      var i: nat :| TornDownAt(longer, i);
      assert longer[|trace|] == next;
      if i + 1 < |trace| {
        assert forall j | i + 1 <= j < |trace| :: trace[j] == longer[j];
        assert TornDownAt(trace, i);
      }
    }
  }

  /** Outside DEGRADED the cause set should be empty; the code meets that exactly on the runs that
      did not leave a DEGRADED session behind: the transition to IDLE does not clear the set. */
  lemma {:induction false} LeftoverCausesExactly(cs: seq<Call>)
    requires AllIssued(cs)
    ensures var m := ApplyAll(INITIAL, cs);
            m.system != Degraded ==>
              (m.causes != {} <==> DegradedSessionLeftBehind(Systems(INITIAL, cs)))
    ensures ApplyAll(INITIAL, cs).system == Degraded ==>
              !DegradedSessionLeftBehind(Systems(INITIAL, cs))
  {
    if cs != [] {
      var front, c := cs[..|cs| - 1], cs[|cs| - 1];
      LeftoverCausesExactly(front);
      ReachableIsCoherent(front);
      ReachableIsCoherent(cs);
      var before := ApplyAll(INITIAL, front);
      LeftBehindStep(Systems(INITIAL, front), Apply(before, c).system);
      CausesMove(before, c);
    }
  }

  /** How one call moves the cause set, seen from the SYSTEM states before and after it. */
  lemma CausesMove(m: Layers, c: Call)
    requires Coherent(m) && Issued(c)
    ensures var r := Apply(m, c);
            && (r.system == SafeMode ==> r.causes == {})
            && (m.system == Degraded && r.system == Connected ==> r.causes == {})
            && (m.system == Degraded && r.system == Idle ==> r.causes == m.causes && r.causes != {})
            && (m.system != Degraded && r.system != Degraded && r.system != SafeMode ==> r.causes == m.causes)
            && (m.system == Degraded ==>
                  r.system == Degraded || r.system == Connected || r.system == Idle || r.system == SafeMode)
  {
  }

  /** A report that makes the source a cause. */
  function Failure(source: Cause): Call {
    match source
    case MediaCause => Media(MediaFailed)
    case TelemetryCause => Telemetry(false)
  }

  /** Such a run, for either source: it fails, the DEGRADED session ends, and the next session starts
      CONNECTED with the old cause still active. */
  lemma LeftoverCauseIsReachable(source: Cause)
    ensures var ending := [System(Connecting), System(Authenticated), Connect, Failure(source), System(Idle)];
            var m := ApplyAll(INITIAL, ending + [System(Connecting), System(Authenticated), Connect]);
            m.system == Connected && m.causes == {source}
  {
    var start := [System(Connecting), System(Authenticated), Connect];
    var ending := start + [Failure(source), System(Idle)];
    assert ending == [System(Connecting), System(Authenticated), Connect, Failure(source), System(Idle)];
    ApplyThree(INITIAL, start);
    var m := Apply(Apply(ApplyAll(INITIAL, start), Failure(source)), System(Idle));
    assert ending[..4][..3] == start;
    assert m == ApplyAll(INITIAL, ending);
    ApplyAppend(INITIAL, ending, start);
    ApplyThree(m, start);
  }

  lemma ApplyThree(m: Layers, cs: seq<Call>)
    requires |cs| == 3
    ensures ApplyAll(m, cs) == Apply(Apply(Apply(m, cs[0]), cs[1]), cs[2])
  {
    assert cs[..2][..1][..0] == [] && cs[..2][1] == cs[1] && cs[..2][..1][0] == cs[0];
    assert ApplyAll(m, cs[..2][..1]) == Apply(m, cs[0]);
  }

  lemma {:induction false} ApplyAppend(m: Layers, cs: seq<Call>, ds: seq<Call>)
    ensures ApplyAll(m, cs + ds) == ApplyAll(ApplyAll(m, cs), ds)
  {
    if ds == [] {
      assert cs + ds == cs;
    } else {
      assert (cs + ds)[..|cs + ds| - 1] == cs + ds[..|ds| - 1];
      ApplyAppend(m, cs, ds[..|ds| - 1]);
    }
  }

  // ----- DEGRADED is decided by the last decisive report of each source -----

  predicate IsReport(c: Call) {
    c.Media? || c.Telemetry?
  }

  predicate AllReports(cs: seq<Call>) {
    forall i | 0 <= i < |cs| :: IsReport(cs[i])
  }

  predicate Bad(c: Call, source: Cause) {
    match source
    case MediaCause => c == Media(MediaFailed) || c == Media(MediaDegraded)
    case TelemetryCause => c == Telemetry(false)
  }

  predicate Good(c: Call, source: Cause) {
    match source
    case MediaCause => c == Media(MediaConnected)
    case TelemetryCause => c == Telemetry(true)
  }

  /** The last decisive report of the source is a bad one. */
  ghost predicate Outstanding(cs: seq<Call>, source: Cause) {
    exists i :: 0 <= i < |cs| && Bad(cs[i], source) && forall j | i < j < |cs| :: !Good(cs[j], source)
  }

  lemma OutstandingStep(cs: seq<Call>, c: Call, source: Cause)
    ensures Outstanding(cs + [c], source) <==>
              Bad(c, source) || (Outstanding(cs, source) && !Good(c, source))
  {
    var longer := cs + [c];
    if Bad(c, source) {
      assert Bad(longer[|cs|], source);
    } else if Outstanding(cs, source) && !Good(c, source) {
      var i :| 0 <= i < |cs| && Bad(cs[i], source) && forall j | i < j < |cs| :: !Good(cs[j], source);
      assert Bad(longer[i], source);
    }
    if Outstanding(longer, source) {
      var i :| 0 <= i < |longer| && Bad(longer[i], source)
               && forall j | i < j < |longer| :: !Good(longer[j], source);
      if i < |cs| {
        assert !Good(longer[|cs|], source);
        assert forall j | i < j < |cs| :: !Good(cs[j], source) by {
          forall j | i < j < |cs| ensures !Good(cs[j], source) {
            assert cs[j] == longer[j];
          }
        }
      }
    }
  }

  /** From CONNECTED without causes, the active causes after any mix of reports are exactly the
      sources whose last decisive report was bad, and SYSTEM is DEGRADED iff there is one. */
  lemma {:induction false} ReportsDecide(m: Layers, cs: seq<Call>)
    requires m.system == Connected && m.control == ControlActive && m.causes == {} && AllReports(cs)
    ensures var r := ApplyAll(m, cs);
            && r.control == ControlActive && r.operator == m.operator
            && r.Drivable()
            && (forall source :: source in r.causes <==> Outstanding(cs, source))
            && (r.system == Degraded <==> r.causes != {})
  {
    if cs != [] {
      var front, c := cs[..|cs| - 1], cs[|cs| - 1];
      assert cs == front + [c];
      ReportsDecide(m, front);
      OutstandingStep(front, c, MediaCause);
      OutstandingStep(front, c, TelemetryCause);
      ReportStep(ApplyAll(m, front), c);
    }
  }

  lemma ReportStep(m: Layers, c: Call)
    requires m.Drivable() && m.control == ControlActive && (m.system == Degraded <==> m.causes != {})
    requires IsReport(c)
    ensures var r := Apply(m, c);
            && r.control == ControlActive && r.operator == m.operator && r.Drivable()
            && (forall source :: source in r.causes <==> Bad(c, source) || (source in m.causes && !Good(c, source)))
            && (r.system == Degraded <==> r.causes != {})
  {
    if c == Media(MediaFailed) || c == Media(MediaDegraded) {
      assert MediaCause in m.causes + {MediaCause};
    } else if c == Telemetry(false) {
      assert TelemetryCause in m.causes + {TelemetryCause};
    }
  }

  /** The reports of one source, in order. */
  function From(cs: seq<Call>, source: Cause): seq<Call> {
    if cs == [] then []
    else
      var c := cs[|cs| - 1];
      From(cs[..|cs| - 1], source)
      + if (source == MediaCause && c.Media?) || (source == TelemetryCause && c.Telemetry?) then [c] else []
  }

  lemma {:induction false} OutstandingOfSource(cs: seq<Call>, source: Cause)
    ensures Outstanding(cs, source) <==> Outstanding(From(cs, source), source)
  {
    if cs != [] {
      var front, c := cs[..|cs| - 1], cs[|cs| - 1];
      assert cs == front + [c];
      OutstandingOfSource(front, source);
      OutstandingStep(front, c, source);
      if (source == MediaCause && c.Media?) || (source == TelemetryCause && c.Telemetry?) {
        OutstandingStep(From(front, source), c, source);
      } else {
        assert From(cs, source) == From(front, source);
      }
    }
  }

  /** MEDIA is the last media report. */
  lemma {:induction false} MediaIsLastReport(m: Layers, cs: seq<Call>)
    requires AllReports(cs)
    ensures var own := From(cs, MediaCause);
            ApplyAll(m, cs).media == if own == [] then m.media
                                     else if own[|own| - 1].Media? then own[|own| - 1].report else m.media
  {
    if cs != [] {
      MediaIsLastReport(m, cs[..|cs| - 1]);
    }
  }

  /** The outcome depends on the per-source report sequences alone, never on their interleaving. */
  lemma InterleavingIsIrrelevant(m: Layers, cs: seq<Call>, ds: seq<Call>)
    requires m.system == Connected && m.control == ControlActive && m.causes == {}
    requires AllReports(cs) && AllReports(ds)
    requires From(cs, MediaCause) == From(ds, MediaCause)
    requires From(cs, TelemetryCause) == From(ds, TelemetryCause)
    ensures ApplyAll(m, cs) == ApplyAll(m, ds)
  {
    ReportsDecide(m, cs);
    ReportsDecide(m, ds);
    forall source
      ensures Outstanding(cs, source) <==> Outstanding(ds, source)
    {
      OutstandingOfSource(cs, source);
      OutstandingOfSource(ds, source);
    }
    MediaIsLastReport(m, cs);
    MediaIsLastReport(m, ds);
    assert ApplyAll(m, cs).causes == ApplyAll(m, ds).causes;
  }

  /** The law that the last decisive reports decide DEGRADED. */
  ghost predicate ReportsDecideAfter(m: Layers, cs: seq<Call>) {
    ApplyAll(m, cs).system == Degraded <==> exists source :: Outstanding(cs, source)
  }

  /** In CONNECTED the law holds for all report sequences exactly when no cause was left over from
      an earlier session. */
  lemma LawHoldsIffNoLeftover(m: Layers)
    requires m.system == Connected && m.control == ControlActive
    ensures m.causes == {} <==> forall cs: seq<Call> | AllReports(cs) :: ReportsDecideAfter(m, cs)
  {
    if m.causes == {} {
      forall cs: seq<Call> | AllReports(cs)
        ensures ReportsDecideAfter(m, cs)
      {
        ReportsDecide(m, cs);
      }
    } else if MediaCause in m.causes {
      StuckAfter(m, Telemetry(false), Telemetry(true), MediaCause);
    } else {
      var leftover :| leftover in m.causes;
      assert leftover.MediaCause? || leftover.TelemetryCause?;
      StuckAfter(m, Media(MediaFailed), Media(MediaConnected), leftover);
    }
  }

  /** A leftover cause keeps SYSTEM in DEGRADED after the other source failed and recovered. */
  lemma StuckAfter(m: Layers, bad: Call, good: Call, leftover: Cause)
    requires m.system == Connected && leftover in m.causes
    requires (bad, good, leftover) in {(Telemetry(false), Telemetry(true), MediaCause),
                                       (Media(MediaFailed), Media(MediaConnected), TelemetryCause)}
    ensures AllReports([bad, good]) && !ReportsDecideAfter(m, [bad, good])
  {
    var cs := [bad, good];
    assert cs[..1] == [bad] && [bad][..0] == [];
    assert ApplyAll(m, [bad]) == Apply(m, bad);
    assert leftover in ApplyAll(m, cs).causes;
    forall source
      ensures !Outstanding(cs, source)
    {
      OutstandingStep([bad], good, source);
      OutstandingStep([], bad, source);
      assert [] + [bad] == [bad] && [bad] + [good] == cs;
    }
  }
}
