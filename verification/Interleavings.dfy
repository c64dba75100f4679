/** A session start and a SAFE_MODE recovery are scripts of several machine calls. The calls of
    other threads (watchdogs, media and telemetry reports, operator updates) may fall anywhere
    between them. This module decides the outcome of every such interleaving. */
module Interleavings {
  import opened StateMachine
  import opened StateMachineRuns

  datatype Script = SessionStart | Recovery

  function First(script: Script): SystemState {
    match script
    case SessionStart => Connecting
    case Recovery => Recovering
  }

  /** Where the script begins. */
  function Origin(script: Script): SystemState {
    match script
    case SessionStart => Idle
    case Recovery => SafeMode
  }

  function Calls(script: Script): seq<Call> {
    [System(First(script)), System(Authenticated), Connect, Operator(ActiveOperator)]
  }

  /** One entry of an interleaving: the script's own next call, or a call of another thread. */
  datatype Entry = Own | Other(call: Call)

  /** What other threads may do meanwhile: trigger SAFE_MODE, report, or set the OPERATOR layer. */
  predicate Interferes(c: Call) {
    c == System(SafeMode) || c.Media? || c.Telemetry? || c.Operator?
  }

  function OwnCount(es: seq<Entry>): (n: nat)
    ensures n <= |es|
  {
    if es == [] then 0
    else OwnCount(es[..|es| - 1]) + if es[|es| - 1].Own? then 1 else 0
  }

  predicate Interleaving(es: seq<Entry>) {
    && OwnCount(es) <= 4
    && forall i | 0 <= i < |es| :: es[i].Other? ==> Interferes(es[i].call)
  }

  function Execute(script: Script, m: Layers, es: seq<Entry>): Layers
    requires OwnCount(es) <= 4
  {
    if es == [] then m
    else
      var front, last := es[..|es| - 1], es[|es| - 1];
      var before := Execute(script, m, front);
      match last
      case Own => Apply(before, Calls(script)[OwnCount(front)])
      case Other(c) => Apply(before, c)
  }

  /** Entry k is an effective stop: a SAFE_MODE trigger after the script's first call, or the loss of
      the operator after the script's third. */
  predicate StopsAt(es: seq<Entry>, k: nat) {
    && k < |es|
    && (|| (es[k] == Other(System(SafeMode)) && OwnCount(es[..k]) >= 1)
        || (es[k] == Other(Operator(NoOperator)) && OwnCount(es[..k]) >= 3))
  }

  ghost predicate Stopped(es: seq<Entry>) {
    exists k: nat :: StopsAt(es, k)
  }

  lemma StoppedStep(es: seq<Entry>, e: Entry)
    ensures Stopped(es + [e]) <==> Stopped(es) || StopsAt(es + [e], |es|)
  {
    var longer := es + [e];
    if Stopped(es) {
      var k: nat :| StopsAt(es, k);
      assert longer[..k] == es[..k];
      assert StopsAt(longer, k);
    }
    if Stopped(longer) {
      var k: nat :| StopsAt(longer, k);
      if k < |es| {
        assert longer[..k] == es[..k];
        assert StopsAt(es, k);
      }
    }
  }

  /** SYSTEM at any point of an interleaving, from the number of own calls made and whether the
      script was stopped. */
  predicate Expected(script: Script, own: nat, stopped: bool, s: SystemState) {
    if own == 0 then s == Origin(script) && !stopped
    else if stopped then s == SafeMode
    else if own == 1 then s == First(script)
    else if own == 2 then s == Authenticated
    else s == Connected || s == Degraded
  }

  lemma OneOwnCall(script: Script, m: Layers, own: nat, stopped: bool)
    requires own < 4 && Expected(script, own, stopped, m.system)
    ensures Expected(script, own + 1, stopped, Apply(m, Calls(script)[own]).system)
  {
  }

  lemma OneOtherCall(script: Script, m: Layers, own: nat, stopped: bool, c: Call)
    requires own <= 4 && Expected(script, own, stopped, m.system) && Interferes(c)
    ensures var stops := (c == System(SafeMode) && own >= 1) || (c == Operator(NoOperator) && own >= 3);
            Expected(script, own, stopped || stops, Apply(m, c).system)
  {
  }

  lemma {:induction false} SystemDuring(script: Script, m: Layers, es: seq<Entry>)
    requires m.system == Origin(script) && Interleaving(es)
    ensures Expected(script, OwnCount(es), Stopped(es), Execute(script, m, es).system)
  {
    if es != [] {
      var front, last := es[..|es| - 1], es[|es| - 1];
      assert es == front + [last];
      SystemDuring(script, m, front);
      StoppedStep(front, last);
      assert es[..|front|] == front;
      var before := Execute(script, m, front);
      match last {
        case Own => OneOwnCall(script, before, OwnCount(front), Stopped(front));
        case Other(c) => OneOtherCall(script, before, OwnCount(front), Stopped(front), c);
      }
    }
  }

  /** A completed script ends in SAFE_MODE exactly when it was stopped, and otherwise with the
      vehicle drivable: a SAFE_MODE trigger after the first call is never lost. */
  lemma ScriptOutcome(script: Script, m: Layers, es: seq<Entry>)
    requires m.system == Origin(script) && Interleaving(es) && OwnCount(es) == 4
    ensures var r := Execute(script, m, es);
            && (r.system == SafeMode <==> Stopped(es))
            && (r.Drivable() <==> !Stopped(es))
  {
    SystemDuring(script, m, es);
  }

  /** A SAFE_MODE trigger anywhere after the first call survives whatever follows. */
  lemma TriggerIsNeverLost(script: Script, m: Layers, es: seq<Entry>, k: nat)
    requires m.system == Origin(script) && Interleaving(es) && OwnCount(es) == 4
    requires k < |es| && es[k] == Other(System(SafeMode)) && OwnCount(es[..k]) >= 1
    ensures Execute(script, m, es).system == SafeMode
  {
    assert StopsAt(es, k);
    ScriptOutcome(script, m, es);
  }

  /** Losing the operator is not caught that early: between the first and the third call the script
      overwrites it and the vehicle ends up drivable. */
  lemma EarlyOperatorLossIsOverwritten(script: Script, m: Layers)
    requires m.system == Origin(script)
    ensures var es := [Own, Own, Other(Operator(NoOperator)), Own, Own];
            && Interleaving(es) && OwnCount(es) == 4
            && Execute(script, m, es).system == Connected
            && Execute(script, m, es).operator == ActiveOperator
  {
    var es := [Own, Own, Other(Operator(NoOperator)), Own, Own];
    assert es[..4][..3][..2][..1][..0] == [];
    assert es[..4] == [Own, Own, Other(Operator(NoOperator)), Own];
    assert es[..4][..3] == [Own, Own, Other(Operator(NoOperator))];
    assert es[..4][..3][..2] == [Own, Own];
    assert es[..4][..3][..2][..1] == [Own];
    assert OwnCount([Own]) == 1 && OwnCount([Own, Own]) == 2;
    assert OwnCount(es[..4][..3]) == 2 && OwnCount(es[..4]) == 3 && OwnCount(es) == 4;
    var two := Execute(script, m, [Own, Own]);
    assert Execute(script, m, [Own]) == Apply(m, System(First(script)));
    assert two == Apply(Apply(m, System(First(script))), System(Authenticated));
    var three := Execute(script, m, es[..4][..3]);
    assert three == Apply(two, Operator(NoOperator));
    assert Execute(script, m, es[..4]) == Apply(three, Connect);
  }
}
