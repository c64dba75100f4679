/** Threshold alerts from a vehicle's own battery readings, with hysteresis: the tier of a vehicle is
    two independent Schmitt triggers on its own readings. */
module AlertEngine {
  import opened Common

  const WARNING_BELOW := 20.0
  const WARNING_CLEAR := 25.0
  const CRITICAL_BELOW := 10.0
  const CRITICAL_CLEAR := 15.0

  /** Ordered worst-last. */
  datatype Tier = Normal | Warning | Critical {
    function Rank(): nat {
      match this
      case Normal => 0
      case Warning => 1
      case Critical => 2
    }
  }

  function BatteryTier(pct: real, current: Tier): Tier {
    match current
    case Critical =>
      if pct < CRITICAL_CLEAR then Critical else if pct < WARNING_CLEAR then Warning else Normal
    case Warning =>
      if pct < CRITICAL_BELOW then Critical else if pct < WARNING_CLEAR then Warning else Normal
    case Normal =>
      if pct < CRITICAL_BELOW then Critical else if pct < WARNING_BELOW then Warning else Normal
  }

  /** A status report; a vehicle that has not reported telemetry yet has no reading. */
  datatype Status = Status(vehicle: VehicleId, pct: Option<real>)

  type Tiers = map<VehicleId, Tier>

  function TierOf(tiers: Tiers, v: VehicleId): Tier {
    if v in tiers then tiers[v] else Normal
  }

  function Evaluated(tiers: Tiers, s: Status): Tiers {
    if s.pct.None? then tiers else tiers[s.vehicle := BatteryTier(s.pct.value, TierOf(tiers, s.vehicle))]
  }

  /** The tier an alert is raised for, if one is. */
  function Raised(tiers: Tiers, s: Status): Option<Tier> {
    if s.pct.None? then None
    else
      var current := TierOf(tiers, s.vehicle);
      var next := BatteryTier(s.pct.value, current);
      if next.Rank() <= current.Rank() then None else Some(next)
  }

  class Engine {
    var tier: Tiers

    constructor ()
      ensures tier == map[]
    {
      tier := map[];
    }

    method Evaluate(s: Status) returns (alert: Option<Tier>)
      modifies this
      ensures tier == Evaluated(old(tier), s)
      ensures alert == Raised(old(tier), s)
    {
      if s.pct.None? {
        return None;
      }
      var current := if s.vehicle in tier then tier[s.vehicle] else Normal;
      var next := BatteryTier(s.pct.value, current);
      tier := tier[s.vehicle := next];
      if next.Rank() <= current.Rank() {
        return None;
      }
      alert := Some(next);
    }
  }

  // ----- Runs -----

  function After(ss: seq<Status>): Tiers {
    if ss == [] then map[] else Evaluated(After(ss[..|ss| - 1]), ss[|ss| - 1])
  }

  /** The readings of one vehicle, in order. */
  function Own(ss: seq<Status>, v: VehicleId): seq<real> {
    if ss == [] then []
    else
      var last := ss[|ss| - 1];
      Own(ss[..|ss| - 1], v) + if last.vehicle == v && last.pct.Some? then [last.pct.value] else []
  }

  /** Some reading was below `enter` and none since has reached `clear`. */
  ghost predicate Latched(xs: seq<real>, enter: real, clear: real) {
    exists i :: 0 <= i < |xs| && xs[i] < enter && forall j | i < j < |xs| :: xs[j] < clear
  }

  lemma LatchedStep(xs: seq<real>, x: real, enter: real, clear: real)
    requires enter <= clear
    ensures Latched(xs + [x], enter, clear) <==> x < enter || (Latched(xs, enter, clear) && x < clear)
  {
    var ys := xs + [x];
    if x < enter {
      assert ys[|xs|] < enter;
    } else if Latched(xs, enter, clear) && x < clear {
      var i :| 0 <= i < |xs| && xs[i] < enter && forall j | i < j < |xs| :: xs[j] < clear;
      assert ys[i] < enter && forall j | i < j < |ys| :: ys[j] < clear;
    }
    if Latched(ys, enter, clear) {
      var i :| 0 <= i < |ys| && ys[i] < enter && forall j | i < j < |ys| :: ys[j] < clear;
      if i < |xs| {
        assert ys[|xs|] < clear;
        assert xs[i] < enter && forall j | i < j < |xs| :: xs[j] < clear by {
          assert forall j | 0 <= j < |xs| :: xs[j] == ys[j];
        }
      }
    }
  }

  /** The tier is what two independent triggers on the readings say. */
  ghost predicate Decides(xs: seq<real>, tier: Tier) {
    && (tier == Critical <==> Latched(xs, 10.0, 15.0))
    && (tier != Normal <==> Latched(xs, 20.0, 25.0))
  }

  lemma DecidesStep(xs: seq<real>, tier: Tier, x: real)
    requires Decides(xs, tier)
    ensures Decides(xs + [x], BatteryTier(x, tier))
  {
    LatchedStep(xs, x, CRITICAL_BELOW, CRITICAL_CLEAR);
    LatchedStep(xs, x, WARNING_BELOW, WARNING_CLEAR);
  }

  /** The triggers see the vehicle's own readings only, however the readings of other vehicles are
      interleaved with them. */
  lemma {:induction false} TierIsTwoTriggers(ss: seq<Status>, v: VehicleId)
    ensures Decides(Own(ss, v), TierOf(After(ss), v))
  {
    if ss != [] {
      var front, last := ss[..|ss| - 1], ss[|ss| - 1];
      TierIsTwoTriggers(front, v);
      if last.vehicle == v && last.pct.Some? {
        DecidesStep(Own(front, v), TierOf(After(front), v), last.pct.value);
      } else {
        assert Own(ss, v) == Own(front, v);
      }
    }
  }

  /** The alert raised by status i. */
  function AlertAt(ss: seq<Status>, i: nat): Option<Tier>
    requires i < |ss|
  {
    Raised(After(ss[..i]), ss[i])
  }

  predicate Reading(s: Status, v: VehicleId, atLeast: real) {
    s.vehicle == v && s.pct.Some? && s.pct.value >= atLeast
  }

  /** A tier persists while no reading reaches its clear threshold. */
  lemma {:induction false} TierPersists(ss: seq<Status>, v: VehicleId, i: nat, j: nat, critical: bool)
    requires i <= j <= |ss|
    requires if critical then TierOf(After(ss[..i]), v) == Critical else TierOf(After(ss[..i]), v) != Normal
    requires forall k | i <= k < j :: !Reading(ss[k], v, if critical then CRITICAL_CLEAR else WARNING_CLEAR)
    ensures if critical then TierOf(After(ss[..j]), v) == Critical else TierOf(After(ss[..j]), v) != Normal
  {
    if i < j {
      TierPersists(ss, v, i, j - 1, critical);
      assert ss[..j][..j - 1] == ss[..j - 1];
    }
  }

  /** Two alerts of the same tier for the same vehicle are separated by a reading that cleared it:
      at least 25 % between two warnings, at least 15 % between two critical alerts. */
  lemma AlertsAreSeparated(ss: seq<Status>, i: nat, j: nat, tier: Tier)
    requires i < j < |ss| && ss[i].vehicle == ss[j].vehicle
    requires AlertAt(ss, i) == Some(tier) && AlertAt(ss, j) == Some(tier)
    ensures exists k :: i < k < j
              && Reading(ss[k], ss[i].vehicle, if tier == Critical then 15.0 else 25.0)
  {
    var v, critical := ss[i].vehicle, tier == Critical;
    var clear := if critical then CRITICAL_CLEAR else WARNING_CLEAR;
    assert ss[..i + 1][..i] == ss[..i];
    assert TierOf(After(ss[..i + 1]), v) == tier;
    if forall k | i + 1 <= k < j :: !Reading(ss[k], v, clear) {
      TierPersists(ss, v, i + 1, j, critical);
      assert false;
    }
  }

  /** An alert is raised exactly when a vehicle's own reading makes its tier worse, and for the tier that it is
      then: critical when the vehicle becomes critical, a warning when it leaves normal without becoming so. */
  lemma AlertExactly(ss: seq<Status>, i: nat)
    requires i < |ss|
    ensures var v := ss[i].vehicle;
            var before, after := TierOf(After(ss[..i]), v), TierOf(After(ss[..i + 1]), v);
            && (AlertAt(ss, i) == Some(Critical) <==> before != Critical && after == Critical)
            && (AlertAt(ss, i) == Some(Warning) <==> before == Normal && after == Warning)
            && AlertAt(ss, i) != Some(Normal)
            && (ss[i].pct.None? ==> after == before)
  {
    assert ss[..i + 1][..i] == ss[..i];
  }
}
