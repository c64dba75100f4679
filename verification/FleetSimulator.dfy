/** The simulated fleet vehicle: it drives round its stations, covering a fraction of the remaining
    distance every tick, and charges at a station when its battery is low. Floats are reals. */
module FleetSimulator {
  datatype Station = Station(lat: real, lon: real)

  datatype Kind = Lastenrad | Lastenzug

  /** What one tick does: the fraction of the remaining distance covered, the battery drained while
      driving and gained while charging. */
  datatype Tuning = Tuning(speed: real, drain: real, charge: real)

  function TuningOf(kind: Kind): (p: Tuning)
    ensures Sensible(p)
  {
    match kind
    case Lastenrad => Tuning(0.08, 0.15, 0.6)
    case Lastenzug => Tuning(0.03, 0.08, 0.3)
  }

  const THRESHOLD := 0.00005
  const CHARGE_BELOW := 30.0

  /** Progress is made in every phase, and one tick does not drain a full battery below the charging
      level. */
  predicate Sensible(p: Tuning) {
    0.0 < p.speed < 1.0 && 0.0 < p.drain <= 100.0 - CHARGE_BELOW && 0.0 < p.charge
  }

  datatype Vehicle = Vehicle(battery: real, lat: real, lon: real, target: nat, charging: bool)

  predicate Proper(s: Vehicle, stations: seq<Station>) {
    0.0 <= s.battery <= 100.0 && s.target < |stations|
  }

  // ----- One tick -----

  function Abs(x: real): real { if x < 0.0 then -x else x }

  function Max(x: real, y: real): real { if x < y then y else x }

  /** The battery after one tick of driving. */
  function Drained(p: Tuning, battery: real): real { Max(battery - p.drain, 0.0) }

  /** The larger of the two coordinate distances. */
  function Distance(s: Vehicle, to: Station): (d: real)
    ensures d >= 0.0
  {
    Max(Abs(to.lat - s.lat), Abs(to.lon - s.lon))
  }

  /** A coordinate after covering the given fraction of the way to `to`. */
  function Toward(x: real, to: real, fraction: real): real { x + (to - x) * fraction }

  function Moved(p: Tuning, s: Vehicle, to: Station): Vehicle {
    s.(lat := Toward(s.lat, to.lat, p.speed), lon := Toward(s.lon, to.lon, p.speed), battery := Drained(p, s.battery))
  }

  function Ticked(p: Tuning, stations: seq<Station>, s: Vehicle): Vehicle
    requires Proper(s, stations)
  {
    var to := stations[s.target];
    if s.charging then
      if s.battery + p.charge >= 100.0 then s.(battery := 100.0, charging := false)
      else s.(battery := s.battery + p.charge)
    else
      var there := Moved(p, s, to);
      if Distance(there, to) >= THRESHOLD then there
      else if there.battery < CHARGE_BELOW then there.(lat := to.lat, lon := to.lon, charging := true)
      else there.(lat := to.lat, lon := to.lon, target := (s.target + 1) % |stations|)
  }

  class Simulator {
    const stations: seq<Station>
    const tuning: Tuning
    var battery: real
    var lat: real
    var lon: real
    var target: nat
    var charging: bool

    ghost function View(): Vehicle
      reads this
    {
      Vehicle(battery, lat, lon, target, charging)
    }

    ghost predicate Valid()
      reads this
    {
      Proper(View(), stations) && Sensible(tuning)
    }

    constructor (kind: Kind, stations: seq<Station>)
      requires |stations| >= 2
      ensures Valid() && this.stations == stations
      ensures tuning == if kind == Lastenrad then Tuning(0.08, 0.15, 0.6) else Tuning(0.03, 0.08, 0.3)
      ensures View() == Vehicle(90.0, stations[0].lat, stations[0].lon, 1, false)
    {
      this.stations, tuning := stations, TuningOf(kind);
      battery, lat, lon, target, charging := 90.0, stations[0].lat, stations[0].lon, 1, false;
    }

    /** Advances by one tick; `draw` is the random number that decides on an obstacle alert. */
    method Tick(draw: real) returns (alert: bool)
      requires Valid()
      modifies this
      ensures Valid() && View() == Ticked(tuning, stations, old(View()))
      ensures alert <==> !charging && draw < 0.005
    {
      var to := stations[target];
      if charging {
        battery := battery + tuning.charge;
        if battery >= 100.0 {
          battery, charging := 100.0, false;
        }
      } else {
        lat := Toward(lat, to.lat, tuning.speed);
        lon := Toward(lon, to.lon, tuning.speed);
        battery := battery - tuning.drain;
        if battery < 0.0 {
          battery := 0.0;
        }
        if Abs(to.lat - lat) < THRESHOLD && Abs(to.lon - lon) < THRESHOLD {
          lat, lon := to.lat, to.lon;
          if battery < CHARGE_BELOW {
            charging := true;
          } else {
            target := (target + 1) % |stations|;
          }
        }
      }
      alert := !charging && draw < 0.005;
    }
  }

  // ----- Every run is safe -----

  /** The vehicle after `n` ticks. */
  function After(p: Tuning, stations: seq<Station>, s: Vehicle, n: nat): (r: Vehicle)
    requires Sensible(p) && Proper(s, stations)
    ensures Proper(r, stations)
    decreases n
  {
    if n == 0 then s else After(p, stations, Ticked(p, stations, s), n - 1)
  }

  /** An axis-aligned box of coordinates. */
  datatype Box = Box(south: real, north: real, west: real, east: real)
  {
    predicate Holds(lat: real, lon: real) {
      south <= lat <= north && west <= lon <= east
    }

    predicate Encloses(stations: seq<Station>) {
      forall i | 0 <= i < |stations| :: Holds(stations[i].lat, stations[i].lon)
    }
  }

  lemma StaysAbove(low: real, x: real, to: real, fraction: real)
    requires low <= x && low <= to && 0.0 < fraction < 1.0
    ensures low <= Toward(x, to, fraction)
  {
    var a, b := x - low, to - low;
    assert a * (1.0 - fraction) >= 0.0 && b * fraction >= 0.0;
    assert Toward(x, to, fraction) - low == a * (1.0 - fraction) + b * fraction;
  }

  lemma StaysBelow(x: real, to: real, high: real, fraction: real)
    requires x <= high && to <= high && 0.0 < fraction < 1.0
    ensures Toward(x, to, fraction) <= high
  {
    var a, b := high - x, high - to;
    assert a * (1.0 - fraction) >= 0.0 && b * fraction >= 0.0;
    assert high - Toward(x, to, fraction) == a * (1.0 - fraction) + b * fraction;
  }

  /** The vehicle never leaves a box that encloses the stations, and its battery stays between 0 and
      100 per cent. */
  lemma {:induction false} StaysInBox(p: Tuning, stations: seq<Station>, s: Vehicle, n: nat, box: Box)
    requires Sensible(p) && Proper(s, stations) && box.Encloses(stations) && box.Holds(s.lat, s.lon)
    ensures var r := After(p, stations, s, n); box.Holds(r.lat, r.lon) && 0.0 <= r.battery <= 100.0
    decreases n
  {
    if n > 0 {
      var to := stations[s.target];
      StaysAbove(box.south, s.lat, to.lat, p.speed);
      StaysAbove(box.west, s.lon, to.lon, p.speed);
      StaysBelow(s.lat, to.lat, box.north, p.speed);
      StaysBelow(s.lon, to.lon, box.east, p.speed);
      StaysInBox(p, stations, Ticked(p, stations, s), n - 1, box);
    }
  }

  // ----- How long every phase takes -----

  /** The distance left after one tick of driving. */
  function Nearer(p: Tuning, d: real): real { d * (1.0 - p.speed) }

  lemma Fraction(x: real, k: real)
    requires x >= 0.0 && 0.0 < k < 1.0
    ensures 0.0 <= x * k <= x
  {
    assert x * (1.0 - k) >= 0.0;
    assert x * (1.0 - k) == x - x * k;
  }

  lemma RestOfTheWay(x: real, to: real, fraction: real)
    ensures to - Toward(x, to, fraction) == (to - x) * (1.0 - fraction)
  {
  }

  lemma TowardIsNearer(x: real, to: real, fraction: real)
    requires fraction < 1.0
    ensures Abs(to - Toward(x, to, fraction)) == Abs(to - x) * (1.0 - fraction)
  {
    calc {
      Abs(to - Toward(x, to, fraction));
      { RestOfTheWay(x, to, fraction); }
      Abs((to - x) * (1.0 - fraction));
      { ScaledAbs(to - x, 1.0 - fraction); }
      Abs(to - x) * (1.0 - fraction);
    }
  }

  lemma ScaledMax(x: real, y: real, k: real)
    requires k > 0.0
    ensures Max(x * k, y * k) == Max(x, y) * k
  {
    var gap := y - x;
    assert gap * k == y * k - x * k;
    assert gap > 0.0 <==> gap * k > 0.0;
  }

  lemma ScaledDistance(s: Vehicle, there: Vehicle, to: Station, k: real)
    requires k > 0.0
    requires Abs(to.lat - there.lat) == Abs(to.lat - s.lat) * k && Abs(to.lon - there.lon) == Abs(to.lon - s.lon) * k
    ensures Distance(there, to) == Distance(s, to) * k
  {
    ScaledMax(Abs(to.lat - s.lat), Abs(to.lon - s.lon), k);
  }

  lemma NearerInBoth(p: Tuning, s: Vehicle, there: Vehicle, to: Station)
    requires Sensible(p)
    requires Abs(to.lat - there.lat) == Nearer(p, Abs(to.lat - s.lat))
    requires Abs(to.lon - there.lon) == Nearer(p, Abs(to.lon - s.lon))
    ensures Distance(there, to) == Nearer(p, Distance(s, to))
  {
    ScaledDistance(s, there, to, 1.0 - p.speed);
  }

  lemma BothAreNearer(p: Tuning, s: Vehicle, to: Station)
    requires Sensible(p)
    ensures Abs(to.lat - Moved(p, s, to).lat) == Nearer(p, Abs(to.lat - s.lat))
    ensures Abs(to.lon - Moved(p, s, to).lon) == Nearer(p, Abs(to.lon - s.lon))
  {
    TowardIsNearer(s.lat, to.lat, p.speed);
    TowardIsNearer(s.lon, to.lon, p.speed);
  }

  lemma MovedIsNearer(p: Tuning, s: Vehicle, to: Station)
    requires Sensible(p)
    ensures Distance(Moved(p, s, to), to) == Nearer(p, Distance(s, to))
  {
    BothAreNearer(p, s, to);
    NearerInBoth(p, s, Moved(p, s, to), to);
  }

  lemma ScaledAbs(x: real, k: real)
    requires k > 0.0
    ensures Abs(x * k) == Abs(x) * k
  {
    if x < 0.0 {
      assert x * k < 0.0;
      assert (-x) * k == -(x * k);
    } else {
      assert x * k >= 0.0;
    }
  }

  /** While it has not arrived, a driving vehicle comes nearer by at least this much per tick. */
  function Stride(p: Tuning): (r: real)
    requires Sensible(p)
    ensures r > 0.0
  {
    THRESHOLD * p.speed
  }

  lemma StrideIsCovered(p: Tuning, d: real)
    requires Sensible(p) && Nearer(p, d) >= THRESHOLD
    ensures d >= THRESHOLD && Nearer(p, d) <= d - Stride(p)
  {
    ScaledAbs(d, 1.0 - p.speed);
    Fraction(Abs(d), 1.0 - p.speed);
    assert (d - THRESHOLD) * p.speed >= 0.0;
  }

  /** Whole steps of `unit` that fit into `x`. */
  function Steps(x: real, unit: real): nat
    requires unit > 0.0
  {
    if x / unit < 0.0 then 0 else (x / unit).Floor
  }

  lemma QuotientGap(x: real, y: real, unit: real, k: real)
    requires unit > 0.0 && y <= x - k * unit
    ensures y / unit <= x / unit - k
  {
    var gap := x / unit - y / unit - k;
    assert gap * unit == x - y - k * unit by {
      var u, v := x / unit, y / unit;
      assert u * unit == x && v * unit == y;
    }
    assert gap < 0.0 ==> gap * unit < 0.0;
  }

  lemma StepsShrink(x: real, y: real, unit: real)
    requires unit > 0.0 && 0.0 <= y <= x - unit
    ensures Steps(y, unit) < Steps(x, unit)
  {
    QuotientGap(x, y, unit, 1.0);
    QuotientGap(y, 0.0, unit, 0.0);
  }

  lemma StepsAreMonotone(x: real, y: real, unit: real)
    requires unit > 0.0 && y <= x
    ensures Steps(y, unit) <= Steps(x, unit)
  {
    QuotientGap(x, y, unit, 0.0);
  }

  /** Ticks of driving until arrival from distance `d`. */
  function ApproachTicks(p: Tuning, d: real): (k: nat)
    requires Sensible(p) && d >= 0.0
    ensures k >= 1
    decreases Steps(d, Stride(p))
  {
    if Nearer(p, d) < THRESHOLD then 1
    else
      StrideIsCovered(p, d);
      StepsShrink(d, Nearer(p, d), Stride(p));
      1 + ApproachTicks(p, Nearer(p, d))
  }

  /** Ticks of charging until the battery is full. */
  function ChargeTicks(p: Tuning, battery: real): (k: nat)
    requires Sensible(p) && battery <= 100.0
    ensures k >= 1
    decreases Steps(100.0 - battery, p.charge)
  {
    if battery + p.charge >= 100.0 then 1
    else
      StepsShrink(100.0 - battery, 100.0 - battery - p.charge, p.charge);
      1 + ChargeTicks(p, battery + p.charge)
  }

  /** The battery after `k` ticks of driving. */
  function DrainedBy(p: Tuning, battery: real, k: nat): (r: real)
    requires Sensible(p) && 0.0 <= battery <= 100.0
    ensures 0.0 <= r <= battery
    decreases k
  {
    if k == 0 then battery else DrainedBy(p, Drained(p, battery), k - 1)
  }

  /** Ticks until a driving vehicle leaves for the next station: the approach and, if the battery is
      low on arrival, a full charge and one more tick. */
  function DriveTicks(p: Tuning, d: real, battery: real): nat
    requires Sensible(p) && d >= 0.0 && 0.0 <= battery <= 100.0
  {
    var k := ApproachTicks(p, d);
    var left := DrainedBy(p, battery, k);
    if left < CHARGE_BELOW then k + ChargeTicks(p, left) + 1 else k
  }

  /** Ticks until the vehicle leaves for the next station. */
  function TicksLeft(p: Tuning, stations: seq<Station>, s: Vehicle): nat
    requires Sensible(p) && Proper(s, stations)
  {
    var d := Distance(s, stations[s.target]);
    if s.charging then ChargeTicks(p, s.battery) + DriveTicks(p, d, 100.0) else DriveTicks(p, d, s.battery)
  }

  // ----- Liveness -----

  lemma DepartsFromHere(p: Tuning)
    requires Sensible(p)
    ensures DriveTicks(p, 0.0, 100.0) == 1
  {
    assert Nearer(p, 0.0) == 0.0;
    assert DrainedBy(p, 100.0, 1) == DrainedBy(p, Drained(p, 100.0), 0);
  }

  /** `r` stands exactly at the station `s` was heading for, and heads for the next one. */
  predicate Departs(stations: seq<Station>, s: Vehicle, r: Vehicle)
    requires Proper(s, stations)
  {
    r.lat == stations[s.target].lat && r.lon == stations[s.target].lon && r.target == (s.target + 1) % |stations|
  }

  /** Every tick either departs, when it is due, or brings the departure one tick nearer. */
  lemma TickCountsDown(p: Tuning, stations: seq<Station>, s: Vehicle)
    requires Sensible(p) && Proper(s, stations)
    ensures var r := Ticked(p, stations, s);
            && Proper(r, stations)
            && (TicksLeft(p, stations, s) == 1 ==> Departs(stations, s, r))
            && (TicksLeft(p, stations, s) != 1 ==>
                  r.target == s.target && TicksLeft(p, stations, r) == TicksLeft(p, stations, s) - 1)
  {
    var to := stations[s.target];
    if !s.charging {
      MovedIsNearer(p, s, to);
      DepartsFromHere(p);
      var k := ApproachTicks(p, Distance(s, to));
      assert DrainedBy(p, s.battery, k) == DrainedBy(p, Drained(p, s.battery), k - 1);
    }
  }

  /** From every state the vehicle goes on to the next station at a computable tick and not before, and
      it leaves from exactly the station it was heading for. */
  lemma {:induction false} AdvancesExactly(p: Tuning, stations: seq<Station>, s: Vehicle, n: nat)
    requires Sensible(p) && Proper(s, stations)
    ensures TicksLeft(p, stations, s) > 0
    ensures n < TicksLeft(p, stations, s) ==> After(p, stations, s, n).target == s.target
    ensures n == TicksLeft(p, stations, s) ==> Departs(stations, s, After(p, stations, s, n))
    decreases n
  {
    if 0 < n <= TicksLeft(p, stations, s) {
      TickCountsDown(p, stations, s);
      var r := Ticked(p, stations, s);
      if TicksLeft(p, stations, s) != 1 {
        AdvancesExactly(p, stations, r, n - 1);
      }
    }
  }

  lemma {:induction false} ApproachIsBounded(p: Tuning, d: real)
    requires Sensible(p) && d >= 0.0
    ensures ApproachTicks(p, d) <= Steps(d, Stride(p)) + 1
    decreases Steps(d, Stride(p))
  {
    if Nearer(p, d) >= THRESHOLD {
      StrideIsCovered(p, d);
      StepsShrink(d, Nearer(p, d), Stride(p));
      ApproachIsBounded(p, Nearer(p, d));
    }
  }

  lemma {:induction false} ChargeIsBounded(p: Tuning, battery: real)
    requires Sensible(p) && battery <= 100.0
    ensures ChargeTicks(p, battery) <= Steps(100.0 - battery, p.charge) + 1
    decreases Steps(100.0 - battery, p.charge)
  {
    if battery + p.charge < 100.0 {
      StepsShrink(100.0 - battery, 100.0 - battery - p.charge, p.charge);
      ChargeIsBounded(p, battery + p.charge);
    }
  }

  /** The departure comes within an approach and two charges, each bounded by a division. */
  lemma TicksAreBounded(p: Tuning, stations: seq<Station>, s: Vehicle)
    requires Sensible(p) && Proper(s, stations)
    ensures TicksLeft(p, stations, s)
            <= Steps(Distance(s, stations[s.target]), Stride(p)) + 2 * Steps(100.0, p.charge) + 4
  {
    var d := Distance(s, stations[s.target]);
    var b := if s.charging then 100.0 else s.battery;
    var left := DrainedBy(p, b, ApproachTicks(p, d));
    ApproachIsBounded(p, d);
    ChargeIsBounded(p, s.battery);
    ChargeIsBounded(p, left);
    StepsAreMonotone(100.0, 100.0 - s.battery, p.charge);
    StepsAreMonotone(100.0, 100.0 - left, p.charge);
  }

  lemma NextIndex(t: nat, n: nat)
    requires t < n
    ensures (t + 1) % n == if t + 1 == n then 0 else t + 1
  {
  }

  lemma {:induction false} AfterSum(p: Tuning, stations: seq<Station>, s: Vehicle, m: nat, n: nat)
    requires Sensible(p) && Proper(s, stations)
    ensures After(p, stations, After(p, stations, s, m), n) == After(p, stations, s, m + n)
    decreases m
  {
    if m > 0 {
      AfterSum(p, stations, Ticked(p, stations, s), m - 1, n);
    }
  }

  /** From every state the vehicle stands at every station at some later tick. */
  lemma {:induction false} EveryStationIsReached(p: Tuning, stations: seq<Station>, s: Vehicle, i: nat) returns (n: nat)
    requires Sensible(p) && Proper(s, stations) && i < |stations|
    ensures n > 0 && var r := After(p, stations, s, n); r.lat == stations[i].lat && r.lon == stations[i].lon
    decreases if s.target <= i then i - s.target else |stations| - s.target + i
  {
    n := TicksLeft(p, stations, s);
    AdvancesExactly(p, stations, s, n);
    if s.target != i {
      var r := After(p, stations, s, n);
      NextIndex(s.target, |stations|);
      var m := EveryStationIsReached(p, stations, r, i);
      AfterSum(p, stations, s, n, m);
      n := n + m;
    }
  }

  // ----- The counts in closed form -----

  function Power(x: real, k: nat): real { if k == 0 then 1.0 else x * Power(x, k - 1) }

  lemma {:induction false} PowerOfFraction(x: real, k: nat)
    requires 0.0 < x < 1.0
    ensures 0.0 < Power(x, k) <= 1.0
  {
    if k > 0 {
      PowerOfFraction(x, k - 1);
      Fraction(Power(x, k - 1), x);
    }
  }

  lemma Regroup(d: real, x: real, w: real)
    ensures d * (x * w) == (d * x) * w
  {
  }

  lemma ScaledDown(x: real, k: real)
    requires x >= 0.0 && 0.0 < k <= 1.0
    ensures x * k <= x
  {
    assert x * (1.0 - k) >= 0.0;
    assert x * (1.0 - k) == x - x * k;
  }

  /** The approach takes the least number of ticks that brings the distance below the threshold. */
  lemma {:induction false} ApproachIsLeast(p: Tuning, d: real, k: nat)
    requires Sensible(p) && d >= 0.0 && k > 0
    ensures ApproachTicks(p, d) <= k <==> d * Power(1.0 - p.speed, k) < THRESHOLD
    decreases k
  {
    var x := 1.0 - p.speed;
    var less, w := Nearer(p, d), Power(x, k - 1);
    assert less >= 0.0;
    assert d * Power(x, k) == less * w by { Regroup(d, x, w); }
    assert less < THRESHOLD ==> less * w < THRESHOLD by {
      PowerOfFraction(x, k - 1);
      ScaledDown(less, w);
    }
    if less >= THRESHOLD && k > 1 {
      ApproachIsLeast(p, less, k - 1);
    }
  }

  /** Charging takes the least number of ticks that fills the battery. */
  lemma {:induction false} ChargeIsLeast(p: Tuning, battery: real, k: nat)
    requires Sensible(p) && battery <= 100.0 && k > 0
    ensures ChargeTicks(p, battery) <= k <==> battery + k as real * p.charge >= 100.0
    decreases k
  {
    assert k as real * p.charge == (k - 1) as real * p.charge + p.charge;
    assert (k - 1) as real * p.charge >= 0.0;
    if battery + p.charge < 100.0 && k > 1 {
      ChargeIsLeast(p, battery + p.charge, k - 1);
    }
  }

  /** Driving drains the battery linearly, down to empty. */
  lemma {:induction false} DrainIsLinear(p: Tuning, battery: real, k: nat)
    requires Sensible(p) && 0.0 <= battery <= 100.0
    ensures DrainedBy(p, battery, k) == Max(battery - k as real * p.drain, 0.0)
    decreases k
  {
    if k > 0 {
      assert k as real * p.drain == (k - 1) as real * p.drain + p.drain;
      assert (k - 1) as real * p.drain >= 0.0;
      DrainIsLinear(p, Drained(p, battery), k - 1);
    }
  }
}
