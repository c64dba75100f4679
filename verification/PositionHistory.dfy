/** A vehicle's driven route: position samples, throttled on write and pruned by age. The in-memory
    store looks at the last sample only; the SQL store looks for any recent sample. */
module PositionHistory {
  import opened Common

  /** Seconds. */
  const MIN_INTERVAL: Time := 10.0
  const RETENTION: Time := 2592000.0
  const MAX_SAMPLES := 259200

  datatype Sample = Sample(lat: real, lon: real, at: Time)

  /** Samples in order, any two at least the minimum interval apart. */
  predicate Spaced(points: seq<Sample>) {
    forall i, j | 0 <= i < j < |points| :: points[i].at + MIN_INTERVAL <= points[j].at
  }

  predicate NotAfter(points: seq<Sample>, now: Time) {
    forall i | 0 <= i < |points| :: points[i].at <= now
  }

  /** The in-memory throttle: the last sample is old enough. */
  predicate LastIsOld(points: seq<Sample>, now: Time) {
    points == [] || !(now - points[|points| - 1].at < MIN_INTERVAL)
  }

  /** The SQL throttle: there is no recent sample. */
  predicate NoneIsRecent(points: seq<Sample>, now: Time) {
    !exists i :: 0 <= i < |points| && points[i].at > now - MIN_INTERVAL
  }

  /** Every sample is at least ten seconds old. */
  predicate AllOld(points: seq<Sample>, now: Time) {
    forall i | 0 <= i < |points| :: points[i].at + 10.0 <= now
  }

  /** A sample that comes ten seconds after all others keeps them spaced. */
  lemma SampleKeepsSpaced(points: seq<Sample>, now: Time, s: Sample)
    requires Spaced(points) && AllOld(points, now) && now <= s.at
    ensures Spaced(points + [s]) && NotAfter(points + [s], s.at)
  {
  }

  /** On the contents the stores can have, the two throttles accept exactly the same samples. */
  lemma ThrottlesAgree(points: seq<Sample>, now: Time)
    requires Spaced(points)
    ensures LastIsOld(points, now) <==> NoneIsRecent(points, now)
    ensures LastIsOld(points, now) <==> AllOld(points, now)
  {
    if points != [] {
      var last := points[|points| - 1];
      assert forall i | 0 <= i < |points| :: points[i].at <= last.at;
    }
  }

  // ----- Pruning -----

  /** Whether a prune keeps `p`. The in-memory prune drops a sample lying exactly at the cutoff; the SQL
      prune (`inclusive`) keeps it. */
  predicate Keeps(p: Sample, cutoff: Time, inclusive: bool) {
    if inclusive then !(p.at < cutoff) else p.at > cutoff
  }

  /** The samples a prune keeps, in order. */
  function Kept(points: seq<Sample>, cutoff: Time, inclusive: bool): seq<Sample> {
    if points == [] then []
    else
      var last := points[|points| - 1];
      Kept(points[..|points| - 1], cutoff, inclusive) + if Keeps(last, cutoff, inclusive) then [last] else []
  }

  lemma {:induction false} KeptExactly(points: seq<Sample>, cutoff: Time, inclusive: bool)
    ensures forall p :: p in Kept(points, cutoff, inclusive) <==> p in points && Keeps(p, cutoff, inclusive)
  {
    if points != [] {
      var front, last := points[..|points| - 1], points[|points| - 1];
      KeptExactly(front, cutoff, inclusive);
      assert points == front + [last];
    }
  }

  lemma {:induction false} KeptIsSpaced(points: seq<Sample>, cutoff: Time, inclusive: bool)
    requires Spaced(points)
    ensures Spaced(Kept(points, cutoff, inclusive))
  {
    if points != [] {
      var front, last := points[..|points| - 1], points[|points| - 1];
      KeptIsSpaced(front, cutoff, inclusive);
      KeptExactly(front, cutoff, inclusive);
      var kept := Kept(front, cutoff, inclusive);
      forall i | 0 <= i < |kept|
        ensures kept[i].at + MIN_INTERVAL <= last.at
      {
        assert kept[i] in front;
      }
    }
  }

  lemma {:induction false} SpanOfSpaced(points: seq<Sample>)
    requires Spaced(points) && points != []
    ensures points[0].at + (|points| - 1) as real * MIN_INTERVAL <= points[|points| - 1].at
  {
    if |points| > 1 {
      var front := points[..|points| - 1];
      SpanOfSpaced(front);
    }
  }

  /** A prune keeps the store's invariant, and right after it a vehicle has at most 30 days' worth of
      samples (the SQL prune: one more, at the cutoff itself). */
  lemma PrunedIsBounded(points: seq<Sample>, now: Time, inclusive: bool)
    requires Spaced(points) && NotAfter(points, now)
    ensures var kept := Kept(points, now - RETENTION, inclusive);
            Spaced(kept) && NotAfter(kept, now) && |kept| <= 259200 + if inclusive then 1 else 0
  {
    var kept := Kept(points, now - RETENTION, inclusive);
    KeptIsSpaced(points, now - RETENTION, inclusive);
    KeptExactly(points, now - RETENTION, inclusive);
    forall i | 0 <= i < |kept|
      ensures now - RETENTION <= kept[i].at <= now
    {
      assert kept[i] in points;
    }
    if kept != [] {
      SpanOfSpaced(kept);
      assert Keeps(kept[0], now - RETENTION, inclusive) by { assert kept[0] in kept; }
    }
  }

  /** The two prunes agree exactly when no sample lies at the cutoff. */
  lemma {:induction false} PrunesAgreeExactly(points: seq<Sample>, cutoff: Time)
    ensures Kept(points, cutoff, false) == Kept(points, cutoff, true) <==> forall p | p in points :: p.at != cutoff
    ensures |Kept(points, cutoff, false)| <= |Kept(points, cutoff, true)|
  {
    if points != [] {
      var front, last := points[..|points| - 1], points[|points| - 1];
      PrunesAgreeExactly(front, cutoff);
      var a, b := Kept(front, cutoff, false), Kept(front, cutoff, true);
      assert forall p :: p in points <==> p in front || p == last by { assert points == front + [last]; }
      if last.at > cutoff {
        assert (a + [last])[..|a|] == a && (b + [last])[..|b|] == b;
        assert a + [last] == b + [last] ==> |a + [last]| == |b + [last]|;
      } else if last.at == cutoff {
        assert |a + []| < |b + [last]|;
        assert last in points;
      } else {
        assert a + [] == a && b + [] == b;
      }
    }
  }

  // ----- The store -----

  class Store {
    var samples: map<VehicleId, seq<Sample>>
    /** The latest time the store has seen. */
    ghost var clock: Time

    /** What every run of records and prunes keeps. */
    ghost predicate Valid()
      reads this
    {
      forall v | v in samples :: Spaced(samples[v]) && NotAfter(samples[v], clock)
    }

    constructor (now: Time)
      ensures Valid() && samples == map[] && clock == now
    {
      samples, clock := map[], now;
    }

    /** Appends a sample unless one is missing its position or comes too soon. The clock is read twice:
        when the throttle decides, and when the sample is stamped. */
    method RecordPosition(v: VehicleId, lat: Option<real>, lon: Option<real>, now: Time, stamp: Time)
      requires Valid() && clock <= now <= stamp
      modifies this
      ensures Valid() && clock == stamp
      ensures var points := if v in old(samples) then old(samples)[v] else [];
              samples == if lat.Some? && lon.Some? && AllOld(points, now)
                         then old(samples)[v := points + [Sample(lat.value, lon.value, stamp)]] else old(samples)
    {
      clock := stamp;
      if lat.None? || lon.None? {
        return;
      }
      var points := if v in samples then samples[v] else [];
      ThrottlesAgree(points, now);
      if |points| > 0 && now - points[|points| - 1].at < MIN_INTERVAL {
        return;
      }
      SampleKeepsSpaced(points, now, Sample(lat.value, lon.value, stamp));
      samples := samples[v := points + [Sample(lat.value, lon.value, stamp)]];
    }

    method PruneOne(points: seq<Sample>, cutoff: Time) returns (kept: seq<Sample>)
      ensures kept == Kept(points, cutoff, false)
    {
      kept := [];
      for i := 0 to |points|
        invariant kept == Kept(points[..i], cutoff, false)
      {
        assert points[..i + 1][..i] == points[..i];
        if points[i].at > cutoff {
          kept := kept + [points[i]];
        }
      }
      assert points[..|points|] == points;
    }

    /** Drops every sample older than the retention; afterwards no vehicle exceeds the bound. */
    method Prune(now: Time)
      requires Valid() && clock <= now
      modifies this
      ensures Valid() && clock == now && samples.Keys == old(samples.Keys)
      ensures forall v | v in samples :: samples[v] == Kept(old(samples)[v], now - RETENTION, false)
      ensures forall v | v in samples :: |samples[v]| <= MAX_SAMPLES
    {
      var rest := samples.Keys;
      clock := now;
      while rest != {}
        invariant rest <= samples.Keys == old(samples.Keys) && clock == now
        invariant forall v | v in samples ::
                    samples[v] == if v in rest then old(samples)[v] else Kept(old(samples)[v], now - RETENTION, false)
        decreases |rest|
      {
        var v :| v in rest;
        var kept := PruneOne(samples[v], now - RETENTION);
        samples := samples[v := kept];
        rest := rest - {v};
      }
      forall v | v in samples
        ensures Spaced(samples[v]) && NotAfter(samples[v], clock) && |samples[v]| <= MAX_SAMPLES
      {
        PrunedIsBounded(old(samples)[v], now, false);
      }
    }
  }
}
