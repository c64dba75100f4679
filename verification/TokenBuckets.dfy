/** The command rate limiter: a bucket of `rate` tokens refilled at `rate` tokens per second.

    The bucket keeps two numbers. `Admissible` looks at the whole history instead: a call is
    admissible when no window that ends with it holds more than burst + rate * length accepted calls.
    The bucket decides every call exactly as the history does. */
module TokenBuckets {
  import opened Common

  const COMMANDS_PER_SECOND := 100.0

  datatype Bucket = Bucket(tokens: real, lastTick: Time)

  /** Tokens produced between two times: rate * (until - from). */
  function Produced(rate: real, from: Time, until: Time): real {
    rate * until - rate * from
  }

  function Refilled(b: Bucket, now: Time, rate: real): real {
    var filled := b.tokens + Produced(rate, b.lastTick, now);
    if filled > rate then rate else filled
  }

  predicate Allows(b: Bucket, now: Time, rate: real) {
    Refilled(b, now, rate) >= 1.0
  }

  function Taken(b: Bucket, now: Time, rate: real): Bucket {
    Bucket(Refilled(b, now, rate) - if Allows(b, now, rate) then 1.0 else 0.0, now)
  }

  // ----- The history -----

  datatype Call = Call(at: Time, accepted: bool)

  function Accepted(calls: seq<Call>, lo: nat, hi: nat): nat
    requires lo <= hi <= |calls|
  {
    if lo == hi then 0
    else Accepted(calls, lo, hi - 1) + if calls[hi - 1].accepted then 1 else 0
  }

  /** The start of window j: the bucket's creation (-1), an earlier call, or now. */
  function Opening(created: Time, calls: seq<Call>, now: Time, j: int): Time
    requires -1 <= j <= |calls|
  {
    if j == -1 then created else if j < |calls| then calls[j].at else now
  }

  /** How many more calls window j admits at time now. */
  function Room(created: Time, calls: seq<Call>, rate: real, now: Time, j: int): real
    requires -1 <= j <= |calls|
  {
    var since := if j == -1 then 0 else j;
    rate + Produced(rate, Opening(created, calls, now, j), now) - Accepted(calls, since, |calls|) as real
  }

  ghost predicate RoomFor(created: Time, calls: seq<Call>, rate: real, now: Time, x: real) {
    forall j | -1 <= j <= |calls| :: Room(created, calls, rate, now, j) >= x
  }

  /** Accepting one more call at `now` overfills no window. */
  ghost predicate Admissible(created: Time, calls: seq<Call>, rate: real, now: Time) {
    RoomFor(created, calls, rate, now, 1.0)
  }

  /** The bucket after a history of calls. */
  function Level(created: Time, calls: seq<Call>, rate: real): Bucket {
    if calls == [] then Bucket(rate, created)
    else
      var last := calls[|calls| - 1];
      Bucket(Refilled(Level(created, calls[..|calls| - 1], rate), last.at, rate)
             - if last.accepted then 1.0 else 0.0, last.at)
  }

  lemma AcceptedOfPrefix(calls: seq<Call>, n: nat, lo: nat, hi: nat)
    requires lo <= hi <= n <= |calls|
    ensures Accepted(calls[..n], lo, hi) == Accepted(calls, lo, hi)
  {
  }

  /** How the room of a window moves with one more call. */
  lemma RoomStep(created: Time, calls: seq<Call>, rate: real, now: Time, j: int)
    requires calls != [] && -1 <= j < |calls|
    ensures var last := calls[|calls| - 1];
            Room(created, calls, rate, now, j)
            == Room(created, calls[..|calls| - 1], rate, last.at, j)
               - (if last.accepted then 1.0 else 0.0) + Produced(rate, last.at, now)
  {
    var n := |calls| - 1;
    var since := if j == -1 then 0 else j;
    AcceptedOfPrefix(calls, n, since, n);
    assert Opening(created, calls[..n], calls[n].at, j) == Opening(created, calls, now, j);
  }

  /** The level of the bucket is the room of its tightest window. */
  lemma {:induction false} LevelIsTightestRoom(created: Time, calls: seq<Call>, rate: real, now: Time, x: real)
    ensures Refilled(Level(created, calls, rate), now, rate) >= x <==> RoomFor(created, calls, rate, now, x)
  {
    var n := |calls|;
    assert Room(created, calls, rate, now, n) == rate;
    if n == 0 {
      assert Room(created, calls, rate, now, -1) == rate + Produced(rate, created, now);
    } else {
      var front, last := calls[..n - 1], calls[n - 1];
      var shift := (if last.accepted then 1.0 else 0.0) - Produced(rate, last.at, now);
      LevelIsTightestRoom(created, front, rate, last.at, x + shift);
      forall j | -1 <= j < n
        ensures Room(created, calls, rate, now, j) >= x <==> Room(created, front, rate, last.at, j) >= x + shift
      {
        RoomStep(created, calls, rate, now, j);
      }
    }
  }

  lemma BucketDecides(created: Time, calls: seq<Call>, rate: real, now: Time)
    ensures Allows(Level(created, calls, rate), now, rate) <==> Admissible(created, calls, rate, now)
  {
    LevelIsTightestRoom(created, calls, rate, now, 1.0);
  }

  lemma LevelAfterCall(created: Time, calls: seq<Call>, rate: real, now: Time)
    ensures var b := Level(created, calls, rate);
            Level(created, calls + [Call(now, Allows(b, now, rate))], rate) == Taken(b, now, rate)
  {
    var longer := calls + [Call(now, Allows(Level(created, calls, rate), now, rate))];
    assert longer[..|calls|] == calls;
  }

  lemma ProducedIsProduct(rate: real, from: Time, until: Time)
    ensures Produced(rate, from, until) == (until - from) * rate == rate * (until - from)
  {
  }

  class TokenBucket {
    const rate: real
    var tokens: real
    var lastTick: Time
    ghost var created: Time
    ghost var calls: seq<Call>

    ghost function View(): Bucket
      reads this
    {
      Bucket(tokens, lastTick)
    }

    ghost predicate Valid()
      reads this
    {
      View() == Level(created, calls, rate)
    }

    constructor (ratePerSec: real, now: Time)
      ensures Valid() && rate == ratePerSec && created == now && calls == []
      ensures View() == Bucket(ratePerSec, now)
    {
      rate, tokens, lastTick := ratePerSec, ratePerSec, now;
      created, calls := now, [];
    }

    /** The bucket accepts a call exactly when the history of all earlier calls admits it. */
    method Allow(now: Time) returns (ok: bool)
      requires Valid()
      modifies this
      ensures Valid() && created == old(created) && calls == old(calls) + [Call(now, ok)]
      ensures ok <==> Admissible(created, old(calls), rate, now)
      ensures View() == Taken(old(View()), now, rate) && ok == Allows(old(View()), now, rate)
    {
      BucketDecides(created, calls, rate, now);
      LevelAfterCall(created, calls, rate, now);
      ok := Take(now);
      calls := calls + [Call(now, ok)];
    }

    method Take(now: Time) returns (ok: bool)
      modifies `tokens, `lastTick
      ensures ok == Allows(old(View()), now, rate) && View() == Taken(old(View()), now, rate)
    {
      ProducedIsProduct(rate, lastTick, now);
      tokens := tokens + (now - lastTick) * rate;
      lastTick := now;
      if tokens > rate {
        tokens := rate;
      }
      if tokens < 1.0 {
        return false;
      }
      tokens := tokens - 1.0;
      return true;
    }
  }

  // ----- What the limiter promises: no window is ever overfilled -----

  /** A history whose every decision is the bucket's. */
  ghost predicate Decided(created: Time, calls: seq<Call>, rate: real) {
    forall k | 0 <= k < |calls| :: calls[k].accepted <==> Admissible(created, calls[..k], rate, calls[k].at)
  }

  /** Accepted calls stamped within [from, until]. */
  function AcceptedWithin(calls: seq<Call>, from: Time, until: Time): nat {
    if calls == [] then 0
    else
      var last := calls[|calls| - 1];
      AcceptedWithin(calls[..|calls| - 1], from, until)
      + if last.accepted && from <= last.at <= until then 1 else 0
  }

  lemma {:induction false} CountFromFirst(calls: seq<Call>, from: Time, until: Time, first: nat)
    requires first <= |calls| && forall i | 0 <= i < first :: calls[i].at < from
    ensures AcceptedWithin(calls, from, until) <= Accepted(calls, first, |calls|)
  {
    if |calls| > 0 {
      var n := |calls| - 1;
      if first <= n {
        CountFromFirst(calls[..n], from, until, first);
        AcceptedOfPrefix(calls, n, first, n);
      } else {
        CountFromFirst(calls[..n], from, until, n);
      }
    }
  }

  lemma DecidedPrefix(created: Time, calls: seq<Call>, rate: real, n: nat)
    requires n <= |calls| && Decided(created, calls, rate)
    ensures Decided(created, calls[..n], rate)
  {
    forall k | 0 <= k < n
      ensures calls[..n][k].accepted <==> Admissible(created, calls[..n][..k], rate, calls[..n][k].at)
    {
      assert calls[..n][..k] == calls[..k];
    }
  }

  /** The window that opens with the first call at or after `from` has room for one more call. */
  lemma OpeningWindow(created: Time, calls: seq<Call>, rate: real, from: Time, until: Time, now: Time)
    returns (opening: Time)
    requires from <= now && Admissible(created, calls, rate, now)
    ensures opening >= from
    ensures AcceptedWithin(calls, from, until) as real + 1.0 <= rate + Produced(rate, opening, now)
  {
    var first := FirstAtOrAfter(calls, from);
    CountFromFirst(calls, from, until, first);
    opening := Opening(created, calls, now, first);
    assert Room(created, calls, rate, now, first) >= 1.0;
  }

  /** A window that ends with an accepted call holds at most burst + rate * length calls. */
  lemma WindowEndingInCall(created: Time, calls: seq<Call>, rate: real, from: Time, until: Time, now: Time)
    requires rate >= 0.0 && from <= now <= until && Admissible(created, calls, rate, now)
    ensures AcceptedWithin(calls, from, until) as real + 1.0 <= rate + rate * (until - from)
  {
    var opening := OpeningWindow(created, calls, rate, from, until, now);
    ProducedAtMost(rate, opening, now, until - from);
  }

  /** Any window of any length admits at most burst + rate * length calls. */
  lemma {:induction false} NoWindowOverfilled(created: Time, calls: seq<Call>, rate: real, from: Time, until: Time)
    requires rate >= 0.0 && from <= until && Decided(created, calls, rate)
    ensures AcceptedWithin(calls, from, until) as real <= rate + rate * (until - from)
  {
    if calls == [] {
      MulMonotone(rate, 0.0, until - from);
    } else {
      var n := |calls| - 1;
      var front, last := calls[..n], calls[n];
      if last.accepted && from <= last.at <= until {
        WindowEndingInCall(created, front, rate, from, until, last.at);
      } else {
        DecidedPrefix(created, calls, rate, n);
        NoWindowOverfilled(created, front, rate, from, until);
      }
    }
  }

  lemma ProducedAtMost(rate: real, from: Time, until: Time, length: real)
    requires rate >= 0.0 && until - from <= length
    ensures Produced(rate, from, until) <= rate * length
  {
    var slack := length - (until - from);
    assert rate * slack >= 0.0;
    assert rate * length == rate * (until - from) + rate * slack;
  }

  lemma MulMonotone(a: real, x: real, y: real)
    requires a >= 0.0 && x <= y
    ensures a * x <= a * y && (x == 0.0 ==> a * y >= 0.0)
  {
  }

  /** The first call at or after `from`, or the end of the history. */
  lemma FirstAtOrAfter(calls: seq<Call>, from: Time) returns (first: nat)
    ensures first <= |calls| && (first < |calls| ==> calls[first].at >= from)
    ensures forall i | 0 <= i < first :: calls[i].at < from
  {
    first := 0;
    while first < |calls| && calls[first].at < from
      invariant first <= |calls| && forall i | 0 <= i < first :: calls[i].at < from
    {
      first := first + 1;
    }
  }
}
