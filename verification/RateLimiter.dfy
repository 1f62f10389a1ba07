/** The per-address request limit: a fixed window of a minute for each address,
    and a sweep of old buckets every ten thousand requests. */
module RateLimiter {

  type Ip = string

  datatype RateBucket = RateBucket(count: int, windowStart: int)

  type Buckets = map<Ip, RateBucket>

  const RATE_LIMIT_MAX := 200
  const RATE_LIMIT_WINDOW := 60
  const STALE_BUCKET_TTL := RATE_LIMIT_WINDOW * 2
  const EVICTION_INTERVAL_REQUESTS := 10_000

  /** `g_rateBuckets[ip]` makes an empty bucket of the epoch. */
  function BucketOf(buckets: Buckets, ip: Ip): RateBucket {
    if ip in buckets then buckets[ip] else RateBucket(0, 0)
  }

  function Refreshed(b: RateBucket, now: int): RateBucket {
    if now - b.windowStart >= RATE_LIMIT_WINDOW then RateBucket(0, now) else b
  }

  function Counted(b: RateBucket): RateBucket {
    if b.count >= RATE_LIMIT_MAX then b else b.(count := b.count + 1)
  }

  /** One request against the buckets, with no sweep. */
  function Visit(buckets: Buckets, ip: Ip, now: int): (Buckets, bool) {
    var b := Refreshed(BucketOf(buckets, ip), now);
    (buckets[ip := Counted(b)], b.count < RATE_LIMIT_MAX)
  }

  function Swept(buckets: Buckets, now: int): Buckets {
    map ip | ip in buckets && now - buckets[ip].windowStart <= STALE_BUCKET_TTL :: buckets[ip]
  }

  datatype Limiter = Limiter(buckets: Buckets, counter: int)

  predicate SweepDue(l: Limiter) {
    l.counter + 1 >= EVICTION_INTERVAL_REQUESTS
  }

  /** `rateLimitOK`. */
  function Check(l: Limiter, ip: Ip, now: int): (Limiter, bool) {
    var buckets := if SweepDue(l) then Swept(l.buckets, now) else l.buckets;
    var (visited, ok) := Visit(buckets, ip, now);
    (Limiter(visited, if SweepDue(l) then 0 else l.counter + 1), ok)
  }

  class IpRateLimiter {
    var rateBuckets: Buckets
    var evictionCounter: int

    function Contents(): Limiter
      reads this
    {
      Limiter(rateBuckets, evictionCounter)
    }

    constructor ()
      ensures Contents() == Limiter(map[], 0)
    {
      rateBuckets, evictionCounter := map[], 0;
    }

    method EvictStaleBucketsLocked(now: int)
      modifies this`rateBuckets
      ensures rateBuckets == Swept(old(rateBuckets), now)
    {
      var left := rateBuckets.Keys;
      while left != {}
        invariant left <= rateBuckets.Keys <= old(rateBuckets).Keys
        invariant forall ip :: ip in rateBuckets ==> rateBuckets[ip] == old(rateBuckets)[ip]
        invariant forall ip :: ip in old(rateBuckets) && ip !in left ==>
          (ip in rateBuckets <==> now - old(rateBuckets)[ip].windowStart <= STALE_BUCKET_TTL)
        decreases left
      {
        var ip :| ip in left;
        left := left - {ip};
        if now - rateBuckets[ip].windowStart > STALE_BUCKET_TTL {
          rateBuckets := rateBuckets - {ip};
        }
      }
    }

    method RateLimitOK(ip: Ip, now: int) returns (ok: bool)
      modifies this
      ensures (Contents(), ok) == Check(old(Contents()), ip, now)
    {
      evictionCounter := evictionCounter + 1;
      if evictionCounter >= EVICTION_INTERVAL_REQUESTS {
        evictionCounter := 0;
        EvictStaleBucketsLocked(now);
      }
      var b := if ip in rateBuckets then rateBuckets[ip] else RateBucket(0, 0);
      if now - b.windowStart >= RATE_LIMIT_WINDOW {
        b := RateBucket(0, now);
      }
      if b.count >= RATE_LIMIT_MAX {
        rateBuckets := rateBuckets[ip := b];
        return false;
      }
      rateBuckets := rateBuckets[ip := b.(count := b.count + 1)];
      return true;
    }
  }

  // ---- Runs ----

  datatype Call = Call(ip: Ip, now: int)

  function Limited(calls: seq<Call>): Limiter {
    if calls == [] then Limiter(map[], 0)
    else Check(Limited(calls[..|calls| - 1]), calls[|calls| - 1].ip, calls[|calls| - 1].now).0
  }

  /** Whether the last request of `calls` is admitted. */
  predicate Admits(calls: seq<Call>) {
    calls != [] && Check(Limited(calls[..|calls| - 1]), calls[|calls| - 1].ip, calls[|calls| - 1].now).1
  }

  /** The same limiter without sweeps. */
  function Unswept(calls: seq<Call>): Buckets {
    if calls == [] then map[]
    else Visit(Unswept(calls[..|calls| - 1]), calls[|calls| - 1].ip, calls[|calls| - 1].now).0
  }

  predicate AdmitsUnswept(calls: seq<Call>) {
    calls != [] && Visit(Unswept(calls[..|calls| - 1]), calls[|calls| - 1].ip, calls[|calls| - 1].now).1
  }

  function Clock(calls: seq<Call>): int {
    if calls == [] then 0 else calls[|calls| - 1].now
  }

  /** A clock that never goes back, from the epoch on. */
  predicate Timely(calls: seq<Call>) {
    calls == [] || (Timely(calls[..|calls| - 1]) && Clock(calls[..|calls| - 1]) <= Clock(calls))
  }

  // ---- The sweep is invisible ----

  /** A bucket the sweep has taken is one that the next request would start
      afresh anyway. */
  ghost predicate SameFrom(swept: RateBucket, kept: RateBucket, now: int) {
    || swept == kept
    || (swept == RateBucket(0, 0) && now >= RATE_LIMIT_WINDOW && now - kept.windowStart >= RATE_LIMIT_WINDOW)
  }

  ghost predicate Related(swept: Buckets, kept: Buckets, now: int) {
    && (forall ip :: SameFrom(BucketOf(swept, ip), BucketOf(kept, ip), now))
    && (forall ip :: 0 <= BucketOf(swept, ip).windowStart <= now && 0 <= BucketOf(kept, ip).windowStart <= now)
  }

  lemma SweepKeepsRelated(swept: Buckets, kept: Buckets, before: int, now: int)
    requires Related(swept, kept, before) && before <= now
    ensures Related(Swept(swept, now), kept, now)
  {
    forall ip ensures SameFrom(BucketOf(Swept(swept, now), ip), BucketOf(kept, ip), now) {
      assert SameFrom(BucketOf(swept, ip), BucketOf(kept, ip), before);
    }
  }

  lemma VisitKeepsRelated(swept: Buckets, kept: Buckets, ip: Ip, now: int)
    requires Related(swept, kept, now)
    ensures Related(Visit(swept, ip, now).0, Visit(kept, ip, now).0, now)
    ensures Visit(swept, ip, now).1 == Visit(kept, ip, now).1
  {
    assert SameFrom(BucketOf(swept, ip), BucketOf(kept, ip), now);
    var swept', kept' := Visit(swept, ip, now).0, Visit(kept, ip, now).0;
    forall other ensures SameFrom(BucketOf(swept', other), BucketOf(kept', other), now) {
      assert SameFrom(BucketOf(swept, other), BucketOf(kept, other), now);
    }
    forall other
      ensures 0 <= BucketOf(swept', other).windowStart <= now && 0 <= BucketOf(kept', other).windowStart <= now
    {
      assert 0 <= BucketOf(swept, other).windowStart <= now && 0 <= BucketOf(kept, other).windowStart <= now;
    }
  }

  lemma RelatedLater(swept: Buckets, kept: Buckets, before: int, now: int)
    requires Related(swept, kept, before) && before <= now
    ensures Related(swept, kept, now)
  {
    forall ip ensures SameFrom(BucketOf(swept, ip), BucketOf(kept, ip), now) {
      assert SameFrom(BucketOf(swept, ip), BucketOf(kept, ip), before);
    }
  }

  /** Whatever the traffic, every verdict is that of a limiter that never
      sweeps. */
  lemma {:induction false} SweepIsInvisible(calls: seq<Call>)
    requires Timely(calls)
    ensures Related(Limited(calls).buckets, Unswept(calls), Clock(calls))
    ensures Admits(calls) == AdmitsUnswept(calls)
    decreases |calls|
  {
    if calls != [] {
      var before, last := calls[..|calls| - 1], calls[|calls| - 1];
      SweepIsInvisible(before);
      var l := Limited(before);
      RelatedLater(l.buckets, Unswept(before), Clock(before), last.now);
      SweepKeepsRelated(l.buckets, Unswept(before), Clock(before), last.now);
      VisitKeepsRelated(if SweepDue(l) then Swept(l.buckets, last.now) else l.buckets, Unswept(before),
                        last.ip, last.now);
    }
  }

  /** `ip` asked at `from` or later. */
  ghost predicate AskedSince(calls: seq<Call>, ip: Ip, from: int) {
    exists k :: 0 <= k < |calls| && calls[k].ip == ip && calls[k].now >= from
  }

  lemma AskedMore(calls: seq<Call>, ip: Ip, from: int)
    requires calls != []
    requires AskedSince(calls[..|calls| - 1], ip, from) || (calls[|calls| - 1].ip == ip && Clock(calls) >= from)
    ensures AskedSince(calls, ip, from)
  {
    var before := calls[..|calls| - 1];
    if AskedSince(before, ip, from) {
      var k :| 0 <= k < |before| && before[k].ip == ip && before[k].now >= from;
      assert calls[k].ip == ip;
    } else {
      assert calls[|calls| - 1].ip == ip;
    }
  }

  /** A bucket is there for an address that has asked since its window began. */
  lemma {:induction false} BucketsAreAskedFor(calls: seq<Call>, ip: Ip)
    requires Timely(calls) && ip in Limited(calls).buckets
    ensures AskedSince(calls, ip, Limited(calls).buckets[ip].windowStart)
    decreases |calls|
  {
    var before, last := calls[..|calls| - 1], calls[|calls| - 1];
    var start := Limited(calls).buckets[ip].windowStart;
    if ip == last.ip {
      SweepIsInvisible(calls);
      assert BucketOf(Limited(calls).buckets, ip).windowStart <= Clock(calls);
      AskedMore(calls, ip, start);
    } else {
      BucketsAreAskedFor(before, ip);
      AskedMore(calls, ip, start);
    }
  }

  /** Right after a sweep the limiter keeps buckets only for addresses that have
      asked within the last two windows. */
  lemma SweptBucketsAreRecent(calls: seq<Call>, ip: Ip)
    requires Timely(calls) && calls != [] && SweepDue(Limited(calls[..|calls| - 1]))
    requires ip in Limited(calls).buckets
    ensures AskedSince(calls, ip, Clock(calls) - STALE_BUCKET_TTL)
  {
    BucketsAreAskedFor(calls, ip);
  }

  /** A request sweeps iff it is the ten-thousandth, counted on. */
  lemma {:induction false} SweepsEveryTenThousand(calls: seq<Call>)
    ensures Limited(calls).counter == |calls| % 10_000
    ensures SweepDue(Limited(calls)) <==> (|calls| + 1) % 10_000 == 0
    decreases |calls|
  {
    hide Visit, Swept;
    if calls != [] { SweepsEveryTenThousand(calls[..|calls| - 1]); }
  }

  // ---- How much gets through ----

  /** The requests of `ip` admitted from `lo` to `hi`. */
  function Admitted(calls: seq<Call>, ip: Ip, lo: int, hi: int): nat {
    if calls == [] then 0
    else
      Admitted(calls[..|calls| - 1], ip, lo, hi)
      + if Admits(calls) && calls[|calls| - 1].ip == ip && lo <= Clock(calls) <= hi then 1 else 0
  }

  lemma {:induction false} AdmittedSplits(calls: seq<Call>, ip: Ip, lo: int, mid: int, hi: int)
    requires lo <= mid <= hi + 1
    ensures Admitted(calls, ip, lo, hi) == Admitted(calls, ip, lo, mid - 1) + Admitted(calls, ip, mid, hi)
    decreases |calls|
  {
    if calls != [] {
      AdmittedSplits(calls[..|calls| - 1], ip, lo, mid, hi);
    }
  }

  /** Nothing is admitted before it comes. */
  lemma {:induction false} NoneBeyondClock(calls: seq<Call>, ip: Ip, lo: int, hi: int)
    requires Timely(calls) && lo > Clock(calls)
    ensures Admitted(calls, ip, lo, hi) == 0
    decreases |calls|
  {
    if calls != [] {
      NoneBeyondClock(calls[..|calls| - 1], ip, lo, hi);
    }
  }

  function AdmittedBefore(calls: seq<Call>, ip: Ip, x: int, end: int): nat {
    Admitted(calls, ip, x, end - 1)
  }

  function AdmittedInMinute(calls: seq<Call>, ip: Ip, x: int): nat {
    Admitted(calls, ip, x, x + RATE_LIMIT_WINDOW - 1)
  }

  /** The bucket counts the admissions of its window, of which none is later
      than a minute after its start; the minute before the window saw no more
      than a window's worth. */
  ghost predicate Measures(calls: seq<Call>, ip: Ip, b: RateBucket) {
    && 0 <= b.windowStart <= Clock(calls)
    && b.count == Admitted(calls, ip, b.windowStart, Clock(calls)) <= RATE_LIMIT_MAX
    && (forall x :: x > b.windowStart - RATE_LIMIT_WINDOW ==>
          AdmittedBefore(calls, ip, x, b.windowStart) <= RATE_LIMIT_MAX)
    && (forall x, hi :: x >= b.windowStart + RATE_LIMIT_WINDOW ==> Admitted(calls, ip, x, hi) == 0)
  }

  ghost predicate MinutesHold(calls: seq<Call>, ip: Ip) {
    forall x :: AdmittedInMinute(calls, ip, x) <= 2 * RATE_LIMIT_MAX
  }

  /** The time between the last request and now adds nothing. */
  lemma UpToNow(calls: seq<Call>, ip: Ip, lo: int, hi: int)
    requires Timely(calls) && lo <= Clock(calls) <= hi
    ensures Admitted(calls, ip, lo, hi) == Admitted(calls, ip, lo, Clock(calls))
  {
    AdmittedSplits(calls, ip, lo, Clock(calls) + 1, hi);
    NoneBeyondClock(calls, ip, Clock(calls) + 1, hi);
  }

  lemma {:induction false} Narrower(calls: seq<Call>, ip: Ip, lo: int, hi: int, lo': int, hi': int)
    requires lo <= lo' && hi' <= hi
    ensures Admitted(calls, ip, lo', hi') <= Admitted(calls, ip, lo, hi)
    decreases |calls|
  {
    if calls != [] {
      Narrower(calls[..|calls| - 1], ip, lo, hi, lo', hi');
    }
  }

  lemma {:induction false} LimitHolds(calls: seq<Call>, ip: Ip)
    requires Timely(calls)
    ensures Measures(calls, ip, BucketOf(Unswept(calls), ip)) && MinutesHold(calls, ip)
    decreases |calls|
  {
    hide Measures, Admitted, Admits, Limited, AdmitsUnswept, MinutesHold;
    if calls == [] {
      NoCalls(ip);
    } else {
      var before, now := calls[..|calls| - 1], Clock(calls);
      var b := BucketOf(Unswept(before), ip);
      LimitHolds(before, ip);
      SweepIsInvisible(calls);
      if calls[|calls| - 1].ip != ip {
        OtherRequest(calls, ip, b);
      } else {
        if now - b.windowStart >= RATE_LIMIT_WINDOW { FreshWindow(before, ip, b, now); }
        AdmitsWhileRoom(calls, ip);
        OwnRequest(calls, ip, b);
      }
      MinutesKept(calls, ip, BucketOf(Unswept(calls), ip));
    }
  }

  lemma NoCalls(ip: Ip)
    ensures Measures([], ip, RateBucket(0, 0)) && MinutesHold([], ip)
  {}

  lemma AdmitsWhileRoom(calls: seq<Call>, ip: Ip)
    requires calls != [] && calls[|calls| - 1].ip == ip && Admits(calls) == AdmitsUnswept(calls)
    ensures var b := Refreshed(BucketOf(Unswept(calls[..|calls| - 1]), ip), Clock(calls));
      Admits(calls) == (b.count < RATE_LIMIT_MAX) && BucketOf(Unswept(calls), ip) == Counted(b)
  {
    hide Limited;
  }

  lemma OtherRequest(calls: seq<Call>, ip: Ip, b: RateBucket)
    requires calls != [] && Timely(calls) && calls[|calls| - 1].ip != ip && Measures(calls[..|calls| - 1], ip, b)
    ensures Measures(calls, ip, b)
  {
    var before := calls[..|calls| - 1];
    UpToNow(before, ip, b.windowStart, Clock(calls));
    forall lo, hi ensures Admitted(calls, ip, lo, hi) == Admitted(before, ip, lo, hi) {}
    forall x | x > b.windowStart - RATE_LIMIT_WINDOW
      ensures AdmittedBefore(calls, ip, x, b.windowStart) <= RATE_LIMIT_MAX
    {
      assert AdmittedBefore(before, ip, x, b.windowStart) <= RATE_LIMIT_MAX;
    }
  }

  /** When a window starts, what came within the minute before it came in the
      window before. */
  lemma FreshWindow(before: seq<Call>, ip: Ip, b: RateBucket, now: int)
    requires Timely(before) && Clock(before) <= now && Measures(before, ip, b)
    requires now - b.windowStart >= RATE_LIMIT_WINDOW
    ensures Admitted(before, ip, now, now) == 0
    ensures forall x :: x > now - RATE_LIMIT_WINDOW ==> AdmittedBefore(before, ip, x, now) <= RATE_LIMIT_MAX
    ensures forall x, hi :: x >= now + RATE_LIMIT_WINDOW ==> Admitted(before, ip, x, hi) == 0
  {
    UpToNow(before, ip, b.windowStart, now);
    forall x | x > now - RATE_LIMIT_WINDOW ensures AdmittedBefore(before, ip, x, now) <= RATE_LIMIT_MAX {
      Narrower(before, ip, b.windowStart, now, x, now - 1);
    }
  }

  lemma OwnRequest(calls: seq<Call>, ip: Ip, was: RateBucket)
    requires calls != [] && Timely(calls) && calls[|calls| - 1].ip == ip
    requires var before, now := calls[..|calls| - 1], Clock(calls);
      && Measures(before, ip, was)
      && (now - was.windowStart >= RATE_LIMIT_WINDOW ==>
            && Admitted(before, ip, now, now) == 0
            && (forall x :: x > now - RATE_LIMIT_WINDOW ==> AdmittedBefore(before, ip, x, now) <= RATE_LIMIT_MAX)
            && (forall x, hi :: x >= now + RATE_LIMIT_WINDOW ==> Admitted(before, ip, x, hi) == 0))
      && Admits(calls) == (Refreshed(was, now).count < RATE_LIMIT_MAX)
    ensures Measures(calls, ip, Counted(Refreshed(was, Clock(calls))))
  {
    hide Limited, Admits;
    var before, now := calls[..|calls| - 1], Clock(calls);
    var b := Counted(Refreshed(was, now));
    UpToNow(before, ip, was.windowStart, now);
    forall x | x > b.windowStart - RATE_LIMIT_WINDOW
      ensures AdmittedBefore(calls, ip, x, b.windowStart) <= RATE_LIMIT_MAX
    {
      assert AdmittedBefore(before, ip, x, b.windowStart) <= RATE_LIMIT_MAX;
    }
    assert b.count == Admitted(calls, ip, b.windowStart, now);
    forall x, hi | x >= b.windowStart + RATE_LIMIT_WINDOW ensures Admitted(calls, ip, x, hi) == 0 {
      assert Admitted(before, ip, x, hi) == 0;
    }
  }

  /** A minute is the end of the window before and a part of this one. */
  lemma MinutesKept(calls: seq<Call>, ip: Ip, b: RateBucket)
    requires calls != [] && Timely(calls) && MinutesHold(calls[..|calls| - 1], ip) && Measures(calls, ip, b)
    ensures MinutesHold(calls, ip)
  {
    forall x ensures AdmittedInMinute(calls, ip, x) <= 2 * RATE_LIMIT_MAX {
      OneMinute(calls, ip, b, x);
    }
  }

  lemma OneMinute(calls: seq<Call>, ip: Ip, b: RateBucket, x: int)
    requires calls != [] && Timely(calls) && MinutesHold(calls[..|calls| - 1], ip) && Measures(calls, ip, b)
    ensures AdmittedInMinute(calls, ip, x) <= 2 * RATE_LIMIT_MAX
  {
    hide Admits;
    var now, end := Clock(calls), x + RATE_LIMIT_WINDOW - 1;
    if x <= now <= end {
      UpToNow(calls, ip, x, end);
      UpToNow(calls, ip, b.windowStart, end);
      if x < b.windowStart {
        AdmittedSplits(calls, ip, x, b.windowStart, end);
        assert AdmittedBefore(calls, ip, x, b.windowStart) <= RATE_LIMIT_MAX;
      } else {
        Narrower(calls, ip, b.windowStart, now, x, now);
      }
    } else {
      assert AdmittedInMinute(calls[..|calls| - 1], ip, x) <= 2 * RATE_LIMIT_MAX;
    }
  }

  /** In every run of requests no address gets more than 200 through in its
      window, nor more than 400 in any minute. */
  lemma NeverMoreThanTwoWindows(calls: seq<Call>, ip: Ip, x: int)
    requires Timely(calls)
    ensures Admitted(calls, ip, BucketOf(Unswept(calls), ip).windowStart, Clock(calls)) <= 200
    ensures Admitted(calls, ip, x, x + 59) <= 400
  {
    LimitHolds(calls, ip);
    assert AdmittedInMinute(calls, ip, x) <= 2 * RATE_LIMIT_MAX;
  }

  /** And none is refused without cause: its address has had 200 through within
      the minute. */
  lemma RefusedMeansFull(calls: seq<Call>)
    requires Timely(calls) && calls != [] && !Admits(calls)
    ensures Admitted(calls[..|calls| - 1], calls[|calls| - 1].ip, Clock(calls) - 59, Clock(calls)) >= 200
  {
    hide Admitted, Limited, Admits, AdmitsUnswept, MinutesHold;
    var before, ip, now := calls[..|calls| - 1], calls[|calls| - 1].ip, Clock(calls);
    var b := BucketOf(Unswept(before), ip);
    SweepIsInvisible(calls);
    AdmitsWhileRoom(calls, ip);
    LimitHolds(before, ip);
    Narrower(before, ip, now - 59, now, b.windowStart, Clock(before));
  }
}
