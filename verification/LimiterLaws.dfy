/** When the limiters' windows begin and end, in the times of the requests. */
module LimiterLaws {
  import opened Options
  import opened Identifiers
  import opened Arithmetic
  import opened RateLimit

  // ---- On Redis ----

  lemma {:induction false} DivideTwice(x: int, d: int)
    requires d > 0
    ensures x / 1_000_000_000 / d == x / (1_000_000_000 * d)
  {
    var (q, r) := (x / 1_000_000_000, x % 1_000_000_000);
    var (p, s) := (q / d, q % d);
    Division(q, d);
    Commutes(p, d);
    assert x == p * (1_000_000_000 * d) + (1_000_000_000 * s + r);
    QuotientAndRemainder(x, p, 1_000_000_000 * s + r, 1_000_000_000 * d);
  }

  lemma {:induction false} Commutes(p: int, d: int)
    ensures 1_000_000_000 * (p * d) == p * (1_000_000_000 * d)
  {
  }

  /** The buckets are as long as the window, in nanoseconds, and one follows the other from the epoch on. */
  lemma {:induction false} BucketsAreWindows(now: Time, seconds: int)
    requires seconds > 0
    ensures Bucket(now, seconds) == now / (1_000_000_000 * seconds)
  {
    DivideTwice(now, seconds);
  }

  /** One request counts itself in the counter of its key's bucket, unless that has expired, and goes through as long as
      the count is within the limit; the first one of a counter sets it to expire two windows later, and when Redis does
      not answer it goes through uncounted. */
  lemma {:induction false} CountsExactly(
    counters: map<(string, int), Counter>, key: string, limit: int, seconds: int, now: Time, redis: Redis)
    requires seconds > 0
    ensures var (counters', allowed) := Increment(counters, key, limit, seconds, now, redis);
      var bucket := (key, now / (1_000_000_000 * seconds));
      var there := bucket in counters
        && (counters[bucket].expires.None? || now < counters[bucket].expires.value);
      var count := if there then counters[bucket].count + 1 else 1;
      && (redis.Down? ==> allowed && counters' == counters)
      && (!redis.Down? ==>
        && (allowed <==> count <= limit)
        && bucket in counters' && counters' == counters[bucket := counters'[bucket]]
        && counters'[bucket].count == count
        && (count == 1 && redis.Up? ==> counters'[bucket].expires == Some(now + 2_000_000_000 * seconds))
        && (count > 1 ==> counters'[bucket].expires == counters[bucket].expires))
  {
    BucketsAreWindows(now, seconds);
    hide Bucket;
  }

  // ---- In memory ----

  /** The request that opened the last window so far. */
  ghost predicate Opener(calls: seq<Call>, windows: int, f: int) {
    && 0 <= f < |calls| && calls[f].window == windows
    && forall i :: 0 <= i < f ==> calls[i].window != windows
  }

  /** The last window expires its length after the request that opened it. */
  lemma {:induction false} ExpiresAfterItsOpener(times: seq<Time>, limit: int, window: int) returns (f: int)
    requires Ordered(times) && window >= 0 && times != []
    ensures var t := MemoryTrace(times, limit, window);
      |t.calls| == |times| && Opener(t.calls, t.windows, f) && t.cell.Cell? && t.cell.expires == times[f] + window
  {
    var init, now := times[..|times| - 1], times[|times| - 1];
    var before, t := MemoryTrace(init, limit, window), MemoryTrace(times, limit, window);
    MemoryTracePlaced(init, limit, window);
    MemoryTracePlaced(times, limit, window);
    if init == [] || t.windows > before.windows {
      f := |init|;
    } else {
      f := ExpiresAfterItsOpener(init, limit, window);
    }
  }

  /** A request opens a window exactly when it is the first of all or comes more than a window's length after the one
      that opened the last; otherwise it counts in that. */
  lemma {:induction false} OpensExactlyAfter(times: seq<Time>, limit: int, window: int) returns (f: int)
    requires Ordered(times) && window >= 0 && |times| > 1
    ensures var calls := MemoryTrace(times, limit, window).calls;
      var last := |times| - 1;
      && |calls| == |times| && 0 <= f < last && Opener(calls[..last], calls[last - 1].window, f)
      && (calls[last].window != calls[last - 1].window <==> times[last] > times[f] + window)
      && (calls[last].window == calls[last - 1].window || calls[last].window == calls[last - 1].window + 1)
  {
    var init := times[..|times| - 1];
    MemoryTracePlaced(times, limit, window);
    f := ExpiresAfterItsOpener(init, limit, window);
    LastIsLatest(init, limit, window);
  }

  lemma {:induction false} LastIsLatest(times: seq<Time>, limit: int, window: int)
    requires Ordered(times) && window >= 0 && times != []
    ensures var t := MemoryTrace(times, limit, window);
      |t.calls| == |times| && t.calls[|times| - 1].window == t.windows
  {
    MemoryTracePlaced(times[..|times| - 1], limit, window);
  }
}
