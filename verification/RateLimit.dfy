/** The two fixed-window rate limiters: one in memory, whose windows start with a request, and one on Redis counters,
    whose windows are the same for everybody. */
module RateLimit {
  import opened Options
  import opened Identifiers
  import opened Arithmetic

  /** A request at some time, counted in some window, and whether it was let through. */
  datatype Call = Call(time: Time, window: int, allowed: bool)

  /** How many requests were let through at times from a to b. */
  function AllowedIn(calls: seq<Call>, a: Time, b: Time): nat {
    if calls == [] then 0
    else
      var c := calls[|calls| - 1];
      AllowedIn(calls[..|calls| - 1], a, b) + if c.allowed && a <= c.time <= b then 1 else 0
  }

  /** How many requests were let through in a window. */
  function AllowedOf(calls: seq<Call>, window: int): nat {
    if calls == [] then 0
    else
      var c := calls[|calls| - 1];
      AllowedOf(calls[..|calls| - 1], window) + if c.allowed && c.window == window then 1 else 0
  }

  function CallsOf(calls: seq<Call>, window: int): nat {
    if calls == [] then 0
    else CallsOf(calls[..|calls| - 1], window) + if calls[|calls| - 1].window == window then 1 else 0
  }

  /** What lies in two windows is let through at most as often as in both windows together. */
  lemma {:induction false} TwoWindows(calls: seq<Call>, a: Time, b: Time, w: int)
    requires forall i :: 0 <= i < |calls| && a <= calls[i].time <= b ==> w <= calls[i].window <= w + 1
    ensures AllowedIn(calls, a, b) <= AllowedOf(calls, w) + AllowedOf(calls, w + 1)
  {
    if calls != [] {
      TwoWindows(calls[..|calls| - 1], a, b, w);
    }
  }

  ghost predicate Ordered(times: seq<Time>) {
    forall i, j :: 0 <= i < j < |times| ==> times[i] <= times[j]
  }

  // ---- In memory ----

  /** What the limiter holds for one key: the count of the current window, and when the window expires. */
  datatype Cell = NoCell | Cell(count: int, expires: Time)

  function Next(cell: Cell, limit: int, window: int, now: Time): (Cell, bool) {
    if cell.NoCell? || now > cell.expires then (Cell(1, now + window), true)
    else (Cell(cell.count + 1, cell.expires), cell.count + 1 <= limit)
  }

  /** What a window lets through: its limit, but always its first request. */
  function Quota(limit: int): nat {
    if limit < 1 then 1 else limit
  }

  datatype Trace = Trace(cell: Cell, windows: int, calls: seq<Call>)

  /** The requests for one key at the given times, numbered by the windows that they open or fall into. */
  function MemoryTrace(times: seq<Time>, limit: int, window: int): Trace {
    if times == [] then Trace(NoCell, 0, [])
    else Extended(MemoryTrace(times[..|times| - 1], limit, window), limit, window, times[|times| - 1])
  }

  function Extended(t: Trace, limit: int, window: int, now: Time): Trace {
    var (cell, allowed) := Next(t.cell, limit, window, now);
    var windows := if t.cell.NoCell? || now > t.cell.expires then t.windows + 1 else t.windows;
    Trace(cell, windows, t.calls + [Call(now, windows, allowed)])
  }

  ghost predicate Counted(calls: seq<Call>, limit: int, w: int) {
    AllowedOf(calls, w) == Least(Quota(limit), CallsOf(calls, w))
  }

  /** The current window started a window's length before it expires; earlier requests are no later than that, and those
      of the last window but one more than a window's length before it. */
  ghost predicate Placed(t: Trace, times: seq<Time>, window: int) {
    && |t.calls| == |times| && (forall i :: 0 <= i < |times| ==>
      t.calls[i].time == times[i] && t.calls[i].window <= t.windows)
    && (t.cell.NoCell? <==> times == [])
    && (times != [] ==>
      var start := t.cell.expires - window;
      && t.cell.count == CallsOf(t.calls, t.windows) >= 1
      && start <= times[|times| - 1]
      && (forall i :: 0 <= i < |times| && t.calls[i].window < t.windows ==> times[i] <= start)
      && (forall i :: 0 <= i < |times| && t.calls[i].window + 1 < t.windows ==> times[i] + window < start))
  }

  lemma {:induction false} LaterWindowsEmpty(calls: seq<Call>, w: int)
    requires forall i :: 0 <= i < |calls| ==> calls[i].window < w
    ensures CallsOf(calls, w) == 0 && AllowedOf(calls, w) == 0
  {
    if calls != [] {
      LaterWindowsEmpty(calls[..|calls| - 1], w);
    }
  }

  lemma {:induction false} Appended(calls: seq<Call>, c: Call, w: int)
    ensures AllowedOf(calls + [c], w) == AllowedOf(calls, w) + if c.allowed && c.window == w then 1 else 0
    ensures CallsOf(calls + [c], w) == CallsOf(calls, w) + if c.window == w then 1 else 0
  {
  }

  lemma {:induction false} ExtendedCounted(t: Trace, times: seq<Time>, limit: int, window: int, now: Time, w: int)
    requires Placed(t, times, window) && Counted(t.calls, limit, w)
    ensures Counted(Extended(t, limit, window, now).calls, limit, w)
  {
    var t' := Extended(t, limit, window, now);
    Appended(t.calls, t'.calls[|t.calls|], w);
    LaterWindowsEmpty(t.calls, t.windows + 1);
  }

  lemma {:induction false} ExtendedPlaced(t: Trace, times: seq<Time>, limit: int, window: int, now: Time)
    requires Placed(t, times, window) && window >= 0 && Ordered(times + [now])
    ensures Placed(Extended(t, limit, window, now), times + [now], window)
  {
    var t' := Extended(t, limit, window, now);
    Appended(t.calls, t'.calls[|t.calls|], t'.windows);
    LaterWindowsEmpty(t.calls, t.windows + 1);
    forall i | 0 <= i < |times| ensures times[i] <= now {
      assert (times + [now])[i] <= (times + [now])[|times|];
    }
  }

  lemma {:induction false} MemoryTracePlaced(times: seq<Time>, limit: int, window: int)
    requires Ordered(times) && window >= 0
    ensures Placed(MemoryTrace(times, limit, window), times, window)
  {
    if times != [] {
      var init, now := times[..|times| - 1], times[|times| - 1];
      assert init + [now] == times;
      MemoryTracePlaced(init, limit, window);
      ExtendedPlaced(MemoryTrace(init, limit, window), init, limit, window, now);
    }
  }

  lemma {:induction false} MemoryTraceCounted(times: seq<Time>, limit: int, window: int, w: int)
    requires Ordered(times) && window >= 0
    ensures Counted(MemoryTrace(times, limit, window).calls, limit, w)
  {
    if times != [] {
      var init := times[..|times| - 1];
      MemoryTraceCounted(init, limit, window, w);
      MemoryTracePlaced(init, limit, window);
      ExtendedCounted(MemoryTrace(init, limit, window), init, limit, window, times[|times| - 1], w);
    }
  }

  /** Two requests that are two windows apart are more than a window's length apart. */
  lemma {:induction false} WindowsApart(times: seq<Time>, limit: int, window: int, i: nat, j: nat)
    requires Ordered(times) && window >= 0 && i < |times| && j < |times|
    requires var calls := MemoryTrace(times, limit, window).calls;
      |calls| == |times| && calls[i].window + 1 < calls[j].window
    ensures times[i] + window < times[j]
  {
    MemoryTracePlaced(times, limit, window);
    var init := times[..|times| - 1];
    MemoryTracePlaced(init, limit, window);
    if i < |init| && j < |init| {
      WindowsApart(init, limit, window, i, j);
    }
  }

  lemma {:induction false} WindowsGrow(times: seq<Time>, limit: int, window: int, i: nat, j: nat)
    requires Ordered(times) && window >= 0 && i <= j < |times|
    requires |MemoryTrace(times, limit, window).calls| == |times|
    ensures MemoryTrace(times, limit, window).calls[i].window <= MemoryTrace(times, limit, window).calls[j].window
  {
    var init := times[..|times| - 1];
    MemoryTracePlaced(init, limit, window);
    if j < |init| {
      WindowsGrow(init, limit, window, i, j);
    }
  }

  /** Over any requests for a key, with a clock that never goes back, a limit and a window length: each window lets
      through the first requests that fall into it, up to its quota, and no more. */
  lemma {:induction false} QuotaPerWindow(times: seq<Time>, limit: int, window: int, w: int)
    requires Ordered(times) && window >= 0
    ensures var calls := MemoryTrace(times, limit, window).calls;
      AllowedOf(calls, w) == Least(Quota(limit), CallsOf(calls, w))
  {
    MemoryTraceCounted(times, limit, window, w);
  }

  /** A request is refused exactly when its window has already let its quota through. */
  lemma {:induction false} RefusedOnlyWhenFull(times: seq<Time>, limit: int, window: int, i: nat)
    requires Ordered(times) && window >= 0 && i < |times|
    ensures var before := MemoryTrace(times[..i], limit, window);
      var after := MemoryTrace(times[..i + 1], limit, window);
      |after.calls| == i + 1 && (!after.calls[i].allowed <==>
        AllowedOf(before.calls, after.calls[i].window) >= Quota(limit))
  {
    hide AllowedOf, CallsOf;
    MemoryTracePlaced(times[..i], limit, window);
    MemoryTracePlaced(times[..i + 1], limit, window);
    assert times[..i + 1][..i] == times[..i];
    var before, after := MemoryTrace(times[..i], limit, window), MemoryTrace(times[..i + 1], limit, window);
    MemoryTraceCounted(times[..i], limit, window, after.calls[i].window);
    LaterWindowsEmpty(before.calls, before.windows + 1);
  }

  /** What follows a request within a window's length lies in the same window or in the next. */
  lemma {:induction false} NeighbouringWindows(times: seq<Time>, limit: int, window: int, i: nat, j: nat)
    requires Ordered(times) && window >= 0 && i <= j < |times| && times[j] <= times[i] + window
    requires |MemoryTrace(times, limit, window).calls| == |times|
    ensures var calls := MemoryTrace(times, limit, window).calls;
      calls[i].window <= calls[j].window <= calls[i].window + 1
  {
    hide MemoryTrace;
    WindowsGrow(times, limit, window, i, j);
    var calls := MemoryTrace(times, limit, window).calls;
    if calls[i].window + 1 < calls[j].window {
      WindowsApart(times, limit, window, i, j);
    }
  }

  /** No closed interval as long as a window sees more than twice the quota let through. */
  lemma {:induction false} TwiceTheQuotaPerInterval(times: seq<Time>, limit: int, window: int, a: Time)
    requires Ordered(times) && window >= 0
    ensures AllowedIn(MemoryTrace(times, limit, window).calls, a, a + window) <= 2 * Quota(limit)
  {
    MemoryTracePlaced(times, limit, window);
    hide AllowedIn, AllowedOf, CallsOf, MemoryTrace;
    var calls := MemoryTrace(times, limit, window).calls;
    var i := FirstIn(times, a, a + window);
    var w := if i < |times| then calls[i].window else 0;
    forall j | 0 <= j < |calls| && a <= calls[j].time <= a + window ensures w <= calls[j].window <= w + 1 {
      NeighbouringWindows(times, limit, window, i, j);
    }
    TwoWindows(calls, a, a + window, w);
    QuotaPerWindow(times, limit, window, w);
    QuotaPerWindow(times, limit, window, w + 1);
  }

  lemma {:induction false} FirstIn(times: seq<Time>, a: Time, b: Time) returns (i: nat)
    ensures i <= |times| && (i < |times| ==> a <= times[i] <= b)
    ensures forall j :: 0 <= j < |times| && a <= times[j] <= b ==> i <= j
  {
    i := 0;
    while i < |times| && !(a <= times[i] <= b)
      invariant i <= |times| && forall j :: 0 <= j < i ==> !(a <= times[j] <= b)
    {
      i := i + 1;
    }
  }

  // ---- On Redis ----

  const NANOSECONDS := 1_000_000_000

  /** A counter without an expiry stays for ever. */
  datatype Counter = Counter(count: int, expires: Option<Time>)

  /** An expired key is gone. */
  predicate IsLive(counters: map<(string, int), Counter>, key: (string, int), now: Time) {
    key in counters && (counters[key].expires.None? || now < counters[key].expires.value)
  }

  /** The count that holds at some time. */
  function Live(counters: map<(string, int), Counter>, key: (string, int), now: Time): int {
    if IsLive(counters, key, now) then counters[key].count else 0
  }

  /** The bucket of an instant, for windows of so many whole seconds. */
  function Bucket(now: Time, seconds: int): int
    requires seconds > 0
  {
    now / NANOSECONDS / seconds
  }

  /** How Redis answers a request: in full, with an error from the expiry, or with an error from the increment. */
  datatype Redis = Up | ExpiryLost | Down

  /** The counters after one request, and whether it is let through, as every request is that cannot be counted; a fresh
      counter expires two windows later. */
  function Increment(counters: map<(string, int), Counter>, key: string, limit: int, seconds: int, now: Time,
    redis: Redis): (map<(string, int), Counter>, bool)
    requires seconds > 0
  {
    if redis.Down? then (counters, true)
    else
      var k := (key, Bucket(now, seconds));
      var count := Live(counters, k, now) + 1;
      var expires := if count == 1 && redis.Up? then Some(now + 2 * seconds * NANOSECONDS)
        else if IsLive(counters, k, now) then counters[k].expires else None;
      (counters[k := Counter(count, expires)], count <= limit)
  }

  datatype Visit = Visit(time: Time, redis: Redis)

  ghost predicate VisitsOrdered(visits: seq<Visit>) {
    forall i, j :: 0 <= i < j < |visits| ==> visits[i].time <= visits[j].time
  }

  /** Requests for one key, starting without counters: the counters at the end, and the requests that were counted. */
  function RedisTrace(key: string, visits: seq<Visit>, limit: int, seconds: int)
    : (map<(string, int), Counter>, seq<Call>)
    requires seconds > 0
  {
    if visits == [] then (map[], [])
    else
      var (before, v) := (RedisTrace(key, visits[..|visits| - 1], limit, seconds), visits[|visits| - 1]);
      var (counters, allowed) := Increment(before.0, key, limit, seconds, v.time, v.redis);
      (counters, if v.redis.Down? then before.1 else before.1 + [Call(v.time, Bucket(v.time, seconds), allowed)])
  }

  /** Instants less than a window apart lie in the same bucket or in neighbouring ones. */
  lemma {:induction false} NearInstantsNearBuckets(a: Time, t: Time, seconds: int)
    requires seconds > 0 && a <= t < a + seconds * NANOSECONDS
    ensures Bucket(a, seconds) <= Bucket(t, seconds) <= Bucket(a, seconds) + 1
  {
    var s, u := a / NANOSECONDS, t / NANOSECONDS;
    QuotientGrows(a, t, NANOSECONDS);
    assert u <= s + seconds;
    QuotientGrows(s, u, seconds);
    QuotientGrows(u, s + seconds, seconds);
    DivideOnce(s, seconds);
  }

  /** A counter expires two windows after some request of its bucket, or never. */
  ghost predicate ExpiresAfter(expires: Option<Time>, calls: seq<Call>, w: int, seconds: int) {
    expires.None?
    || exists i ::
      0 <= i < |calls| && calls[i].window == w && expires == Some(calls[i].time + 2 * seconds * NANOSECONDS)
  }

  /** Each counter holds the number of requests in its bucket so far, and outlives the bucket. */
  ghost predicate CountersRight(counters: map<(string, int), Counter>, calls: seq<Call>, key: string, seconds: int)
    requires seconds > 0
  {
    && (forall w :: (key, w) in counters <==> CallsOf(calls, w) > 0)
    && (forall w :: (key, w) in counters ==>
      counters[(key, w)].count == CallsOf(calls, w) && ExpiresAfter(counters[(key, w)].expires, calls, w, seconds))
    && (forall i :: 0 <= i < |calls| ==> calls[i].window == Bucket(calls[i].time, seconds))
  }

  /** A counter of the present bucket has not expired, so that it still counts all its requests. */
  lemma {:induction false} CounterLives(
    counters: map<(string, int), Counter>, calls: seq<Call>, key: string, seconds: int, now: Time)
    requires seconds > 0 && CountersRight(counters, calls, key, seconds)
    requires forall i :: 0 <= i < |calls| ==> calls[i].time <= now
    ensures Live(counters, (key, Bucket(now, seconds)), now) == CallsOf(calls, Bucket(now, seconds))
  {
  }

  lemma {:induction false} StillExpiresAfter(expires: Option<Time>, calls: seq<Call>, call: Call, w: int, seconds: int)
    requires expires.None? || ExpiresAfter(expires, calls, w, seconds)
      || (call.window == w && expires == Some(call.time + 2 * seconds * NANOSECONDS))
    ensures ExpiresAfter(expires, calls + [call], w, seconds)
  {
    if expires.None? {
    } else if ExpiresAfter(expires, calls, w, seconds) {
      var i :| 0 <= i < |calls| && calls[i].window == w && expires == Some(calls[i].time + 2 * seconds * NANOSECONDS);
      assert (calls + [call])[i] == calls[i];
    } else {
      assert (calls + [call])[|calls|] == call;
    }
  }

  lemma {:induction false} IncrementRight(
    counters: map<(string, int), Counter>, calls: seq<Call>, key: string, limit: int, seconds: int, now: Time,
    redis: Redis)
    requires seconds > 0 && CountersRight(counters, calls, key, seconds) && !redis.Down?
    requires forall i :: 0 <= i < |calls| ==> calls[i].time <= now
    ensures var (counters', allowed) := Increment(counters, key, limit, seconds, now, redis);
      var w := Bucket(now, seconds);
      && CountersRight(counters', calls + [Call(now, w, allowed)], key, seconds)
      && (allowed <==> CallsOf(calls, w) < limit)
  {
    hide Bucket, ExpiresAfter, CallsOf;
    CounterLives(counters, calls, key, seconds, now);
    var w := Bucket(now, seconds);
    var (counters', allowed) := Increment(counters, key, limit, seconds, now, redis);
    var call := Call(now, w, allowed);
    forall v ensures CallsOf(calls + [call], v) == CallsOf(calls, v) + if v == w then 1 else 0 {
      Appended(calls, call, v);
    }
    forall v | (key, v) in counters' ensures ExpiresAfter(counters'[(key, v)].expires, calls + [call], v, seconds) {
      StillExpiresAfter(counters'[(key, v)].expires, calls, call, v, seconds);
    }
  }

  lemma {:induction false} RedisTraceRight(key: string, visits: seq<Visit>, limit: int, seconds: int)
    requires seconds > 0 && VisitsOrdered(visits)
    ensures var (counters, calls) := RedisTrace(key, visits, limit, seconds);
      && CountersRight(counters, calls, key, seconds)
      && (visits == [] ==> calls == [])
      && (visits != [] ==> forall i :: 0 <= i < |calls| ==> calls[i].time <= visits[|visits| - 1].time)
  {
    if visits != [] {
      var init, v := visits[..|visits| - 1], visits[|visits| - 1];
      RedisTraceRight(key, init, limit, seconds);
      var (counters, calls) := RedisTrace(key, init, limit, seconds);
      assert init != [] ==> visits[|init| - 1].time <= v.time;
      hide CountersRight, Increment;
      if v.redis.Down? {
        DownChangesNothing(counters, key, limit, seconds, v.time);
      } else {
        IncrementRight(counters, calls, key, limit, seconds, v.time, v.redis);
      }
    }
  }

  lemma {:induction false} DownChangesNothing(
    counters: map<(string, int), Counter>, key: string, limit: int, seconds: int, now: Time)
    requires seconds > 0
    ensures Increment(counters, key, limit, seconds, now, Down) == (counters, true)
  {
  }

  function AtLeastZero(limit: int): nat {
    if limit < 0 then 0 else limit
  }

  /** A counter never expires within its own bucket, whichever expiries are lost: of the requests that Redis counts,
      each bucket lets through exactly the first ones, up to the limit, and none at all when that is below one. */
  lemma {:induction false} LimitPerBucket(key: string, visits: seq<Visit>, limit: int, seconds: int, w: int)
    requires seconds > 0 && VisitsOrdered(visits)
    ensures var calls := RedisTrace(key, visits, limit, seconds).1;
      AllowedOf(calls, w) == Least(AtLeastZero(limit), CallsOf(calls, w))
  {
    if visits != [] {
      var init, v := visits[..|visits| - 1], visits[|visits| - 1];
      LimitPerBucket(key, init, limit, seconds, w);
      RedisTraceRight(key, init, limit, seconds);
      var (counters, calls) := RedisTrace(key, init, limit, seconds);
      if !v.redis.Down? {
        assert init != [] ==> visits[|init| - 1].time <= v.time;
        IncrementRight(counters, calls, key, limit, seconds, v.time, v.redis);
        hide Increment, CountersRight;
        Appended(calls, RedisTrace(key, visits, limit, seconds).1[|calls|], w);
      }
    }
  }

  /** No interval shorter than a window sees more than twice the limit of counted requests let through. */
  lemma {:induction false} TwiceTheLimitPerInterval(
    key: string, visits: seq<Visit>, limit: int, seconds: int, a: Time, b: Time)
    requires seconds > 0 && VisitsOrdered(visits) && b < a + seconds * NANOSECONDS
    ensures AllowedIn(RedisTrace(key, visits, limit, seconds).1, a, b) <= 2 * AtLeastZero(limit)
  {
    RedisTraceRight(key, visits, limit, seconds);
    var calls, w := RedisTrace(key, visits, limit, seconds).1, Bucket(a, seconds);
    forall j | 0 <= j < |calls| && a <= calls[j].time <= b ensures w <= calls[j].window <= w + 1 {
      NearInstantsNearBuckets(a, calls[j].time, seconds);
    }
    TwoWindows(calls, a, b, w);
    LimitPerBucket(key, visits, limit, seconds, w);
    LimitPerBucket(key, visits, limit, seconds, w + 1);
  }

  // ---- The limiters ----

  class MemoryRateLimiter {
    var counts: map<string, int>
    var expires: map<string, Time>

    ghost predicate Valid()
      reads this
    {
      counts.Keys == expires.Keys
    }

    function CellOf(key: string): Cell
      requires Valid()
      reads this
    {
      if key in expires then Cell(counts[key], expires[key]) else NoCell
    }

    constructor ()
      ensures Valid() && forall key :: CellOf(key) == NoCell
    {
      counts, expires := map[], map[];
    }

    method Allow(key: string, limit: int, window: int, now: Time) returns (allowed: bool)
      requires Valid()
      modifies this
      ensures Valid() && (CellOf(key), allowed) == Next(old(CellOf(key)), limit, window, now)
      ensures forall other :: other != key ==> CellOf(other) == old(CellOf(other))
    {
      if key !in expires || now > expires[key] {
        counts := counts[key := 1];
        expires := expires[key := now + window];
        return true;
      }
      counts := counts[key := counts[key] + 1];
      return counts[key] <= limit;
    }
  }

  class RedisRateLimiter {
    var counters: map<(string, int), Counter>

    constructor ()
      ensures counters == map[]
    {
      counters := map[];
    }

    method Incr(k: (string, int), now: Time) returns (count: int)
      modifies this
      ensures count == Live(old(counters), k, now) + 1
      ensures k in counters && counters[k].count == count && counters == old(counters)[k := counters[k]]
      ensures counters[k].expires == if IsLive(old(counters), k, now) then old(counters)[k].expires else None
    {
      if IsLive(counters, k, now) {
        count := counters[k].count + 1;
        counters := counters[k := counters[k].(count := count)];
      } else {
        count := 1;
        counters := counters[k := Counter(1, None)];
      }
    }

    method Allow(key: string, limit: int, seconds: int, now: Time, redis: Redis) returns (allowed: bool)
      requires seconds > 0
      modifies this
      ensures (counters, allowed) == Increment(old(counters), key, limit, seconds, now, redis)
    {
      if redis.Down? {
        return true;
      }
      var k := (key, Bucket(now, seconds));
      var count := Incr(k, now);
      if count == 1 && redis.Up? {
        counters := counters[k := counters[k].(expires := Some(now + 2 * seconds * NANOSECONDS))];
      }
      assert counters == old(counters)[k := counters[k]];
      return count <= limit;
    }
  }
}
