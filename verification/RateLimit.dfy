/**
 src/lib/db/rate-limit.ts and src/lib/rate-limit/bucket.ts: one row per API key holds a window start and a
 count, and a single upsert either bumps the count or starts it again. The ghost field `checks` is the whole
 history of requests; everything about limits is proved of that history.
 */
module RateLimit {
  import opened Common

  /** Math.floor(ms / windowMs) * windowMs. Division rounds down here as well, for a positive window. */
  function WindowStart(now: int, windowMs: int): int
    requires windowMs > 0
  {
    now / windowMs * windowMs
  }

  function CeilDiv(a: int, b: int): int
    requires b > 0
  {
    -((-a) / b)
  }

  function RetryAfter(now: int, windowStart: int, windowMs: int): int { Max(0, CeilDiv(windowStart + windowMs - now, 1000)) }

  lemma WindowHoldsNow(now: int, windowMs: int)
    requires windowMs > 0
    ensures WindowStart(now, windowMs) <= now < WindowStart(now, windowMs) + windowMs
    ensures WindowStart(now, windowMs) % windowMs == 0
  {
    var q := now / windowMs;
    assert now == q * windowMs + now % windowMs;
    MultipleHasNoRemainder(q, windowMs);
  }

  lemma MultipleHasNoRemainder(q: int, w: int)
    requires w > 0
    ensures q * w % w == 0 && q * w / w == q
  {
    assert q * w == w * q + 0;
    DivIsUnique(q * w, w, q, 0);
  }

  lemma MulMonotone(a: int, b: int, w: int)
    requires w > 0
    ensures a <= b ==> a * w <= b * w
  {
    assert (b - a) * w == b * w - a * w;
  }

  lemma DivIsUnique(n: int, w: int, q: int, r: int)
    requires w > 0 && n == q * w + r && 0 <= r < w
    ensures n / w == q && n % w == r
  {
    MulMonotone(n / w + 1, q, w);
    MulMonotone(q + 1, n / w, w);
  }

  /** Two instants share a window start exactly when no boundary lies between them. */
  lemma SameWindowIff(a: int, b: int, windowMs: int)
    requires windowMs > 0
    ensures WindowStart(b, windowMs) == WindowStart(a, windowMs) <==>
              WindowStart(a, windowMs) <= b < WindowStart(a, windowMs) + windowMs
    ensures a <= b ==> WindowStart(a, windowMs) <= WindowStart(b, windowMs)
  {
    WindowHoldsNow(a, windowMs);
    WindowHoldsNow(b, windowMs);
    var ws := WindowStart(a, windowMs);
    if ws <= b < ws + windowMs {
      DivIsUnique(b, windowMs, a / windowMs, b - ws);
    }
    MulMonotone(b / windowMs + 1, a / windowMs, windowMs);
    MulMonotone(a / windowMs, b / windowMs, windowMs);
  }

  /** Retry-After is the least whole number of seconds after which a fresh window has begun. */
  lemma RetryAfterIsLeast(now: int, windowMs: int, seconds: nat)
    requires windowMs > 0
    ensures WindowStart(now + 1000 * seconds, windowMs) > WindowStart(now, windowMs) <==>
              seconds >= RetryAfter(now, WindowStart(now, windowMs), windowMs)
  {
    SameWindowIff(now, now + 1000 * seconds, windowMs);
    WindowHoldsNow(now, windowMs);
  }

  // ---------------------------------------------------------------------------------------------
  // The stored row against the history of one key.
  // ---------------------------------------------------------------------------------------------

  datatype Bucket = Bucket(windowStart: int, count: nat)

  datatype Check = Check(key: nat, windowStart: int)

  /** The window starts recorded for one key, oldest first. */
  function StartsOf(checks: seq<Check>, key: nat): seq<int> {
    if checks == [] then []
    else
      var rest, last := checks[..|checks| - 1], checks[|checks| - 1];
      StartsOf(rest, key) + if last.key == key then [last.windowStart] else []
  }

  /** How many entries at the end are equal to the last one. */
  function TrailingRun(starts: seq<int>): nat {
    if starts == [] then 0
    else if |starts| > 1 && starts[|starts| - 2] == starts[|starts| - 1] then 1 + TrailingRun(starts[..|starts| - 1])
    else 1
  }

  function CountOf(starts: seq<int>, start: int): nat {
    if starts == [] then 0
    else CountOf(starts[..|starts| - 1], start) + if starts[|starts| - 1] == start then 1 else 0
  }

  datatype RateLimitResult = RateLimitResult(allowed: bool, count: nat, limit: int, retryAfterSeconds: int)

  lemma OneMoreCheck(checks: seq<Check>, c: Check)
    ensures forall k :: StartsOf(checks + [c], k) == if k == c.key then StartsOf(checks, k) + [c.windowStart] else StartsOf(checks, k)
  {
  }

  lemma OneMoreStart(starts: seq<int>, start: int)
    ensures TrailingRun(starts + [start]) == if starts != [] && starts[|starts| - 1] == start then 1 + TrailingRun(starts) else 1
  {
    assert (starts + [start])[..|starts|] == starts;
  }

  /** Each key's row holds its last window start and the length of the run of it that ends the key's history. */
  ghost predicate Refines(rows: map<nat, Bucket>, checks: seq<Check>) {
    forall key: nat ::
      var starts := StartsOf(checks, key);
      && (key in rows <==> starts != [])
      && (key in rows ==> rows[key] == Bucket(starts[|starts| - 1], TrailingRun(starts)))
  }

  function Upserted(rows: map<nat, Bucket>, key: nat, windowStart: int): map<nat, Bucket> {
    rows[key := Bucket(windowStart, if key in rows && rows[key].windowStart == windowStart then rows[key].count + 1 else 1)]
  }

  lemma UpsertRefines(rows: map<nat, Bucket>, checks: seq<Check>, key: nat, windowStart: int)
    requires Refines(rows, checks)
    ensures var rows', checks' := Upserted(rows, key, windowStart), checks + [Check(key, windowStart)];
            Refines(rows', checks') && rows'[key] == Bucket(windowStart, TrailingRun(StartsOf(checks', key)))
  {
    OneMoreCheck(checks, Check(key, windowStart));
    OneMoreStart(StartsOf(checks, key), windowStart);
    hide StartsOf, TrailingRun;
  }

  /** How CheckRateLimit answers a count. */
  predicate Passes(count: nat, limit: int) { count <= limit }

  class BucketTable {
    var rows: map<nat, Bucket>
    ghost var checks: seq<Check>

    ghost predicate Valid()
      reads this
    {
      Refines(rows, checks)
    }

    constructor ()
      ensures Valid() && checks == [] && rows == map[]
    {
      rows, checks := map[], [];
    }

    method IncrementBucket(key: nat, windowStart: int) returns (count: nat)
      requires Valid()
      modifies this
      ensures Valid() && checks == old(checks) + [Check(key, windowStart)]
      ensures count == TrailingRun(StartsOf(checks, key))
      ensures key in rows && rows[key] == Bucket(windowStart, count)
      ensures forall k | k != key :: (k in rows <==> k in old(rows)) && (k in rows ==> rows[k] == old(rows)[k])
    {
      if key in rows {
        var row := rows[key];
        rows := rows[key := Bucket(windowStart, if row.windowStart == windowStart then row.count + 1 else 1)];
      } else {
        rows := rows[key := Bucket(windowStart, 1)];
      }
      hide Refines, StartsOf, TrailingRun;
      UpsertRefines(old(rows), checks, key, windowStart);
      checks := checks + [Check(key, windowStart)];
      return rows[key].count;
    }

    method CheckRateLimit(key: nat, limit: int, windowMs: int, now: int) returns (r: RateLimitResult)
      requires Valid() && windowMs > 0
      modifies this
      ensures Valid() && checks == old(checks) + [Check(key, WindowStart(now, windowMs))]
      ensures r.count == TrailingRun(StartsOf(checks, key)) && r.limit == limit && r.allowed == Passes(r.count, limit)
      ensures r.allowed ==> r.retryAfterSeconds == 0
      ensures !r.allowed ==> r.retryAfterSeconds >= 1 && forall s: nat ::
                WindowStart(now + 1000 * s, windowMs) > WindowStart(now, windowMs) <==> s >= r.retryAfterSeconds
      ensures forall k | k != key :: (k in rows <==> k in old(rows)) && (k in rows ==> rows[k] == old(rows)[k])
    {
      var windowStart := WindowStart(now, windowMs);
      var count := IncrementBucket(key, windowStart);
      var allowed := count <= limit;
      r := RateLimitResult(allowed, count, limit, if allowed then 0 else RetryAfter(now, windowStart, windowMs));
      WindowHoldsNow(now, windowMs);
      forall s: nat
        ensures WindowStart(now + 1000 * s, windowMs) > windowStart <==> s >= RetryAfter(now, windowStart, windowMs)
      {
        RetryAfterIsLeast(now, windowMs, s);
      }
    }
  }

  // ---------------------------------------------------------------------------------------------
  // What the count means.
  // ---------------------------------------------------------------------------------------------

  /** Since the first check of the present window, no check used another window start. */
  ghost predicate Unbroken(starts: seq<int>) {
    forall i, j | 0 <= i < j < |starts| && starts[i] == starts[|starts| - 1] :: starts[j] == starts[i]
  }

  lemma {:induction false} NoneBefore(starts: seq<int>, start: int)
    ensures CountOf(starts, start) == 0 <==> start !in starts
  {
    if starts != [] {
      var rest := starts[..|starts| - 1];
      assert starts == rest + [starts[|starts| - 1]];
      NoneBefore(rest, start);
    }
  }

  lemma {:induction false} RunAtMostCount(starts: seq<int>)
    requires starts != []
    ensures TrailingRun(starts) <= CountOf(starts, starts[|starts| - 1])
  {
    if |starts| > 1 && starts[|starts| - 2] == starts[|starts| - 1] {
      RunAtMostCount(starts[..|starts| - 1]);
    }
  }

  /** The stored count is the number of checks in the present window exactly when that window is unbroken. */
  lemma {:induction false} CountIsExactIff(starts: seq<int>)
    requires starts != []
    ensures TrailingRun(starts) == CountOf(starts, starts[|starts| - 1]) <==> Unbroken(starts)
  {
    var n, last := |starts|, starts[|starts| - 1];
    var rest := starts[..n - 1];
    NoneBefore(rest, last);
    if n > 1 && starts[n - 2] == last {
      CountIsExactIff(rest);
      if Unbroken(rest) {
        assert forall i, j | 0 <= i < j < n && starts[i] == last :: if j < n - 1 then rest[j] == rest[i] else starts[j] == starts[i];
      } else {
        var i, j :| 0 <= i < j < |rest| && rest[i] == last && rest[j] != rest[i];
        assert starts[i] == last && starts[j] != starts[i];
      }
    } else if last in rest {
      var i :| 0 <= i < n - 1 && rest[i] == last;
      assert starts[i] == last && starts[n - 2] != last && i < n - 2;
    }
  }

  ghost predicate NonDecreasing(s: seq<int>) { forall i, j | 0 <= i < j < |s| :: s[i] <= s[j] }

  /** The window starts of checks made at these times with one window length. */
  function StartsAt(times: seq<int>, windowMs: int): seq<int>
    requires windowMs > 0
  {
    seq(|times|, i requires 0 <= i < |times| => WindowStart(times[i], windowMs))
  }

  /** Requests let through in [from, to), of those made at `times` by one key. */
  function Allowed(times: seq<int>, windowMs: int, limit: nat, from: int, to: int): nat
    requires windowMs > 0
  {
    if times == [] then 0
    else
      Allowed(times[..|times| - 1], windowMs, limit, from, to)
      + if from <= times[|times| - 1] < to && TrailingRun(StartsAt(times, windowMs)) <= limit then 1 else 0
  }

  function Made(times: seq<int>, from: int, to: int): nat {
    if times == [] then 0
    else Made(times[..|times| - 1], from, to) + if from <= times[|times| - 1] < to then 1 else 0
  }

  lemma {:induction false} MadeIsCountOfStart(times: seq<int>, windowMs: int, start: int)
    requires windowMs > 0 && start % windowMs == 0
    ensures CountOf(StartsAt(times, windowMs), start) == Made(times, start, start + windowMs)
  {
    if times != [] {
      var n := |times|;
      assert StartsAt(times, windowMs)[..n - 1] == StartsAt(times[..n - 1], windowMs);
      MadeIsCountOfStart(times[..n - 1], windowMs, start);
      WindowHoldsNow(start, windowMs);
      DivIsUnique(start, windowMs, start / windowMs, 0);
      SameWindowIff(start, times[n - 1], windowMs);
    }
  }

  /** With one window length and clock readings that never go back, the count is that of the present window. */
  lemma CountIsChecksInWindow(times: seq<int>, windowMs: int)
    requires windowMs > 0 && times != [] && NonDecreasing(times)
    ensures var ws := WindowStart(times[|times| - 1], windowMs);
            TrailingRun(StartsAt(times, windowMs)) == Made(times, ws, ws + windowMs)
  {
    var starts, n := StartsAt(times, windowMs), |times|;
    WindowHoldsNow(times[n - 1], windowMs);
    MadeIsCountOfStart(times, windowMs, starts[n - 1]);
    forall i, j | 0 <= i < j < n
      ensures starts[i] <= starts[j] <= starts[n - 1]
    {
      SameWindowIff(times[i], times[j], windowMs);
      SameWindowIff(times[j], times[n - 1], windowMs);
    }
    CountIsExactIff(starts);
  }

  /** In each window exactly the first `limit` requests are let through. */
  lemma {:induction false} WindowAllowance(times: seq<int>, windowMs: int, limit: nat, start: int)
    requires windowMs > 0 && NonDecreasing(times) && start % windowMs == 0
    ensures Allowed(times, windowMs, limit, start, start + windowMs) == Min(limit, Made(times, start, start + windowMs))
  {
    if times != [] {
      var n := |times|;
      WindowAllowance(times[..n - 1], windowMs, limit, start);
      CountIsChecksInWindow(times, windowMs);
      StartOfItself(start, windowMs);
      hide WindowStart, TrailingRun;
      SameWindowIff(start, times[n - 1], windowMs);
    }
  }

  lemma StartOfItself(start: int, windowMs: int)
    requires windowMs > 0 && start % windowMs == 0
    ensures WindowStart(start, windowMs) == start
  {
    DivIsUnique(start, windowMs, start / windowMs, 0);
  }

  lemma {:induction false} AllowedSplits(times: seq<int>, windowMs: int, limit: nat, from: int, mid: int, to: int)
    requires windowMs > 0 && from <= mid <= to
    ensures Allowed(times, windowMs, limit, from, to) == Allowed(times, windowMs, limit, from, mid) + Allowed(times, windowMs, limit, mid, to)
  {
    if times != [] {
      AllowedSplits(times[..|times| - 1], windowMs, limit, from, mid, to);
    }
  }

  /** However the span is placed, no more than twice the limit gets through in one window length. */
  lemma SpanAllowance(times: seq<int>, windowMs: int, limit: nat, from: int)
    requires windowMs > 0 && NonDecreasing(times)
    ensures Allowed(times, windowMs, limit, from, from + windowMs) <= 2 * limit
  {
    var ws := WindowStart(from, windowMs);
    WindowHoldsNow(from, windowMs);
    MultipleHasNoRemainder(from / windowMs + 1, windowMs);
    assert ws + windowMs == (from / windowMs + 1) * windowMs;
    WindowAllowance(times, windowMs, limit, ws);
    WindowAllowance(times, windowMs, limit, ws + windowMs);
    AllowedSplits(times, windowMs, limit, ws, from, ws + windowMs);
    AllowedSplits(times, windowMs, limit, from, ws + windowMs, from + windowMs);
    AllowedSplits(times, windowMs, limit, ws + windowMs, from + windowMs, ws + 2 * windowMs);
  }

  function Repeat(t: int, n: nat): seq<int> { seq(n, _ => t) }

  lemma {:induction false} MadeInBurst(t: int, n: nat, from: int, to: int)
    ensures Made(Repeat(t, n), from, to) == if from <= t < to then n else 0
  {
    if n > 0 {
      assert Repeat(t, n)[..n - 1] == Repeat(t, n - 1);
      MadeInBurst(t, n - 1, from, to);
    }
  }

  lemma {:induction false} MadeAdds(a: seq<int>, b: seq<int>, from: int, to: int)
    ensures Made(a + b, from, to) == Made(a, from, to) + Made(b, from, to)
  {
    if b == [] {
      assert a + b == a;
    } else {
      assert (a + b)[..|a + b| - 1] == a + b[..|b| - 1];
      MadeAdds(a, b[..|b| - 1], from, to);
    }
  }

  lemma BurstsMade(w: int, n: nat, from: int, to: int)
    ensures Made(Repeat(w - 1, n) + Repeat(w, n), from, to) == (if from <= w - 1 < to then n else 0) + if from <= w < to then n else 0
  {
    MadeAdds(Repeat(w - 1, n), Repeat(w, n), from, to);
    MadeInBurst(w - 1, n, from, to);
    MadeInBurst(w, n, from, to);
  }

  /** The bound is met: a burst on either side of a boundary gets twice the limit through. */
  lemma SpanAllowanceIsTight(windowMs: int, limit: nat)
    requires windowMs >= 2
    ensures var times := Repeat(windowMs - 1, limit) + Repeat(windowMs, limit);
            NonDecreasing(times) && Allowed(times, windowMs, limit, windowMs - 1, 2 * windowMs - 1) == 2 * limit
  {
    hide Allowed;
    var w, times := windowMs, Repeat(windowMs - 1, limit) + Repeat(windowMs, limit);
    DivIsUnique(0, w, 0, 0);
    DivIsUnique(w, w, 1, 0);
    WindowAllowance(times, w, limit, 0);
    WindowAllowance(times, w, limit, w);
    BurstsMade(w, limit, 0, w);
    BurstsMade(w, limit, w, w + w);
    hide Made;
    AllowedSplits(times, w, limit, 0, w - 1, w);
    AllowedSplits(times, w, limit, w - 1, w, 2 * w - 1);
    AllowedSplits(times, w, limit, w, 2 * w - 1, 2 * w);
    NoneMadeNoneAllowed(times, w, limit, 0, w - 1);
    NoneMadeNoneAllowed(times, w, limit, 2 * w - 1, 2 * w);
  }

  lemma {:induction false} NoneMadeNoneAllowed(times: seq<int>, windowMs: int, limit: nat, from: int, to: int)
    requires windowMs > 0 && forall i | 0 <= i < |times| :: !(from <= times[i] < to)
    ensures Allowed(times, windowMs, limit, from, to) == 0
  {
    if times != [] {
      NoneMadeNoneAllowed(times[..|times| - 1], windowMs, limit, from, to);
    }
  }

  // ---------------------------------------------------------------------------------------------
  // Two routes share the row of a key: the query route counts minutes, the repository route hours.
  // ---------------------------------------------------------------------------------------------

  const MINUTE_MS := 60_000

  const HOUR_MS := 3_600_000

  /** Which window the n-th check of a client counts in that takes turns between the two routes. */
  function TurnWindow(n: nat, hourFirst: bool): int { if (n % 2 == 0) == hourFirst then HOUR_MS else MINUTE_MS }

  /** The checks it causes, at any times. */
  function TurnChecks(key: nat, times: seq<int>, hourFirst: bool): (r: seq<Check>)
    ensures |r| == |times|
  {
    seq(|times|, n requires 0 <= n < |times| => Check(key, WindowStart(times[n], TurnWindow(n, hourFirst))))
  }

  function TurnStarts(times: seq<int>, hourFirst: bool): (r: seq<int>)
    ensures |r| == |times|
  {
    seq(|times|, n requires 0 <= n < |times| => WindowStart(times[n], TurnWindow(n, hourFirst)))
  }

  /** The check of the minute route falls into the first minute of the hour of the check of the hour route. */
  predicate InFirstMinute(hourAt: int, minuteAt: int) {
    WindowStart(minuteAt, HOUR_MS) == WindowStart(hourAt, HOUR_MS) && minuteAt < WindowStart(minuteAt, HOUR_MS) + MINUTE_MS
  }

  lemma SharedWindowIff(hourAt: int, minuteAt: int)
    ensures WindowStart(hourAt, HOUR_MS) == WindowStart(minuteAt, MINUTE_MS) <==> InFirstMinute(hourAt, minuteAt)
  {
    var q := hourAt / HOUR_MS;
    WindowHoldsNow(hourAt, HOUR_MS);
    WindowHoldsNow(minuteAt, MINUTE_MS);
    WindowHoldsNow(minuteAt, HOUR_MS);
    SameWindowIff(hourAt, minuteAt, HOUR_MS);
    if InFirstMinute(hourAt, minuteAt) {
      DivIsUnique(minuteAt, MINUTE_MS, 60 * q, minuteAt - q * HOUR_MS);
    }
  }

  /** Checks n and n + 1 share a window. */
  predicate TurnsMeet(times: seq<int>, hourFirst: bool, n: nat)
    requires n + 1 < |times|
  {
    if TurnWindow(n, hourFirst) == HOUR_MS then InFirstMinute(times[n], times[n + 1]) else InFirstMinute(times[n + 1], times[n])
  }

  lemma TurnsMeetIff(times: seq<int>, hourFirst: bool, n: nat)
    requires n + 1 < |times|
    ensures TurnStarts(times, hourFirst)[n] == TurnStarts(times, hourFirst)[n + 1] <==> TurnsMeet(times, hourFirst, n)
  {
    SharedWindowIff(times[n], times[n + 1]);
    SharedWindowIff(times[n + 1], times[n]);
  }

  lemma {:induction false} StartsOfTurns(key: nat, times: seq<int>, hourFirst: bool, n: nat)
    requires n <= |times|
    ensures StartsOf(TurnChecks(key, times, hourFirst)[..n], key) == TurnStarts(times, hourFirst)[..n]
  {
    if n > 0 {
      StartsOfTurns(key, times, hourFirst, n - 1);
      assert TurnChecks(key, times, hourFirst)[..n][..n - 1] == TurnChecks(key, times, hourFirst)[..n - 1];
      assert TurnStarts(times, hourFirst)[..n] == TurnStarts(times, hourFirst)[..n - 1] + [TurnStarts(times, hourFirst)[n - 1]];
    }
  }

  /** The count that the n-th check of the client gets, by the contract of IncrementBucket. */
  function TurnCount(key: nat, times: seq<int>, hourFirst: bool, n: nat): nat
    requires n < |times|
  {
    TrailingRun(StartsOf(TurnChecks(key, times, hourFirst)[..n + 1], key))
  }

  lemma TurnCountIff(key: nat, times: seq<int>, hourFirst: bool, n: nat)
    requires n < |times|
    ensures TurnCount(key, times, hourFirst, n) <= 1 <==> n == 0 || !TurnsMeet(times, hourFirst, n - 1)
  {
    hide TurnsMeet, TurnChecks, TurnStarts, StartsOf;
    StartsOfTurns(key, times, hourFirst, n + 1);
    if n > 0 {
      TurnsMeetIff(times, hourFirst, n - 1);
    }
    RunAtLeastTwoIff(TurnStarts(times, hourFirst), n);
  }

  /**
   A client that takes turns between the routes, at whatever times: every check counts as the first of its window, and so
   passes every positive limit, exactly if no check of the minute route falls into the first minute of the hour of a
   neighbouring check of the hour route.
   */
  lemma TurnsAreNeverLimitedIff(key: nat, times: seq<int>, hourFirst: bool)
    ensures (forall n: nat, limit: int | n < |times| && limit >= 1 :: Passes(TurnCount(key, times, hourFirst, n), limit))
            <==> forall n: nat | n + 1 < |times| :: !TurnsMeet(times, hourFirst, n)
  {
    hide TurnsMeet, TurnCount;
    forall n: nat | n < |times|
      ensures TurnCount(key, times, hourFirst, n) <= 1 <==> n == 0 || !TurnsMeet(times, hourFirst, n - 1)
    {
      TurnCountIff(key, times, hourFirst, n);
    }
    if n: nat :| n + 1 < |times| && TurnsMeet(times, hourFirst, n) {
      assert !Passes(TurnCount(key, times, hourFirst, n + 1), 1);
    } else {
      forall n: nat | n < |times|
        ensures TurnCount(key, times, hourFirst, n) <= 1
      {
        assert n > 0 ==> !TurnsMeet(times, hourFirst, n - 1);
      }
    }
  }

  lemma RunAtLeastTwoIff(starts: seq<int>, n: nat)
    requires n < |starts|
    ensures TrailingRun(starts[..n + 1]) <= 1 <==> n == 0 || starts[n - 1] != starts[n]
  {
    if n > 0 && starts[n - 1] == starts[n] {
      assert starts[..n + 1][..n] == starts[..n] && TrailingRun(starts[..n]) >= 1;
    }
  }

  /** So outside the first minute of every hour it is never limited. */
  lemma TurnsOutsideFirstMinutes(key: nat, times: seq<int>, hourFirst: bool)
    requires forall t | t in times :: !InFirstMinute(t, t)
    ensures forall n: nat, limit: int | n < |times| && limit >= 1 :: Passes(TurnCount(key, times, hourFirst, n), limit)
  {
    TurnsAreNeverLimitedIff(key, times, hourFirst);
    forall n: nat | n + 1 < |times|
      ensures !TurnsMeet(times, hourFirst, n)
    {
      assert times[n] in times && times[n + 1] in times;
    }
  }
}
