/**
 src/lib/github/pool.ts: the in-memory pool of GitHub tokens. A JavaScript Map iterates in insertion
 order, so the pool is a sequence of entries with distinct ids.
 */
module Pool {
  import opened Common

  const FLUSH_INTERVAL_CALLS := 25
  const BACKOFF_BASE_MS := 1_000
  const BACKOFF_CAP_MS := 60_000

  type TokenId = nat

  datatype Entry = Entry(id: TokenId, used: int, limit: int, resetAt: Option<int>, lastUsedAt: Option<int>, dirty: bool)

  datatype TokenStatus = Active | Disabled

  /** The quota columns of a `github_tokens` row, and whether it is enabled and has a plaintext token. */
  datatype TokenRow = TokenRow(used: int, limit: int, resetAt: Option<int>, lastUsedAt: Option<int>, status: TokenStatus, hasToken: bool)

  /** The test pickToken uses. */
  predicate Exhausted(e: Entry, now: int) {
    if e.resetAt.Some? && now < e.resetAt.value then e.used >= e.limit else false
  }

  ghost predicate DistinctIds(entries: seq<Entry>) {
    forall i, j | 0 <= i < j < |entries| :: entries[i].id != entries[j].id
  }

  predicate InPool(entries: seq<Entry>, id: TokenId) {
    exists i | 0 <= i < |entries| :: entries[i].id == id
  }

  /** The entries without their bookkeeping flag: what the rest of the program can see. */
  function Quotas(entries: seq<Entry>): seq<Entry> {
    seq(|entries|, i requires 0 <= i < |entries| => entries[i].(dirty := false))
  }

  /** Map.delete */
  function Without(entries: seq<Entry>, id: TokenId): seq<Entry> {
    if entries == [] then []
    else if entries[0].id == id then entries[1..]
    else [entries[0]] + Without(entries[1..], id)
  }

  lemma SameIds(a: seq<Entry>, b: seq<Entry>, id: TokenId)
    requires Quotas(a) == Quotas(b)
    ensures InPool(a, id) <==> InPool(b, id)
  {
    assert forall i | 0 <= i < |a| :: Quotas(a)[i].id == a[i].id && Quotas(b)[i].id == b[i].id;
  }

  predicate SameQuota(a: Entry, b: Entry) { a.(dirty := false) == b.(dirty := false) }

  /** After a report every other token's quota is as before, and the reported one's is as reported. */
  ghost predicate Reported(before: seq<Entry>, after: seq<Entry>, r: Report) {
    forall e | e in after ::
      if e.id == r.id then e.used == Max(0, e.limit - r.remaining) && e.resetAt == Some(r.resetAt)
      else exists b | b in before :: SameQuota(b, e)
  }

  lemma {:induction false} WithoutIsSmaller(entries: seq<Entry>, id: TokenId)
    ensures forall e | e in Without(entries, id) :: e in entries
  {
    if entries != [] {
      WithoutIsSmaller(entries[1..], id);
    }
  }

  lemma QuotasAreReported(before: seq<Entry>, after: seq<Entry>, i: nat, r: Report, dropped: bool)
    requires DistinctIds(before) && i < |before| && before[i].id == r.id
    requires var noted := before[i := UpdatedEntry(before[i], r)];
             Quotas(after) == Quotas(if dropped then Without(noted, r.id) else noted)
    ensures Reported(before, after, r)
  {
    var noted := before[i := UpdatedEntry(before[i], r)];
    var shown := if dropped then Without(noted, r.id) else noted;
    WithoutIsSmaller(noted, r.id);
    forall k | 0 <= k < |after|
      ensures if after[k].id == r.id then after[k].used == Max(0, after[k].limit - r.remaining) && after[k].resetAt == Some(r.resetAt)
              else exists b | b in before :: SameQuota(b, after[k])
    {
      assert Quotas(after)[k] == Quotas(shown)[k];
      assert SameQuota(shown[k], after[k]) && shown[k] in noted;
      var m :| 0 <= m < |noted| && noted[m] == shown[k];
      if m != i {
        assert before[m] == shown[k] && before[m] in before;
      }
    }
  }

  /** How many entries may be used, how many may not, and when the first of those is reset. */
  function CountActive(entries: seq<Entry>, now: int): nat {
    if entries == [] then 0 else (if Exhausted(entries[0], now) then 0 else 1) + CountActive(entries[1..], now)
  }

  datatype Status = Status(active: nat, exhausted: nat, earliestReset: Option<int>)

  /** What poolStatus promises about a pool. */
  ghost predicate IsStatus(entries: seq<Entry>, now: int, st: Status) {
    && st.active == CountActive(entries, now)
    && st.active + st.exhausted == |entries|
    && (st.earliestReset.None? <==> st.exhausted == 0)
    && (st.earliestReset.Some? ==>
          && (exists e | e in entries :: Exhausted(e, now) && e.resetAt == st.earliestReset)
          && (forall e | e in entries && Exhausted(e, now) :: e.resetAt.Some? && st.earliestReset.value <= e.resetAt.value))
  }

  /** What pickToken promises: a usable token of least use, the earliest inserted among equals. */
  ghost predicate IsPick(entries: seq<Entry>, now: int, picked: Option<TokenId>) {
    match picked
    case None => forall e | e in entries :: Exhausted(e, now)
    case Some(id) =>
      exists i | 0 <= i < |entries| ::
        && entries[i].id == id && !Exhausted(entries[i], now)
        && (forall e | e in entries && !Exhausted(e, now) :: entries[i].used <= e.used)
        && (forall j | 0 <= j < i && !Exhausted(entries[j], now) :: entries[i].used < entries[j].used)
  }

  lemma {:induction false} ActiveIffSomeUsable(entries: seq<Entry>, now: int)
    ensures CountActive(entries, now) > 0 <==> exists e | e in entries :: !Exhausted(e, now)
  {
    if entries != [] {
      ActiveIffSomeUsable(entries[1..], now);
      assert entries == [entries[0]] + entries[1..];
    }
  }

  lemma {:induction false} CountActiveAppend(a: seq<Entry>, e: Entry, now: int)
    ensures CountActive(a + [e], now) == CountActive(a, now) + if Exhausted(e, now) then 0 else 1
  {
    if a == [] {
      assert a + [e] == [e];
    } else {
      assert (a + [e])[1..] == a[1..] + [e];
      CountActiveAppend(a[1..], e, now);
    }
  }

  /** A token can be picked exactly when poolStatus counts an active one. */
  lemma PickIffActive(entries: seq<Entry>, now: int, picked: Option<TokenId>, st: Status)
    requires IsPick(entries, now, picked) && IsStatus(entries, now, st)
    ensures picked.Some? <==> st.active > 0
  {
    ActiveIffSomeUsable(entries, now);
    if picked.Some? {
      var i :| 0 <= i < |entries| && entries[i].id == picked.value && !Exhausted(entries[i], now);
      assert entries[i] in entries;
    }
  }

  /** In an unchanged pool some token is usable again once the earliest reset has come. */
  lemma UsableAfterEarliestReset(entries: seq<Entry>, now: int, st: Status, later: int, st': Status)
    requires IsStatus(entries, now, st) && st.earliestReset.Some? && later >= st.earliestReset.value
    requires IsStatus(entries, later, st')
    ensures st'.active > 0
  {
    var e :| e in entries && Exhausted(e, now) && e.resetAt == st.earliestReset;
    assert !Exhausted(e, later);
    ActiveIffSomeUsable(entries, later);
  }

  // ---------------------------------------------------------------------------------------------
  // Histories. A report is one recordUsage call for a token that was in the pool.
  // ---------------------------------------------------------------------------------------------

  datatype Report = Report(id: TokenId, remaining: int, resetAt: int, now: int)

  /** Quota zero with the reset still ahead is the over-limit signal. */
  predicate OverLimit(r: Report) { r.remaining == 0 && r.resetAt > r.now }

  /** The length of the run of over-limit reports of `id` that ends its history. */
  function TrailingRun(h: seq<Report>, id: TokenId): nat {
    if h == [] then 0
    else
      var last := h[|h| - 1];
      if last.id != id then TrailingRun(h[..|h| - 1], id)
      else if OverLimit(last) then 1 + TrailingRun(h[..|h| - 1], id)
      else 0
  }

  /** The reports of one token, in order. */
  function ReportsOf(h: seq<Report>, id: TokenId): seq<Report> {
    if h == [] then [] else ReportsOf(h[..|h| - 1], id) + if h[|h| - 1].id == id then [h[|h| - 1]] else []
  }

  /** The run is at least `k` long exactly if the last `k` reports of the token all said: nothing remaining, reset still ahead. */
  lemma {:induction false} TrailingRunIff(h: seq<Report>, id: TokenId, k: nat)
    ensures var own := ReportsOf(h, id);
            TrailingRun(h, id) >= k <==> k <= |own| && forall i | |own| - k <= i < |own| :: own[i].remaining == 0 && own[i].resetAt > own[i].now
    decreases |h|
  {
    if h != [] {
      var init, last := h[..|h| - 1], h[|h| - 1];
      var own, before := ReportsOf(h, id), ReportsOf(init, id);
      if last.id != id {
        assert own == before;
        TrailingRunIff(init, id, k);
      } else {
        assert own == before + [last];
        if k > 0 {
          TrailingRunIff(init, id, k - 1);
          assert own[|own| - 1] == last && forall i | 0 <= i < |before| :: own[i] == before[i];
        }
      }
    }
  }

  /** A usable token, the least used one, and the first in the pool among those, in the columns of the pool. */
  lemma PickInColumns(entries: seq<Entry>, now: int, id: TokenId)
    requires IsPick(entries, now, Some(id))
    ensures exists i | 0 <= i < |entries| ::
              var e := entries[i];
              && e.id == id && (e.resetAt.Some? && e.resetAt.value > now ==> e.used < e.limit)
              && forall j | 0 <= j < |entries| && (entries[j].resetAt.Some? && entries[j].resetAt.value > now ==> entries[j].used < entries[j].limit) ::
                   e.used < entries[j].used || (e.used == entries[j].used && i <= j)
    ensures IsPick(entries, now, None) <==> forall e | e in entries :: e.resetAt.Some? && e.resetAt.value > now && e.used >= e.limit
  {
    var i :| 0 <= i < |entries| && entries[i].id == id && !Exhausted(entries[i], now)
             && (forall e | e in entries && !Exhausted(e, now) :: entries[i].used <= e.used)
             && (forall j | 0 <= j < i && !Exhausted(entries[j], now) :: entries[i].used < entries[j].used);
    assert entries[i] in entries && forall j | 0 <= j < |entries| :: entries[j] in entries;
  }

  /** What a report leaves in an entry, in columns; a clean entry is exactly what addTokenToPool reads from its row. */
  lemma ReportInColumns(e: Entry, r: Report, row: TokenRow)
    ensures UpdatedEntry(e, r) == Entry(e.id, if r.remaining < e.limit then e.limit - r.remaining else 0, e.limit, Some(r.resetAt), Some(r.now), true)
    ensures FromRow(e.id, row) == Entry(e.id, row.used, row.limit, row.resetAt, row.lastUsedAt, false)
  {
  }

  lemma DistinctTail(entries: seq<Entry>)
    requires entries != [] && DistinctIds(entries)
    ensures DistinctIds(entries[1..]) && forall e | e in entries[1..] :: e.id != entries[0].id
  {
  }

  lemma DistinctCons(first: Entry, rest: seq<Entry>)
    requires DistinctIds(rest) && forall e | e in rest :: e.id != first.id
    ensures DistinctIds([first] + rest)
  {
  }

  lemma {:induction false} WithoutRemoves(entries: seq<Entry>, id: TokenId)
    requires DistinctIds(entries)
    ensures DistinctIds(Without(entries, id)) && !InPool(Without(entries, id), id)
    ensures forall e :: e in Without(entries, id) <==> e in entries && e.id != id
  {
    if entries != [] {
      DistinctTail(entries);
      hide DistinctIds;
      var rest := entries[1..];
      assert entries == [entries[0]] + rest;
      if entries[0].id != id {
        WithoutRemoves(rest, id);
        DistinctCons(entries[0], Without(rest, id));
      }
    }
  }

  function UpdatedEntry(e: Entry, r: Report): Entry {
    e.(used := Max(0, e.limit - r.remaining), resetAt := Some(r.resetAt), lastUsedAt := Some(r.now), dirty := true)
  }

  function Pow2(n: nat): nat { if n == 0 then 1 else 2 * Pow2(n - 1) }

  function BackoffMs(n: nat): int
    requires n >= 1
  {
    Min(BACKOFF_CAP_MS, BACKOFF_BASE_MS * Pow2(n - 1))
  }

  lemma {:induction false} BackoffGrows(n: nat, m: nat)
    requires 1 <= n <= m
    ensures BACKOFF_BASE_MS <= BackoffMs(n) <= BackoffMs(m) <= BACKOFF_CAP_MS
    decreases m - n
  {
    Pow2Positive(n - 1);
    if n < m {
      BackoffGrows(n, m - 1);
    }
  }

  /** The backoffs in figures: one second, doubled each time, and a minute from the seventh on. */
  lemma BackoffInFigures(n: nat)
    requires n >= 1
    ensures BackoffMs(1) == 1_000 && BackoffMs(2) == 2_000 && BackoffMs(3) == 4_000 && BackoffMs(4) == 8_000
    ensures BackoffMs(5) == 16_000 && BackoffMs(6) == 32_000 && (n >= 7 ==> BackoffMs(n) == 60_000)
  {
    assert Pow2(0) == 1 && Pow2(1) == 2 && Pow2(2) == 4 && Pow2(3) == 8 && Pow2(4) == 16 && Pow2(5) == 32 && Pow2(6) == 64;
    if n >= 7 {
      BackoffGrows(7, n);
    }
  }

  lemma {:induction false} Pow2Positive(n: nat)
    ensures Pow2(n) >= 1
  {
    if n > 0 {
      Pow2Positive(n - 1);
    }
  }

  datatype BackoffEvent = AskedBackoff | OverLimitReport | OtherReport

  /** The global counter behind getBackoff, as a function of what happened. */
  function Consecutive(h: seq<BackoffEvent>): nat {
    if h == [] then 0
    else if h[|h| - 1] == OtherReport then 0
    else Consecutive(h[..|h| - 1]) + 1
  }

  lemma ConsecutiveNext(h: seq<BackoffEvent>, e: BackoffEvent)
    ensures Consecutive(h + [e]) == if e == OtherReport then 0 else Consecutive(h) + 1
  {
    assert (h + [e])[..|h|] == h;
  }

  lemma {:induction false} ConsecutiveGrows(h: seq<BackoffEvent>, i: nat, j: nat)
    requires i <= j <= |h|
    requires forall k | i <= k < j :: h[k] != OtherReport
    ensures Consecutive(h[..i]) <= Consecutive(h[..j])
    decreases j - i
  {
    if i < j {
      ConsecutiveGrows(h, i, j - 1);
      assert h[..j][..j - 1] == h[..j - 1];
    }
  }

  /** Between two reports that are not over the limit, backoffs never shrink and stay within one second and one minute. */
  lemma BackoffNeverShrinks(h: seq<BackoffEvent>, i: nat, j: nat)
    requires i < j < |h| && h[i] == AskedBackoff && h[j] == AskedBackoff
    requires forall k | i < k < j :: h[k] != OtherReport
    ensures BACKOFF_BASE_MS <= BackoffMs(Consecutive(h[..i + 1])) <= BackoffMs(Consecutive(h[..j + 1])) <= BACKOFF_CAP_MS
  {
    assert h[..i + 1][..i] == h[..i];
    ConsecutiveGrows(h, i + 1, j + 1);
    BackoffGrows(Consecutive(h[..i + 1]), Consecutive(h[..j + 1]));
  }

  /** One more report of a run, counted modulo the threshold. */
  lemma StrikeArithmetic(run: nat, threshold: nat)
    requires threshold > 0
    ensures run % threshold + 1 >= threshold <==> (run + 1) % threshold == 0
    ensures run % threshold + 1 < threshold ==> (run + 1) % threshold == run % threshold + 1
    ensures 0 % threshold == 0
  {
    RemainderIsUnique(0, 0, 0, threshold);
    var q, r := run / threshold, run % threshold;
    assert run == q * threshold + r;
    if r + 1 == threshold {
      assert run + 1 == (q + 1) * threshold;
      assert (run + 1) % threshold == 0 by {
        MultipleHasNoRemainder(q + 1, threshold);
      }
    } else {
      RemainderIsUnique(run + 1, q, r + 1, threshold);
    }
  }

  lemma MultipleHasNoRemainder(q: nat, n: nat)
    requires n > 0
    ensures (q * n) % n == 0
  {
    RemainderIsUnique(q * n, q, 0, n);
  }

  lemma RemainderIsUnique(x: nat, q: int, r: nat, n: nat)
    requires n > 0 && r < n && x == q * n + r
    ensures x % n == r
  {
    var d := x / n - q;
    assert d * n == r - x % n;
  }

  /** The entry addTokenToPool builds. */
  function FromRow(id: TokenId, row: TokenRow): Entry {
    Entry(id, row.used, row.limit, row.resetAt, row.lastUsedAt, false)
  }

  /** A missing counter reads as zero. */
  function StrikesOf(strikes: map<TokenId, nat>, id: TokenId): nat { if id in strikes then strikes[id] else 0 }

  /** Run lengths are kept modulo a positive threshold: reaching it drops the token and its counter. */
  ghost predicate CountersMatch(strikes: map<TokenId, nat>, h: seq<Report>, threshold: nat) {
    forall id: TokenId :: StrikesOf(strikes, id) == if threshold == 0 then 0 else TrailingRun(h, id) % threshold
  }

  /** The counters after one accepted report. */
  function NextStrikes(strikes: map<TokenId, nat>, r: Report, threshold: nat): map<TokenId, nat> {
    if !OverLimit(r) then strikes - {r.id}
    else if threshold == 0 then strikes
    else if StrikesOf(strikes, r.id) + 1 >= threshold then strikes - {r.id}
    else strikes[r.id := StrikesOf(strikes, r.id) + 1]
  }

  /** The trailing run of the token has reached the threshold, or a multiple of it. */
  ghost predicate AtThreshold(h: seq<Report>, id: TokenId, threshold: nat)
    requires threshold > 0
  {
    TrailingRun(h, id) % threshold == 0
  }

  lemma CountersFollowHistory(strikes: map<TokenId, nat>, h: seq<Report>, r: Report, threshold: nat)
    requires CountersMatch(strikes, h, threshold)
    ensures CountersMatch(NextStrikes(strikes, r, threshold), h + [r], threshold)
    ensures threshold > 0 && OverLimit(r) ==>
              (StrikesOf(strikes, r.id) + 1 >= threshold <==> AtThreshold(h + [r], r.id, threshold))
  {
    assert (h + [r])[..|h|] == h;
    if threshold > 0 {
      StrikeArithmetic(TrailingRun(h, r.id), threshold);
    }
    var next := NextStrikes(strikes, r, threshold);
    forall id: TokenId
      ensures StrikesOf(next, id) == if threshold == 0 then 0 else TrailingRun(h + [r], id) % threshold
    {
      assert StrikesOf(strikes, id) == if threshold == 0 then 0 else TrailingRun(h, id) % threshold;
    }
  }

  /** Every counter is below the threshold, and is the run length itself until the run has once reached the threshold. */
  lemma CountersStayBelowThreshold(strikes: map<TokenId, nat>, h: seq<Report>, threshold: nat, id: TokenId)
    requires threshold > 0 && CountersMatch(strikes, h, threshold)
    ensures StrikesOf(strikes, id) < threshold
    ensures TrailingRun(h, id) < threshold ==> StrikesOf(strikes, id) == TrailingRun(h, id)
  {
    if TrailingRun(h, id) < threshold {
      RemainderIsUnique(TrailingRun(h, id), 0, TrailingRun(h, id), threshold);
    }
  }

  ghost predicate CleanMatches(e: Entry, rows: map<TokenId, TokenRow>) {
    !e.dirty ==> e.id in rows && rows[e.id].used == e.used && rows[e.id].resetAt == e.resetAt && rows[e.id].lastUsedAt == e.lastUsedAt
  }

  /** An entry differs from its row only if it was reported since the last flush, or that flush could not write it. */
  ghost predicate DirtyExplained(entries: seq<Entry>, history: seq<Report>, flushed: nat, unwritten: set<TokenId>) {
    forall e | e in entries && e.dirty :: e.id in unwritten || exists k | flushed <= k < |history| :: history[k].id == e.id
  }

  lemma {:induction false} IdsAtMost(h: seq<Report>)
    ensures |set r | r in h :: r.id| <= |h|
  {
    if h != [] {
      var rest, last := h[..|h| - 1], h[|h| - 1];
      IdsAtMost(rest);
      assert h == rest + [last];
      assert (set r | r in h :: r.id) == (set r | r in rest :: r.id) + {last.id};
    }
  }

  lemma SubsetIsSmaller(a: set<TokenId>, b: set<TokenId>)
    requires a <= b
    ensures |a| <= |b|
  {
    assert b == a + (b - a);
  }

  /** So apart from failed writes fewer than twenty-five tokens differ from their rows. */
  lemma FewAreUnflushed(entries: seq<Entry>, history: seq<Report>, flushed: nat, unwritten: set<TokenId>)
    requires flushed <= |history| < flushed + FLUSH_INTERVAL_CALLS && DirtyExplained(entries, history, flushed, unwritten)
    ensures |set e | e in entries && e.dirty && e.id !in unwritten :: e.id| < 25
  {
    var recent := history[flushed..];
    var dirty := set e | e in entries && e.dirty && e.id !in unwritten :: e.id;
    forall id | id in dirty
      ensures id in set r | r in recent :: r.id
    {
      var k :| flushed <= k < |history| && history[k].id == id;
      assert recent[k - flushed] == history[k] && history[k] in recent;
    }
    IdsAtMost(recent);
    SubsetIsSmaller(dirty, set r | r in recent :: r.id);
  }

  lemma ReportExplains(before: seq<Entry>, i: nat, r: Report, history: seq<Report>, flushed: nat, unwritten: set<TokenId>, dropped: bool)
    requires i < |before| && before[i].id == r.id && flushed <= |history| && DirtyExplained(before, history, flushed, unwritten)
    ensures var noted := before[i := UpdatedEntry(before[i], r)];
            DirtyExplained(if dropped then Without(noted, r.id) else noted, history + [r], flushed, unwritten)
  {
    var noted := before[i := UpdatedEntry(before[i], r)];
    WithoutIsSmaller(noted, r.id);
    forall e | e in noted && e.dirty
      ensures e.id in unwritten || exists k | flushed <= k < |history + [r]| :: (history + [r])[k].id == e.id
    {
      if e.id == r.id {
        assert (history + [r])[|history|].id == e.id;
      } else {
        assert e in before;
        if e.id !in unwritten {
          var k :| flushed <= k < |history| && history[k].id == e.id;
          assert (history + [r])[k].id == e.id;
        }
      }
    }
  }

  /** The rows after a flush of these entries. */
  function Flushed(entries: seq<Entry>, rows: map<TokenId, TokenRow>, failing: set<TokenId>): (r: map<TokenId, TokenRow>)
    ensures r.Keys == rows.Keys
  {
    if entries == [] then rows
    else
      var e, before := entries[|entries| - 1], Flushed(entries[..|entries| - 1], rows, failing);
      if e.dirty && e.id in before && e.id !in failing then
        before[e.id := before[e.id].(used := e.used, resetAt := e.resetAt, lastUsedAt := e.lastUsedAt)]
      else before
  }

  /** A flush copies the quota of exactly the dirty entries whose write works, each to its own row, and nothing else. */
  lemma {:induction false} FlushInColumns(entries: seq<Entry>, rows: map<TokenId, TokenRow>, failing: set<TokenId>, k: TokenId)
    requires DistinctIds(entries) && k in rows
    ensures var row := Flushed(entries, rows, failing)[k];
            && (forall e | e in entries && e.id == k ::
                  row == if e.dirty && k !in failing then TokenRow(e.used, rows[k].limit, e.resetAt, e.lastUsedAt, rows[k].status, rows[k].hasToken)
                         else rows[k])
            && (!InPool(entries, k) ==> row == rows[k])
            && row.status == rows[k].status && row.limit == rows[k].limit && row.hasToken == rows[k].hasToken
    decreases |entries|
  {
    if entries != [] {
      var init, last := entries[..|entries| - 1], entries[|entries| - 1];
      assert entries == init + [last];
      FlushInColumns(init, rows, failing, k);
      assert last.id == k ==> !InPool(init, k);
      assert InPool(init, k) ==> InPool(entries, k);
      assert entries[|entries| - 1].id == k ==> InPool(entries, k);
    }
  }

  /** After a flush the clean entries are those of the rows. */
  lemma FlushedMatches(before: seq<Entry>, after: seq<Entry>, rows: map<TokenId, TokenRow>, failing: set<TokenId>)
    requires DistinctIds(before) && |after| == |before| && forall e | e in before :: CleanMatches(e, rows)
    requires forall j | 0 <= j < |before| :: after[j] == before[j].(dirty := before[j].dirty && (before[j].id in failing || before[j].id !in rows))
    ensures DistinctIds(after) && Quotas(after) == Quotas(before) && forall e | e in after :: CleanMatches(e, Flushed(before, rows, failing))
  {
    forall j | 0 <= j < |after|
      ensures CleanMatches(after[j], Flushed(before, rows, failing))
    {
      assert before[j] in before;
      if before[j].id in rows {
        FlushInColumns(before, rows, failing, before[j].id);
      }
    }
  }

  lemma NothingMoves(rows: map<TokenId, TokenRow>)
    ensures RowsMove(rows, rows, None, false)
  {
  }

  lemma DisabledMoves(rows: map<TokenId, TokenRow>, id: TokenId)
    ensures id in rows ==> RowsMove(rows, rows[id := rows[id].(status := Disabled)], Some(id), false)
    ensures id !in rows ==> RowsMove(rows, rows, Some(id), false)
  {
  }

  lemma MovesCompose(a: map<TokenId, TokenRow>, b: map<TokenId, TokenRow>, c: map<TokenId, TokenRow>, disabled: Option<TokenId>)
    requires RowsMove(a, b, disabled, false)
    ensures RowsMove(b, c, None, true) ==> RowsMove(a, c, disabled, true)
    ensures b == c ==> RowsMove(a, c, disabled, false)
  {
  }

  lemma FlushKeepsRows(entries: seq<Entry>, rows: map<TokenId, TokenRow>, failing: set<TokenId>)
    requires DistinctIds(entries)
    ensures RowsMove(rows, Flushed(entries, rows, failing), None, true)
  {
    forall k | k in rows
      ensures var row := Flushed(entries, rows, failing)[k]; row.status == rows[k].status && row.limit == rows[k].limit && row.hasToken == rows[k].hasToken
    {
      FlushInColumns(entries, rows, failing, k);
    }
  }

  /** Nothing but quota columns moved, and those only if `quota` says so. */
  ghost predicate RowsMove(before: map<TokenId, TokenRow>, after: map<TokenId, TokenRow>, disabled: Option<TokenId>, quota: bool) {
    && after.Keys == before.Keys
    && forall k | k in before ::
         && after[k].limit == before[k].limit && after[k].hasToken == before[k].hasToken
         && after[k].status == (if disabled == Some(k) then Disabled else before[k].status)
         && (!quota ==> after[k].used == before[k].used && after[k].resetAt == before[k].resetAt && after[k].lastUsedAt == before[k].lastUsedAt)
  }

  class TokenPool {
    var entries: seq<Entry>
    var persistCounter: nat
    var consecutive429s: nat
    var strikes: map<TokenId, nat>
    var rows: map<TokenId, TokenRow> // github_tokens
    const threshold: nat             // TOKEN_AUTO_DISABLE_THRESHOLD
    ghost var history: seq<Report>   // accepted reports
    ghost var events: seq<BackoffEvent> // what moved the backoff
    ghost var flushed: nat           // how many of them the last flush had before it
    ghost var unwritten: set<TokenId> // the tokens whose quota that flush could not write

    ghost predicate Valid()
      reads this
    {
      && DistinctIds(entries)
      && CountersMatch(strikes, history, threshold)
      && consecutive429s == Consecutive(events)
      && flushed <= |history| && persistCounter == |history| - flushed < FLUSH_INTERVAL_CALLS
      && (forall e | e in entries :: CleanMatches(e, rows))
      && DirtyExplained(entries, history, flushed, unwritten)
    }

    constructor (threshold: nat, rows: map<TokenId, TokenRow>)
      ensures Valid() && entries == [] && history == [] && this.threshold == threshold && this.rows == rows
    {
      this.threshold, this.rows := threshold, rows;
      entries, persistCounter, consecutive429s, strikes := [], 0, 0, map[];
      history, events, flushed, unwritten := [], [], 0, {};
    }

    method PoolStatus(now: int) returns (st: Status)
      ensures IsStatus(entries, now, st)
    {
      var active, exhausted, earliest := 0, 0, None;
      for i := 0 to |entries|
        invariant active == CountActive(entries[..i], now) && active + exhausted == i
        invariant earliest.None? <==> exhausted == 0
        invariant earliest.Some? ==>
          && (exists e | e in entries[..i] :: Exhausted(e, now) && e.resetAt == earliest)
          && (forall e | e in entries[..i] && Exhausted(e, now) :: e.resetAt.Some? && earliest.value <= e.resetAt.value)
        invariant earliest.None? ==> forall e | e in entries[..i] :: !Exhausted(e, now)
      {
        var e := entries[i];
        assert entries[..i + 1] == entries[..i] + [e];
        CountActiveAppend(entries[..i], e, now);
        if e.resetAt.Some? && e.resetAt.value > now && e.used >= e.limit {
          exhausted := exhausted + 1;
          if earliest.None? || e.resetAt.value < earliest.value {
            earliest := e.resetAt;
          }
        } else {
          active := active + 1;
        }
      }
      assert entries[..|entries|] == entries;
      st := Status(active, exhausted, earliest);
    }

    /** Collects the usable entries, then takes the first one of least use, as the stable sort does. */
    method PickToken(now: int) returns (picked: Option<TokenId>)
      ensures IsPick(entries, now, picked)
    {
      var best: Option<nat> := None;
      for i := 0 to |entries|
        invariant best.None? ==> forall j | 0 <= j < i :: Exhausted(entries[j], now)
        invariant best.Some? ==>
          && best.value < i && !Exhausted(entries[best.value], now)
          && (forall j | 0 <= j < i && !Exhausted(entries[j], now) :: entries[best.value].used <= entries[j].used)
          && (forall j | 0 <= j < best.value && !Exhausted(entries[j], now) :: entries[best.value].used < entries[j].used)
      {
        if !Exhausted(entries[i], now) && (best.None? || entries[i].used < entries[best.value].used) {
          best := Some(i);
        }
      }
      picked := if best.Some? then Some(entries[best.value].id) else None;
    }

    method Find(id: TokenId) returns (found: Option<nat>)
      ensures found.None? <==> !InPool(entries, id)
      ensures found.Some? ==> found.value < |entries| && entries[found.value].id == id
    {
      for i := 0 to |entries|
        invariant forall j | 0 <= j < i :: entries[j].id != id
      {
        if entries[i].id == id {
          return Some(i);
        }
      }
      return None;
    }

    /** Flushes the dirty entries; exactly those stay dirty whose write fails or whose row is gone. */
    method PersistQuota(failing: set<TokenId>)
      requires DistinctIds(entries) && forall e | e in entries :: CleanMatches(e, rows)
      modifies this`entries, this`rows, this`persistCounter, this`flushed, this`unwritten
      ensures persistCounter == 0 && flushed == |history|
      ensures Quotas(entries) == Quotas(old(entries))
      ensures DistinctIds(entries) && forall e | e in entries :: CleanMatches(e, rows)
      ensures rows.Keys == old(rows).Keys && |entries| == |old(entries)|
      ensures rows == Flushed(old(entries), old(rows), failing)
      ensures forall i | 0 <= i < |entries| ::
                entries[i].dirty <==> old(entries)[i].dirty && (entries[i].id in failing || entries[i].id !in rows)
      ensures DirtyExplained(entries, history, flushed, unwritten) && unwritten <= set e | e in entries && e.dirty :: e.id
    {
      ghost var before, start := entries, rows;
      for i := 0 to |entries|
        invariant |entries| == |before| && rows == Flushed(before[..i], start, failing)
        invariant forall j | 0 <= j < i :: entries[j] == before[j].(dirty := before[j].dirty && (before[j].id in failing || before[j].id !in start))
        invariant forall j | i <= j < |before| :: entries[j] == before[j]
      {
        var e := entries[i];
        assert before[..i + 1][..i] == before[..i];
        if e.dirty && e.id in rows && e.id !in failing {
          rows := rows[e.id := rows[e.id].(used := e.used, resetAt := e.resetAt, lastUsedAt := e.lastUsedAt)];
          entries := entries[i := e.(dirty := false)];
        }
      }
      assert before[..|before|] == before;
      persistCounter := 0;
      flushed, unwritten := |history|, set e | e in entries && e.dirty :: e.id;
      FlushedMatches(before, entries, start, failing);
    }

    /** Drops the token and its counter; the row is disabled unless that write fails. */
    method AutoDisableToken(id: TokenId, writeFails: bool)
      requires DistinctIds(entries)
      modifies this`entries, this`strikes, this`rows
      ensures entries == Without(old(entries), id) && strikes == old(strikes) - {id}
      ensures rows == if !writeFails && id in old(rows) then old(rows)[id := old(rows)[id].(status := Disabled)] else old(rows)
    {
      entries := Without(entries, id);
      strikes := strikes - {id};
      if !writeFails && id in rows {
        rows := rows[id := rows[id].(status := Disabled)];
      }
    }

    /** The entry of the reported token takes the reported quota. */
    method NoteReport(i: nat, r: Report)
      requires i < |entries| && DistinctIds(entries) && forall e | e in entries :: CleanMatches(e, rows)
      modifies this`entries, this`persistCounter
      ensures entries == old(entries)[i := UpdatedEntry(old(entries)[i], r)]
      ensures DistinctIds(entries) && forall e | e in entries :: CleanMatches(e, rows)
      ensures persistCounter == old(persistCounter) + 1
    {
      var e := entries[i];
      entries := entries[i := e.(used := Max(0, e.limit - r.remaining), resetAt := Some(r.resetAt), lastUsedAt := Some(r.now), dirty := true)];
      persistCounter := persistCounter + 1;
    }

    /** The global counter, the token's own counter, and the drop at the threshold. */
    method CountReport(r: Report, disableFails: bool) returns (dropped: bool)
      requires DistinctIds(entries) && CountersMatch(strikes, history, threshold) && InPool(entries, r.id)
      requires forall e | e in entries :: CleanMatches(e, rows)
      requires consecutive429s == Consecutive(events)
      modifies this`entries, this`strikes, this`consecutive429s, this`rows, this`history, this`events
      ensures consecutive429s == Consecutive(events) && events == old(events) + [if OverLimit(r) then OverLimitReport else OtherReport]
      ensures CountersMatch(strikes, history, threshold) && history == old(history) + [r]
      ensures consecutive429s == if OverLimit(r) then old(consecutive429s) + 1 else 0
      ensures dropped <==> threshold > 0 && OverLimit(r) && AtThreshold(history, r.id, threshold)
      ensures RowsMove(old(rows), rows, if dropped && !disableFails then Some(r.id) else None, false)
      ensures entries == if dropped then Without(old(entries), r.id) else old(entries)
      ensures DistinctIds(entries) && (InPool(entries, r.id) <==> !dropped)
      ensures forall e | e in entries :: CleanMatches(e, rows)
    {
      dropped := false;
      ghost var before := strikes;
      CountersFollowHistory(strikes, history, r, threshold);
      ConsecutiveNext(events, if OverLimit(r) then OverLimitReport else OtherReport);
      NothingMoves(rows);
      DisabledMoves(rows, r.id);
      hide RowsMove, CountersMatch, TrailingRun, AtThreshold, Consecutive, CleanMatches;
      history := history + [r];
      events := events + [if OverLimit(r) then OverLimitReport else OtherReport];
      if OverLimit(r) {
        consecutive429s := consecutive429s + 1;
        if threshold > 0 {
          var next := StrikesOf(strikes, r.id) + 1;
          strikes := strikes[r.id := next];
          if next >= threshold {
            WithoutRemoves(entries, r.id);
            AutoDisableToken(r.id, disableFails);
            dropped := true;
            assert strikes == before - {r.id};
          }
        }
      } else {
        consecutive429s := 0;
        strikes := strikes - {r.id};
      }
    }

    /** The flush at every so many reports. */
    method FlushIfDue(failing: set<TokenId>)
      requires DistinctIds(entries) && (forall e | e in entries :: CleanMatches(e, rows)) && DirtyExplained(entries, history, flushed, unwritten)
      modifies this`entries, this`rows, this`persistCounter, this`flushed, this`unwritten
      ensures DistinctIds(entries) && (forall e | e in entries :: CleanMatches(e, rows)) && DirtyExplained(entries, history, flushed, unwritten)
      ensures Quotas(entries) == Quotas(old(entries))
      ensures if old(persistCounter) >= FLUSH_INTERVAL_CALLS then persistCounter == 0 && flushed == |history| && RowsMove(old(rows), rows, None, true)
              else persistCounter == old(persistCounter) && flushed == old(flushed) && rows == old(rows) && entries == old(entries)
      ensures old(persistCounter) >= FLUSH_INTERVAL_CALLS ==>
                && rows == Flushed(old(entries), old(rows), failing) && |entries| == |old(entries)|
                && forall i | 0 <= i < |entries| :: entries[i].dirty <==> old(entries)[i].dirty && (entries[i].id in failing || entries[i].id !in rows)
    {
      if persistCounter >= FLUSH_INTERVAL_CALLS {
        FlushKeepsRows(entries, rows, failing);
        PersistQuota(failing);
      }
    }

    /**
     A report for an unknown token is ignored. Otherwise it updates the entry and the counters, and the
     token is dropped exactly on the over-limit report that brings its trailing run to a multiple of a
     positive threshold.
     */
    method RecordUsage(id: TokenId, remaining: int, resetAt: int, now: int, failing: set<TokenId>, disableFails: bool)
      requires Valid()
      modifies this
      ensures Valid()
      ensures !InPool(old(entries), id) ==>
                && entries == old(entries) && events == old(events) && history == old(history) && rows == old(rows)
                && consecutive429s == old(consecutive429s) && persistCounter == old(persistCounter)
      ensures var r := Report(id, remaining, resetAt, now);
              InPool(old(entries), id) ==>
                && history == old(history) + [r] && events == old(events) + [if remaining == 0 && resetAt > now then OverLimitReport else OtherReport]
                && consecutive429s == (if remaining == 0 && resetAt > now then old(consecutive429s) + 1 else 0)
                && (InPool(entries, id) <==> !(threshold > 0 && remaining == 0 && resetAt > now && AtThreshold(history, id, threshold)))
                && exists i | 0 <= i < |old(entries)| ::
                     && old(entries)[i].id == id
                     && var noted := old(entries)[i := UpdatedEntry(old(entries)[i], r)];
                        Quotas(entries) == Quotas(if InPool(entries, id) then noted else Without(noted, id))
      ensures InPool(old(entries), id) ==> Reported(old(entries), entries, Report(id, remaining, resetAt, now))
      ensures InPool(old(entries), id) ==>
                && flushed == (if old(persistCounter) + 1 >= 25 then |history| else old(flushed))
                && RowsMove(old(rows), rows, if InPool(entries, id) || disableFails then None else Some(id), old(persistCounter) + 1 >= 25)
    {
      hide RowsMove, CountersMatch, TrailingRun, AtThreshold, Reported, Consecutive;
      var found := Find(id);
      if found.None? {
        return;
      }
      var i := found.value;
      var r := Report(id, remaining, resetAt, now);
      NoteReport(i, r);
      assert entries[i].id == id;
      ghost var before := old(entries);
      var dropped := CountReport(r, disableFails);
      ReportExplains(before, i, r, old(history), flushed, unwritten, dropped);
      ghost var counted, moved := entries, rows;
      FlushIfDue(failing);
      SameIds(counted, entries, id);
      MovesCompose(old(rows), moved, rows, if dropped && !disableFails then Some(id) else None);
      QuotasAreReported(before, entries, i, r, dropped);
    }

    method GetBackoff() returns (ms: int)
      requires Valid()
      modifies this`consecutive429s, this`events
      ensures Valid() && consecutive429s == old(consecutive429s) + 1 && ms == BackoffMs(consecutive429s) && events == old(events) + [AskedBackoff]
    {
      ConsecutiveNext(events, AskedBackoff);
      hide Consecutive, CountersMatch, TrailingRun, Pow2, DistinctIds, CleanMatches, DirtyExplained;
      events := events + [AskedBackoff];
      consecutive429s := consecutive429s + 1;
      ms := Min(BACKOFF_CAP_MS, BACKOFF_BASE_MS * Pow2(consecutive429s - 1));
    }

    /** addTokenToPool with the row of `id`; Map.set keeps the position of a key that is already there. */
    method AddToken(id: TokenId)
      requires Valid() && id in rows
      modifies this`entries
      ensures Valid()
      ensures !rows[id].hasToken ==> entries == old(entries)
      ensures rows[id].hasToken && rows[id].status == Disabled ==> entries == Without(old(entries), id)
      ensures rows[id].hasToken && rows[id].status == Active ==>
                && InPool(entries, id)
                && (forall e | e in entries && e.id == id :: e == FromRow(id, rows[id]))
                && (forall e: Entry :: e.id != id ==> (e in entries <==> e in old(entries)))
    {
      var row := rows[id];
      if !row.hasToken {
        return;
      }
      if row.status != Active {
        WithoutRemoves(entries, id);
        entries := Without(entries, id);
        return;
      }
      var found := Find(id);
      ghost var before := entries;
      if found.Some? {
        entries := entries[found.value := FromRow(id, row)];
        assert entries[found.value].id == id;
        assert forall k | 0 <= k < |before| && k != found.value :: entries[k] == before[k] && before[k].id != before[found.value].id;
      } else {
        entries := entries + [FromRow(id, row)];
        assert entries[|before|].id == id;
      }
    }

    method RemoveToken(id: TokenId)
      requires Valid()
      modifies this`entries
      ensures Valid() && entries == Without(old(entries), id) && !InPool(entries, id)
    {
      WithoutRemoves(entries, id);
      entries := Without(entries, id);
    }
  }
}
