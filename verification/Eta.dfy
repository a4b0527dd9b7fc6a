/** src/lib/cache/eta.ts: when a queued lookup can expect its fetch. */
module Eta {
  import opened Common

  const DEFAULT_TICK_MS := 60_000
  const DEFAULT_BATCH := 10

  /** Math.ceil(a / b) for positive b. */
  function CeilDiv(a: int, b: int): int
    requires b > 0
  {
    (a + b - 1) / b
  }

  /** Ticks until the last of `queueDepth` jobs is expected to be claimed. */
  function TicksUntilMine(queueDepth: int, batchSize: int): int {
    var safeBatch := if batchSize > 0 then batchSize else DEFAULT_BATCH;
    var safeDepth := Max(1, queueDepth);
    CeilDiv(safeDepth, safeBatch) + (if safeDepth == safeBatch then 1 else 0)
  }

  function EstimateExpectedAt(queueDepth: int, tickMs: int, batchSize: int, medianFetchMs: real, now: int): int {
    var safeTick := if tickMs > 0 then tickMs else DEFAULT_TICK_MS;
    var fetchMs := if medianFetchMs > 0.0 then medianFetchMs.Floor else safeTick;
    now + TicksUntilMine(queueDepth, batchSize) * safeTick + fetchMs
  }

  /** The quotient rounded up is the least count of batches that covers `a`. */
  lemma CeilDivIsLeast(a: int, b: int, k: int)
    requires b > 0
    ensures k >= CeilDiv(a, b) <==> k * b >= a
  {
    var q, r := (a + b - 1) / b, (a + b - 1) % b;
    assert q * b + r == a + b - 1 && 0 <= r < b;
    if k >= q {
      assert k * b >= q * b;
    } else {
      assert k * b <= (q - 1) * b == q * b - b;
    }
  }

  /** A longer queue never shortens the estimate. */
  lemma TicksMonotoneInDepth(d: int, d': int, batchSize: int)
    requires d <= d'
    ensures TicksUntilMine(d, batchSize) <= TicksUntilMine(d', batchSize)
  {
    var b := if batchSize > 0 then batchSize else DEFAULT_BATCH;
    var s, s' := Max(1, d), Max(1, d');
    CeilDivIsLeast(s', b, CeilDiv(s', b));
    CeilDivIsLeast(s, b, CeilDiv(s', b));
    CeilDivIsLeast(s, b, CeilDiv(s, b));
    CeilDivIsLeast(s, b, 1);
    CeilDivIsLeast(s', b, 1);
  }

  /** A larger batch never lengthens the estimate, the extra tick of a full batch included. */
  lemma TicksAntitoneInBatch(d: int, b: int, b': int)
    requires 0 < b <= b'
    ensures TicksUntilMine(d, b') <= TicksUntilMine(d, b)
  {
    var s := Max(1, d);
    CeilDivAntitone(s, b, b');
    FullBatchIsOneTick(s, b);
    FullBatchIsOneTick(s, b');
    hide CeilDiv;
  }

  lemma CeilDivAntitone(s: int, b: int, b': int)
    requires 0 < b <= b' && 0 < s
    ensures CeilDiv(s, b') <= CeilDiv(s, b)
  {
    hide CeilDiv;
    var k := CeilDiv(s, b);
    CeilDivIsLeast(s, b, 0);
    CeilDivIsLeast(s, b, k);
    ProductsGrow(k, b, b');
    CeilDivIsLeast(s, b', k);
  }

  lemma ProductsGrow(k: int, b: int, b': int)
    requires b <= b'
    ensures k >= 0 ==> k * b <= k * b'
  {
  }

  lemma FullBatchIsOneTick(s: int, b: int)
    requires 0 < b && 0 < s
    ensures CeilDiv(s, b) >= 1 && (s <= b <==> CeilDiv(s, b) == 1)
  {
  }

  /** The estimate covers the drain of the whole queue: that many ticks claim at least `queueDepth` jobs. */
  lemma EstimateCoversDrain(queueDepth: int, batchSize: int)
    requires queueDepth > 0 && batchSize > 0
    ensures 1 <= CeilDiv(queueDepth, batchSize) <= TicksUntilMine(queueDepth, batchSize) <= CeilDiv(queueDepth, batchSize) + 1
    ensures TicksUntilMine(queueDepth, batchSize) * batchSize >= queueDepth
  {
  }

  lemma LaterTicksAreLater(k: int, n: int, tickMs: int)
    requires k <= n && tickMs > 0
    ensures k * tickMs <= n * tickMs
  {
  }

  /**
   The estimate in figures: the least number of ticks whose batches cover the queue, one more exactly if the queue fills one
   batch, then the fetch, rounded down. A tick length that is not positive counts as a minute, a batch as ten, an empty queue
   as one job, and without a history the fetch takes a tick.
   */
  lemma EstimateInFigures(queueDepth: int, tickMs: int, batchSize: int, medianFetchMs: real, now: int) returns (ticks: int)
    ensures var tick, batch := if tickMs > 0 then tickMs else 60_000, if batchSize > 0 then batchSize else 10;
            var depth := if queueDepth >= 1 then queueDepth else 1;
            && (ticks - 1) * batch < depth <= ticks * batch
            && EstimateExpectedAt(queueDepth, tickMs, batchSize, medianFetchMs, now)
               == now + (if depth == batch then 2 else ticks) * tick + (if medianFetchMs > 0.0 then medianFetchMs.Floor else tick)
  {
    var batch := if batchSize > 0 then batchSize else 10;
    var depth := Max(1, queueDepth);
    ticks := CeilDiv(depth, batch);
    CeilDivIsLeast(depth, batch, ticks);
    CeilDivIsLeast(depth, batch, ticks - 1);
    FullBatchIsOneTick(depth, batch);
    hide CeilDiv;
  }
}
